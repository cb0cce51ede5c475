/** The keyword search of services/search_service.py: a kind filter, then a
    substring test of the normalised query against a normalised haystack
    built from each card's text fields. */
module Search {
  import opened Text
  import opened Seqs
  import opened GraphCards

  // ----------------------------------------------------------- tag strip

  /** The first `>` at or after position `k`, or `|s|` when there is none. */
  function NextClose(s: string, k: nat): (j: nat)
    requires k <= |s|
    ensures k <= j <= |s|
    ensures j < |s| ==> s[j] == '>'
    ensures forall m :: k <= m < j ==> s[m] != '>'
    decreases |s| - k
  {
    if k == |s| || s[k] == '>' then k else NextClose(s, k + 1)
  }

  /** `_strip_tags`: `re.sub(r"<[^>]+>", "", s)`. Scanning left to right,
      a `<` followed by at least one character and then a `>` starts a
      match that runs to that first `>`; the match is removed and the scan
      resumes after it. Any other character, including a `<` with no such
      `>`, is kept. */
  function StripTags(s: string): (r: string)
    ensures |r| <= |s|
    decreases |s|
  {
    if s == [] then []
    else if s[0] == '<' && 1 < NextClose(s, 1) < |s| then StripTags(s[NextClose(s, 1) + 1..])
    else [s[0]] + StripTags(s[1..])
  }

  /** Text without `<` passes through unchanged. */
  lemma {:induction false} StripTagsPlain(s: string)
    requires '<' !in s
    ensures StripTags(s) == s
  {
    if s != [] {
      assert s[0] != '<';
      assert '<' !in s[1..];
      StripTagsPlain(s[1..]);
      assert s == [s[0]] + s[1..];
    }
  }

  /** A tag `<t>` with a non-empty body free of `>`, after text with no `<`,
      is removed whole and the scan carries on behind it. */
  lemma {:induction false} StripTagsRemovesTag(a: string, t: string, b: string)
    requires '<' !in a && t != [] && '>' !in t
    ensures StripTags(a + ['<'] + t + ['>'] + b) == a + StripTags(b)
  {
    var s := a + ['<'] + t + ['>'] + b;
    if a == [] {
      assert s == ['<'] + t + ['>'] + b;
      var j := NextClose(s, 1);
      assert s[|t| + 1] == '>';
      forall m | 1 <= m < |t| + 1
        ensures s[m] != '>'
      {
        assert s[m] == t[m - 1];
      }
      assert j == |t| + 1;
      assert s[j + 1..] == b;
    } else {
      assert s[0] == a[0] && a[0] != '<';
      assert s[1..] == a[1..] + ['<'] + t + ['>'] + b;
      StripTagsRemovesTag(a[1..], t, b);
      assert a == [a[0]] + a[1..];
    }
  }

  // ----------------------------------------------------------- the search

  /** `_kind_ok`: the `product` filter wants the product label, any other
      (an empty one reads as `tech`) the technology label. */
  function KindOk(c: Card, kindType: string): (ok: bool)
    ensures ok <==> c.kind == (if kindType == "product" then Product else Tech)
  {
    LabelInjective(c.kind, Product);
    LabelInjective(c.kind, Tech);
    var t := if kindType == "" then "tech" else kindType;
    if t == "product" then Label(c.kind) == "关键产品" else Label(c.kind) == "关键技术"
  }

  /** `str(it.get("id") or "")`. */
  function IdText(id: int): string
  {
    if id == 0 then "" else IntToStr(id)
  }

  /** The six haystack parts, joined with spaces: name, org without tags,
      abstract, the aliases joined with spaces, node id and number. */
  function Haystack(c: Card): string
  {
    Join([c.name, StripTags(RenderOrg(c.org)), c.abstractText, Join(c.aliases, " "), c.nodeId, IdText(c.id)], " ")
  }

  /** The haystack starts with the name and holds every other part. */
  lemma HaystackHoldsParts(c: Card)
    ensures c.name <= Haystack(c)
    ensures Contains(Haystack(c), StripTags(RenderOrg(c.org))) && Contains(Haystack(c), c.abstractText)
    ensures Contains(Haystack(c), Join(c.aliases, " ")) && Contains(Haystack(c), c.nodeId)
    ensures Contains(Haystack(c), IdText(c.id))
  {
    var parts := [c.name, StripTags(RenderOrg(c.org)), c.abstractText, Join(c.aliases, " "), c.nodeId, IdText(c.id)];
    JoinHasParts(parts, " ");
    assert parts[1] == StripTags(RenderOrg(c.org)) && parts[2] == c.abstractText && parts[3] == Join(c.aliases, " ");
    assert parts[4] == c.nodeId && parts[5] == IdText(c.id);
  }

  /** `qn in norm(" ".join(hay_parts))`. */
  predicate Hit(c: Card, qn: string)
  {
    Contains(Norm(Haystack(c)), qn)
  }

  /** `base`: the cards of the wanted kind, in order. */
  function KindBase(items: seq<Card>, kindType: string): seq<Card>
  {
    Filter(items, c => KindOk(c, kindType))
  }

  /** What `search_items` returns: the cards of the wanted kind, in input
      order, whose haystack holds the normalised query when there is one. */
  function SearchResult(items: seq<Card>, q: string, kindType: string): (r: seq<Card>)
    ensures IsSubsequence(r, items)
    ensures forall c :: c in r <==> c in items && KindOk(c, kindType) && (Norm(q) == "" || Hit(c, Norm(q)))
  {
    var qn := Norm(q);
    FilterKeeps(items, c => KindOk(c, kindType));
    if qn == "" then KindBase(items, kindType)
    else
      FilterKeeps(KindBase(items, kindType), c => Hit(c, qn));
      FilterTwice(items, c => KindOk(c, kindType), c => Hit(c, qn));
      Filter(KindBase(items, kindType), c => Hit(c, qn))
  }

  /** `search_items(items, q, type_)`: the loop over `base` appending every
      card whose haystack holds the normalised query. */
  method SearchItems(items: seq<Card>, q: string, kindType: string) returns (res: seq<Card>)
    ensures res == SearchResult(items, q, kindType)
  {
    var base := KindBase(items, kindType);
    var qn := Norm(q);
    if qn == "" {
      return base;
    }
    res := [];
    var i := 0;
    while i < |base|
      invariant 0 <= i <= |base|
      invariant res == Filter(base[..i], c => Hit(c, qn))
    {
      var it := base[i];
      FilterStep(base, c => Hit(c, qn), i);
      if Hit(it, qn) {
        res := res + [it];
      }
      i := i + 1;
    }
    assert base[..|base|] == base;
  }

  /** A query of white space alone returns the whole kind-filtered list;
      any other query keeps only cards whose haystack holds it. */
  lemma SearchResultSpec(items: seq<Card>, q: string, kindType: string)
    ensures AllSpace(q) ==> SearchResult(items, q, kindType) == KindBase(items, kindType)
    ensures !AllSpace(q) ==> forall c :: c in SearchResult(items, q, kindType) ==> Hit(c, Norm(q))
  {
    NormBlank(q);
  }
}
