/** The term normalisation of services/intelligent_discovery.py: each
    extracted word is replaced by the best-scoring key word when that score
    reaches the threshold, the results are de-duplicated, and the key words
    found are picked out. The fuzzy scorer (`fuzz.partial_ratio`) is a
    parameter: nothing here depends on how it scores. */
module TermMatch {
  import opened Wrappers
  import opened Text
  import opened Seqs
  import opened JsonValue

  const Threshold: int := 70

  /** The running `best` key (None before any key beat the score) and
      `best_score`. */
  datatype Best = Best(key: Option<string>, score: int)

  /** The inner loop over the first `j` keys: a key replaces the best only
      when its score is strictly greater. */
  function BestPrefix(wl: string, keys: seq<string>, score: (string, string) -> int, j: nat): (b: Best)
    requires j <= |keys|
    ensures b.key.Some? ==> b.key.value in keys[..j]
  {
    if j == 0 then Best(None, 0)
    else
      var b := BestPrefix(wl, keys, score, j - 1);
      var s := score(wl, Lower(keys[j - 1]));
      if s > b.score then Best(Some(keys[j - 1]), s) else b
  }

  /** The best score is the largest score, or 0 when none is positive; the
      best key is the FIRST key reaching it, and there is none exactly
      when no key scores above 0. */
  lemma {:induction false} BestSpec(wl: string, keys: seq<string>, score: (string, string) -> int, j: nat)
    requires j <= |keys|
    ensures var b := BestPrefix(wl, keys, score, j);
            && b.score >= 0
            && (forall p :: 0 <= p < j ==> score(wl, Lower(keys[p])) <= b.score)
            && (b.key.None? <==> forall p :: 0 <= p < j ==> score(wl, Lower(keys[p])) <= 0)
            && (b.key.None? ==> b.score == 0)
            && (b.key.Some? ==>
                  exists p :: 0 <= p < j && keys[p] == b.key.value && score(wl, Lower(keys[p])) == b.score
                    && forall q :: 0 <= q < p ==> score(wl, Lower(keys[q])) < b.score)
  {
    if j > 0 {
      BestSpec(wl, keys, score, j - 1);
      var b := BestPrefix(wl, keys, score, j - 1);
      var s := score(wl, Lower(keys[j - 1]));
      if s > b.score {
        assert forall q :: 0 <= q < j - 1 ==> score(wl, Lower(keys[q])) < s;
      }
    }
  }

  /** What one extracted word becomes: the best key when it is non-empty
      and scores at least the threshold, the word itself otherwise. */
  function Pick(word: string, keys: seq<string>, score: (string, string) -> int): (r: string)
    ensures r == word || (r in keys && r != "")
  {
    var b := BestPrefix(Lower(word), keys, score, |keys|);
    if b.key.Some? && b.key.value != "" && b.score >= Threshold then b.key.value else word
  }

  /** A word is replaced only by a non-empty key that is the first to reach
      the largest score, with that score at least the threshold; and such a
      key always replaces it. */
  lemma PickSpec(word: string, keys: seq<string>, score: (string, string) -> int)
    ensures var p := Pick(word, keys, score);
            p == word || exists i :: 0 <= i < |keys| && FirstBest(word, keys, score, i) && keys[i] == p
    ensures forall i :: 0 <= i < |keys| && FirstBest(word, keys, score, i) ==> Pick(word, keys, score) == keys[i]
  {
    var wl := Lower(word);
    BestSpec(wl, keys, score, |keys|);
    var b := BestPrefix(wl, keys, score, |keys|);
    forall i | 0 <= i < |keys| && FirstBest(word, keys, score, i)
      ensures Pick(word, keys, score) == keys[i]
    {
      var p :| 0 <= p < |keys| && keys[p] == b.key.value && score(wl, Lower(keys[p])) == b.score
                 && forall q :: 0 <= q < p ==> score(wl, Lower(keys[q])) < b.score;
      assert p == i;
    }
  }

  /** Key `i` is non-empty, scores at least the threshold, no key scores
      more, and every earlier key scores less. */
  ghost predicate FirstBest(word: string, keys: seq<string>, score: (string, string) -> int, i: nat)
    requires i < |keys|
  {
    var wl := Lower(word);
    && keys[i] != ""
    && score(wl, Lower(keys[i])) >= Threshold
    && (forall q :: 0 <= q < |keys| ==> score(wl, Lower(keys[q])) <= score(wl, Lower(keys[i])))
    && (forall q :: 0 <= q < i ==> score(wl, Lower(keys[q])) < score(wl, Lower(keys[i])))
  }

  /** The `normalized` list for the first `i` words. */
  function Picks(words: seq<string>, keys: seq<string>, score: (string, string) -> int, i: nat): (r: seq<string>)
    requires i <= |words|
    ensures |r| == i
  {
    if i == 0 then [] else Picks(words, keys, score, i - 1) + [Pick(words[i - 1], keys, score)]
  }

  /** The inner loop of `normalize_terms` for one lower-cased word. */
  method BestKey(wl: string, keys: seq<string>, score: (string, string) -> int) returns (best: Option<string>, bestScore: int)
    ensures Best(best, bestScore) == BestPrefix(wl, keys, score, |keys|)
  {
    best := None;
    bestScore := 0;
    var j := 0;
    while j < |keys|
      invariant 0 <= j <= |keys|
      invariant Best(best, bestScore) == BestPrefix(wl, keys, score, j)
    {
      var s := score(wl, Lower(keys[j]));
      if s > bestScore {
        bestScore := s;
        best := Some(keys[j]);
      }
      j := j + 1;
    }
  }

  /** `normalize_terms(extracted_words, key_words)`. */
  method NormalizeTerms(words: seq<string>, keys: seq<string>, score: (string, string) -> int) returns (r: seq<string>)
    ensures r == Dedup(Picks(words, keys, score, |words|))
  {
    var normalized: seq<string> := [];
    var i := 0;
    while i < |words|
      invariant 0 <= i <= |words|
      invariant normalized == Picks(words, keys, score, i)
    {
      var word := words[i];
      var best, bestScore := BestKey(Lower(word), keys, score);
      if best.Some? && best.value != "" && bestScore >= Threshold {
        normalized := normalized + [best.value];
      } else {
        normalized := normalized + [word];
      }
      i := i + 1;
    }
    r := Dedup(normalized);
  }

  /** Every picked term is a key or the word it stands for. */
  lemma {:induction false} PicksFrom(words: seq<string>, keys: seq<string>, score: (string, string) -> int, i: nat)
    requires i <= |words|
    ensures forall j :: 0 <= j < i ==>
              Picks(words, keys, score, i)[j] == words[j] || Picks(words, keys, score, i)[j] in keys
  {
    if i > 0 {
      PicksFrom(words, keys, score, i - 1);
      PickSpec(words[i - 1], keys, score);
    }
  }

  /** With no key words every word stays as it is. */
  lemma {:induction false} PicksNoKeys(words: seq<string>, score: (string, string) -> int, i: nat)
    requires i <= |words|
    ensures Picks(words, [], score, i) == words[..i]
  {
    if i > 0 {
      PicksNoKeys(words, score, i - 1);
      assert words[..i] == words[..i - 1] + [words[i - 1]];
    }
  }

  /** The result has no duplicates, keeps the order of first occurrences,
      is no longer than the input, and holds only key words and extracted
      words; with no key words it is the de-duplicated input. */
  lemma NormalizeSpec(words: seq<string>, keys: seq<string>, score: (string, string) -> int)
    ensures var picks := Picks(words, keys, score, |words|);
            var r := Dedup(picks);
            && Distinct(r)
            && IsSubsequence(r, picks)
            && (forall i, j :: 0 <= i < j < |r| ==> FirstIndex(picks, r[i]) < FirstIndex(picks, r[j]))
            && |r| <= |words|
            && (forall x :: x in r ==> x in keys || x in words)
    ensures keys == [] ==> Dedup(Picks(words, keys, score, |words|)) == Dedup(words)
  {
    var picks := Picks(words, keys, score, |words|);
    DedupDistinct(picks);
    DedupSubsequence(picks);
    DedupFirstOccurrence(picks);
    PicksFrom(words, keys, score, |words|);
    if keys == [] {
      PicksNoKeys(words, score, |words|);
      assert words[..|words|] == words;
    }
  }

  // --------------------------------------------------- key words found

  /** `[item['name'] for item in rank_entries if item.get("type") == typ]`:
      `.get` raises on an entry that is not a dict, and `['name']` on a
      matching entry without a name. The names are kept as they are: one
      that is not text only fails once `normalize_terms` lower-cases it. */
  function KeyWords(entries: seq<Json>, typ: string): (r: Result<seq<Json>, string>)
    ensures r.Ok? ==> |r.value| <= |entries| && forall i :: 0 <= i < |entries| ==> entries[i].JObj?
    ensures (exists i :: 0 <= i < |entries| && !entries[i].JObj?) ==> r.Err?
    ensures r.Ok? <==> forall i :: 0 <= i < |entries| ==>
                         entries[i].JObj? && (Get(entries[i], "type") == JStr(typ) ==> "name" in entries[i].fields)
  {
    if entries == [] then Ok([])
    else
      assert forall i :: 0 <= i < |entries| - 1 ==> entries[..|entries| - 1][i] == entries[i];
      match KeyWords(entries[..|entries| - 1], typ)
      case Err(e) => Err(e)
      case Ok(pre) =>
        var item := entries[|entries| - 1];
        if !item.JObj? then Err("AttributeError")
        else if Get(item, "type") != JStr(typ) then Ok(pre)
        else if "name" !in item.fields then Err("KeyError")
        else Ok(pre + [item.fields["name"]])
  }

  /** The key words are the names of the entries of the wanted type, in
      entry order. */
  lemma {:induction false} KeyWordsSpec(entries: seq<Json>, typ: string)
    ensures KeyWords(entries, typ).Ok? ==>
              forall n :: n in KeyWords(entries, typ).value <==>
                exists i :: 0 <= i < |entries| && Get(entries[i], "type") == JStr(typ)
                  && "name" in entries[i].fields && entries[i].fields["name"] == n
    ensures KeyWords(entries, typ).Ok? ==>
              forall k :: 0 <= k <= |entries| ==>
                && KeyWords(entries[..k], typ).Ok? && KeyWords(entries[k..], typ).Ok?
                && KeyWords(entries, typ).value == KeyWords(entries[..k], typ).value + KeyWords(entries[k..], typ).value
  {
    forall k | 0 <= k <= |entries|
      ensures KeyWords(entries, typ).Ok? ==>
                && KeyWords(entries[..k], typ).Ok? && KeyWords(entries[k..], typ).Ok?
                && KeyWords(entries, typ).value == KeyWords(entries[..k], typ).value + KeyWords(entries[k..], typ).value
    {
      assert entries[..k] + entries[k..] == entries;
      KeyWordsInOrder(entries[..k], entries[k..], JNull, typ);
    }
    if entries != [] {
      var pre := entries[..|entries| - 1];
      KeyWordsSpec(pre, typ);
      if KeyWords(entries, typ).Ok? {
        forall n
          ensures n in KeyWords(entries, typ).value <==>
                    exists i :: 0 <= i < |entries| && Get(entries[i], "type") == JStr(typ)
                      && "name" in entries[i].fields && entries[i].fields["name"] == n
        {
          if exists i :: 0 <= i < |pre| && Get(pre[i], "type") == JStr(typ)
                         && "name" in pre[i].fields && pre[i].fields["name"] == n {
            var i :| 0 <= i < |pre| && Get(pre[i], "type") == JStr(typ)
                     && "name" in pre[i].fields && pre[i].fields["name"] == n;
            assert entries[i] == pre[i];
          }
          if exists i :: 0 <= i < |entries| && Get(entries[i], "type") == JStr(typ)
                         && "name" in entries[i].fields && entries[i].fields["name"] == n {
            var i :| 0 <= i < |entries| && Get(entries[i], "type") == JStr(typ)
                     && "name" in entries[i].fields && entries[i].fields["name"] == n;
            if i < |pre| {
              assert pre[i] == entries[i];
            }
          }
        }
      }
    }
  }

  /** The key words keep the entry order: one entry gives its name when it
      has the wanted type, and the key words of two runs of entries are
      those of the first followed by those of the second. */
  lemma {:induction false} KeyWordsInOrder(a: seq<Json>, b: seq<Json>, e: Json, typ: string)
    ensures KeyWords([e], typ) ==
              if !e.JObj? then Err("AttributeError")
              else if Get(e, "type") != JStr(typ) then Ok([])
              else if "name" !in e.fields then Err("KeyError")
              else Ok([e.fields["name"]])
    ensures KeyWords(a + b, typ).Ok? <==> KeyWords(a, typ).Ok? && KeyWords(b, typ).Ok?
    ensures KeyWords(a + b, typ).Ok? ==> KeyWords(a + b, typ).value == KeyWords(a, typ).value + KeyWords(b, typ).value
    decreases |b|
  {
    assert [e][..0] == [];
    assert KeyWords([e][..0], typ) == Ok([]);
    if e.JObj? && Get(e, "type") == JStr(typ) && "name" in e.fields {
      assert [] + [e.fields["name"]] == [e.fields["name"]];
    }
    if b == [] {
      assert a + b == a;
    } else {
      var pre := b[..|b| - 1];
      KeyWordsInOrder(a, pre, e, typ);
      assert (a + b)[..|a + b| - 1] == a + pre;
      assert (a + b)[|a + b| - 1] == b[|b| - 1];
    }
  }

  /** Strings as JSON text values. */
  function AsJson(ws: seq<string>): (r: seq<Json>)
    ensures |r| == |ws| && forall i :: 0 <= i < |ws| ==> r[i] == JStr(ws[i])
  {
    seq(|ws|, i requires 0 <= i < |ws| => JStr(ws[i]))
  }

  /** The names that are text, as strings, in order. */
  function Texts(names: seq<Json>): (r: seq<string>)
    ensures |r| <= |names|
    ensures forall w :: w in r <==> JStr(w) in names
    ensures IsSubsequence(AsJson(r), names)
  {
    if names == [] then []
    else
      var front := names[..|names| - 1];
      var pre := Texts(front);
      assert names == front + [names[|names| - 1]];
      match names[|names| - 1]
      case JStr(s) =>
        assert AsJson(pre + [s]) == AsJson(pre) + [JStr(s)];
        SubsequenceExtendBoth(AsJson(pre), front, JStr(s));
        pre + [s]
      case _ =>
        SubsequenceExtendRight(AsJson(pre), front, names[|names| - 1]);
        pre
  }

  /** The text names keep their order: one name gives its text when it is
      text, and the text names of two runs are those of the first followed
      by those of the second. */
  lemma {:induction false} TextsInOrder(a: seq<Json>, b: seq<Json>, n: Json)
    ensures Texts([n]) == if n.JStr? then [n.s] else []
    ensures Texts(a + b) == Texts(a) + Texts(b)
    decreases |b|
  {
    assert [n][..0] == [];
    if b == [] {
      assert a + b == a;
    } else {
      var pre := b[..|b| - 1];
      TextsInOrder(a, pre, n);
      assert (a + b)[..|a + b| - 1] == a + pre;
      assert (a + b)[|a + b| - 1] == b[|b| - 1];
    }
  }

  /** `normalize_terms(words, names)` where a name may be any JSON value:
      the first word compares itself with every name, and `key.lower()`
      raises on a name that is not text. With no words no name is read. */
  function Normalized(words: seq<string>, names: seq<Json>, score: (string, string) -> int): (r: Result<seq<string>, string>)
    ensures r.Err? <==> words != [] && exists i :: 0 <= i < |names| && !names[i].JStr?
    ensures r.Ok? ==> |r.value| <= |words| && forall w :: w in r.value ==> w in words || JStr(w) in names
  {
    if words != [] && exists i :: 0 <= i < |names| && !names[i].JStr? then Err("AttributeError")
    else
      NormalizeSpec(words, Texts(names), score);
      Ok(Dedup(Picks(words, Texts(names), score, |words|)))
  }

  /** `[w for w in normalized if w in key_words]`: the found key words keep
      the order of the normalised list and are exactly its words that are
      key words. */
  function KeyFound(normalized: seq<string>, names: seq<Json>): (r: seq<string>)
    ensures IsSubsequence(r, normalized)
    ensures forall w :: w in r <==> w in normalized && JStr(w) in names
  {
    FilterKeeps(normalized, w => JStr(w) in names);
    Filter(normalized, w => JStr(w) in names)
  }

  /** The four lists lines 153-161 produce from the extracted words and the
      rank entries: normalised technologies and products, and the key words
      found among each. */
  datatype Found = Found(tech: seq<string>, product: seq<string>, keyTech: seq<string>, keyProduct: seq<string>)

  function DiscoverFound(techWords: seq<string>, productWords: seq<string>, entries: seq<Json>,
                         score: (string, string) -> int): (r: Result<Found, string>)
    ensures r.Ok? <==>
              && KeyWords(entries, "技术").Ok? && KeyWords(entries, "产品").Ok?
              && Normalized(techWords, KeyWords(entries, "技术").value, score).Ok?
              && Normalized(productWords, KeyWords(entries, "产品").value, score).Ok?
    ensures r.Ok? ==> |r.value.tech| <= |techWords| && |r.value.product| <= |productWords|
  {
    match KeyWords(entries, "技术")
    case Err(e) => Err(e)
    case Ok(kt) =>
      match KeyWords(entries, "产品")
      case Err(e) => Err(e)
      case Ok(kp) =>
        match Normalized(techWords, kt, score)
        case Err(e) => Err(e)
        case Ok(nt) =>
          match Normalized(productWords, kp, score)
          case Err(e) => Err(e)
          case Ok(np) => Ok(Found(nt, np, KeyFound(nt, kt), KeyFound(np, kp)))
  }

  /** The key technologies found are technology names of the rank entries,
      in the order of the normalised technologies, and likewise for
      products. */
  lemma DiscoverFoundSpec(techWords: seq<string>, productWords: seq<string>, entries: seq<Json>,
                          score: (string, string) -> int)
    ensures var r := DiscoverFound(techWords, productWords, entries, score);
            r.Ok? ==>
              && IsSubsequence(r.value.keyTech, r.value.tech)
              && IsSubsequence(r.value.keyProduct, r.value.product)
              && (forall w :: w in r.value.keyTech ==>
                    (exists i :: 0 <= i < |entries| && Get(entries[i], "type") == JStr("技术")
                       && Get(entries[i], "name") == JStr(w)))
              && (forall w :: w in r.value.keyProduct ==>
                    (exists i :: 0 <= i < |entries| && Get(entries[i], "type") == JStr("产品")
                       && Get(entries[i], "name") == JStr(w)))
  {
    var r := DiscoverFound(techWords, productWords, entries, score);
    if r.Ok? {
      KeyWordsSpec(entries, "技术");
      KeyWordsSpec(entries, "产品");
    }
  }

  /** With no extracted words of a kind, a rank name of that kind that is
      not text does no harm: only the other kind can make the result fail. */
  lemma DiscoverFoundNoWords(productWords: seq<string>, entries: seq<Json>, score: (string, string) -> int)
    requires KeyWords(entries, "技术").Ok?
    ensures var r := DiscoverFound([], productWords, entries, score);
            r.Ok? <==> KeyWords(entries, "产品").Ok? && Normalized(productWords, KeyWords(entries, "产品").value, score).Ok?
    ensures DiscoverFound([], productWords, entries, score).Ok? ==>
              DiscoverFound([], productWords, entries, score).value.tech == []
  {
  }
}
