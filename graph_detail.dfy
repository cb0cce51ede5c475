/** `get_detail` (services/graph_repo.py): the detail record of one item,
    looked up by number among the built items. */
module GraphDetail {
  import opened Wrappers
  import opened JsonValue
  import opened GraphSources
  import opened GraphCards
  import opened GraphRepo
  import opened GraphItems
  import opened Seqs

  const SourceFileLabel: string := "来源文件"
  const RankSourceLabel: string := "rank 来源"

  /** One entry of `sources`. */
  datatype SourceLink = SourceLink(name: string, url: Json)

  /** The detail record. `type` and `kind` both carry the kind label, and
      `relatedProduct` and `images` are always empty, so they are not
      stored; `metrics` are the four score slots. */
  datatype Detail = Detail(
    id: int,
    name: string,
    kind: Kind,
    field: Json,
    country: Json,
    enterprise: Json,
    year: Json,
    abstractText: string,
    relatedTech: seq<string>,
    metrics: Scores,
    sources: seq<SourceLink>)

  /** The last item with number `id`, as a dict built from the items keeps
      it, or None. */
  function FindById(items: seq<Card>, id: int): (r: Option<Card>)
    ensures r.None? <==> forall j :: 0 <= j < |items| ==> items[j].id != id
    ensures r.Some? ==> r.value.id == id && r.value in items
    // the item found is the last one with that number
    ensures r.Some? ==> exists j :: 0 <= j < |items| && items[j] == r.value
                                    && forall k :: j < k < |items| ==> items[k].id != id
  {
    if items == [] then None
    else if items[|items| - 1].id == id then Some(items[|items| - 1])
    else FindById(items[..|items| - 1], id)
  }

  /** The truthy elements of a list, in order. */
  function TruthyOnly(a: seq<Json>): (r: seq<Json>)
    ensures |r| <= |a|
    ensures forall u :: u in r <==> u in a && Truthy(u)
    ensures IsSubsequence(r, a)
  {
    FilterKeeps(a, Truthy);
    FilterLength(a, Truthy);
    Filter(a, Truthy)
  }

  /** The filter keeps the order of the list: one url is kept exactly when
      it is truthy, and filtering two runs of urls filters each in turn. */
  lemma TruthyOnlyInOrder(a: seq<Json>, b: seq<Json>, u: Json)
    ensures TruthyOnly([u]) == if Truthy(u) then [u] else []
    ensures TruthyOnly(a + b) == TruthyOnly(a) + TruthyOnly(b)
  {
    assert [u][..0] == [] && [u][0] == u;
    assert Filter([u], Truthy) == Filter([], Truthy) + (if Truthy(u) then [u] else []);
    FilterAppend(a, b, Truthy);
  }

  /** The rank source urls of `_meta.source`: a string stands for a list of
      itself, a list keeps its truthy elements, and a missing or falsy
      value gives none. Iterating a true boolean or a non-zero number
      raises `TypeError`. The urls are all truthy. */
  function RankUrls(v: Json): (r: Result<seq<Json>, string>)
    ensures r.Err? <==> (v.JBool? || v.JNum?) && Truthy(v)
    ensures r.Ok? ==> forall u :: u in r.value ==> Truthy(u)
    ensures !Truthy(v) ==> r == Ok([])
    ensures v.JStr? && v.s != "" ==> r == Ok([v])
    ensures v.JArr? ==> r.Ok? && forall u :: u in r.value <==> u in v.items && Truthy(u)
    ensures v.JArr? ==> r.Ok? && IsSubsequence(r.value, v.items)
  {
    match Or(v, EmptyList)
    case JStr(s) => Ok([JStr(s)])
    case JArr(a) => Ok(TruthyOnly(a))
    case JObj(_) => Ok([])
    case _ => Err("TypeError")
  }

  function RankLinks(urls: seq<Json>): (r: seq<SourceLink>)
    ensures |r| == |urls|
    ensures forall k :: 0 <= k < |r| ==> r[k] == SourceLink(RankSourceLabel, urls[k])
  {
    if urls == [] then [] else [SourceLink(RankSourceLabel, urls[0])] + RankLinks(urls[1..])
  }

  /** The record for card `c` with rank urls `urls`: `field`, `country`
      and `year` fall back to the dash when falsy, and the links are the
      card's source file followed by one link per url, in order. */
  function DetailOf(c: Card, urls: seq<Json>): (d: Detail)
    ensures Truthy(d.field) && Truthy(d.country) && Truthy(d.year)
    ensures Truthy(c.meta.field) ==> d.field == c.meta.field
    ensures !Truthy(c.meta.field) ==> d.field == JStr(NoDate)
    ensures Truthy(c.meta.country) ==> d.country == c.meta.country
    ensures !Truthy(c.meta.country) ==> d.country == JStr(NoDate)
    ensures Truthy(c.meta.year) ==> d.year == c.meta.year
    ensures !Truthy(c.meta.year) ==> d.year == JStr(NoDate)
    ensures |d.sources| == |urls| + 1 && d.sources[0] == SourceLink(SourceFileLabel, JStr(c.source))
    ensures forall k :: 1 <= k < |d.sources| ==> d.sources[k] == SourceLink(RankSourceLabel, urls[k - 1])
  {
    Detail(c.id, c.name, c.kind,
           Or(c.meta.field, JStr(NoDate)), Or(c.meta.country, JStr(NoDate)), c.meta.enterprise,
           Or(c.meta.year, JStr(NoDate)), c.abstractText, c.techs, c.scores,
           [SourceLink(SourceFileLabel, JStr(c.source))] + RankLinks(urls))
  }

  /** `get_detail(item_id)` over the built items: None when no item has the
      number, otherwise the record of that item. */
  function GetDetail(items: seq<Card>, id: int): (r: Result<Option<Detail>, string>)
    ensures r == Ok(None) <==> forall j :: 0 <= j < |items| ==> items[j].id != id
    ensures r.Err? ==> FindById(items, id).Some? && RankUrls(FindById(items, id).value.meta.source).Err?
    ensures r.Ok? && r.value.Some? ==>
              FindById(items, id).Some? && RankUrls(FindById(items, id).value.meta.source).Ok?
              && r.value.value == DetailOf(FindById(items, id).value, RankUrls(FindById(items, id).value.meta.source).value)
  {
    match FindById(items, id)
    case None => Ok(None)
    case Some(c) =>
      match RankUrls(c.meta.source)
      case Err(e) => Err(e)
      case Ok(urls) => Ok(Some(DetailOf(c, urls)))
  }

  /** What a found record holds: the item's own number, name, kind,
      abstract, technologies and scores; `field`, `country` and `year`
      never falsy (the dash stands in); the item's source file first, then
      one truthy rank url per link. An unknown number gives None, and the
      lookup fails only on a source value that cannot be iterated. */
  lemma GetDetailShape(items: seq<Card>, id: int)
    ensures (forall j :: 0 <= j < |items| ==> items[j].id != id) <==> GetDetail(items, id) == Ok(None)
    ensures GetDetail(items, id).Err? ==>
              exists c :: c in items && c.id == id && RankUrls(c.meta.source).Err?
    ensures GetDetail(items, id).Ok? && GetDetail(items, id).value.Some? ==>
              var d := GetDetail(items, id).value.value;
              exists c :: c in items && c.id == id
                && d.id == id && d.name == c.name && d.kind == c.kind
                && d.abstractText == c.abstractText && d.relatedTech == c.techs && d.metrics == c.scores
                && d.enterprise == c.meta.enterprise
                && d.field == Or(c.meta.field, JStr(NoDate))
                && d.country == Or(c.meta.country, JStr(NoDate))
                && d.year == Or(c.meta.year, JStr(NoDate))
                && RankUrls(c.meta.source).Ok?
                && d.sources == [SourceLink(SourceFileLabel, JStr(c.source))] + RankLinks(RankUrls(c.meta.source).value)
    ensures GetDetail(items, id).Ok? && GetDetail(items, id).value.Some? ==>
              var d := GetDetail(items, id).value.value;
              && Truthy(d.field) && Truthy(d.country) && Truthy(d.year)
              && forall k :: 1 <= k < |d.sources| ==> d.sources[k].name == RankSourceLabel && Truthy(d.sources[k].url)
  {
    var r := FindById(items, id);
    if r.Some? {
      var c := r.value;
      var u := RankUrls(c.meta.source);
      if u.Ok? {
        var d := DetailOf(c, u.value);
        forall k | 1 <= k < |d.sources|
          ensures d.sources[k].name == RankSourceLabel && Truthy(d.sources[k].url)
        {
          assert d.sources[k] == RankLinks(u.value)[k - 1];
          assert u.value[k - 1] in u.value;
        }
      }
    }
  }

  /** Over the built items, a number has a record exactly when it is one of
      1000 .. 1000 + |items| - 1, and the record is that of the one item
      with that number. */
  lemma GetDetailOfItems(relations: seq<(string, Packet)>, ranks: seq<(string, Packet)>, id: int)
    ensures var items := Items(relations, ranks);
            GetDetail(items, id) == Ok(None) <==> !(FirstId <= id < FirstId + |items|)
    ensures var items := Items(relations, ranks);
            forall j :: 0 <= j < |items| && items[j].id == id ==> FindById(items, id) == Some(items[j])
  {
    var items := Items(relations, ranks);
    ItemIdsRange(relations, ranks, id);
    ItemIdsDistinct(relations, ranks);
    forall j | 0 <= j < |items| && items[j].id == id
      ensures FindById(items, id) == Some(items[j])
    {
      var c := FindById(items, id).value;
      var p :| 0 <= p < |items| && items[p] == c;
      assert p == j;
    }
  }
}
