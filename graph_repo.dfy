/** `build_items_from_graphs` and `get_detail` of services/graph_repo.py:
    the cards of every relation file, then one card per rank id no relation
    node carries, numbered from 1000 in emission order and finally sorted
    stably by (kind, normalised name). */
module GraphRepo {
  import opened Wrappers
  import opened JsonValue
  import opened Text
  import opened Order
  import opened Seqs
  import opened GraphSources
  import opened GraphCards

  /** The first value of the `auto_inc` counter. */
  const FirstId: int := 1000

  // ------------------------------------------------- relation-file cards

  /** The stripped `type` of every node, as each card loop computes it. */
  function NodeTypes(nodes: seq<Json>): (r: seq<string>)
    ensures |r| == |nodes|
  {
    seq(|nodes|, j requires 0 <= j < |nodes| => NodeType(nodes[j]))
  }

  /** The cards the loop for kind `k` emits for the first `i` nodes,
      numbered from `base`. */
  function KindCards(k: Kind, nodes: seq<Json>, types: seq<string>, ctx: Ctx, base: int, i: nat): (r: seq<Card>)
    requires |types| == |nodes| && i <= |nodes|
  {
    if i == 0 then []
    else
      var pre := KindCards(k, nodes, types, ctx, base, i - 1);
      if types[i - 1] in TypesOf(k) then pre + [NodeCard(k, nodes[i - 1], ctx, base + |pre|)] else pre
  }

  lemma KindCardsStep(k: Kind, nodes: seq<Json>, types: seq<string>, ctx: Ctx, base: int, i: nat)
    requires |types| == |nodes| && i < |nodes|
    ensures var pre := KindCards(k, nodes, types, ctx, base, i);
            KindCards(k, nodes, types, ctx, base, i + 1) ==
              if types[i] in TypesOf(k) then pre + [NodeCard(k, nodes[i], ctx, base + |pre|)] else pre
  {
  }

  function FileCtx(f: (string, Packet), ix: RankIndex): Ctx
  {
    Ctx(f.0, ix, NodeIndex(Elems(f.1.nodes)), EdgeIndexOf(Elems(f.1.edges)))
  }

  /** The four node loops over one file: its tech cards, then its product,
      company and country cards, numbered from `base`. */
  function LoopCards(nodes: seq<Json>, types: seq<string>, ctx: Ctx, base: int): seq<Card>
    requires |types| == |nodes|
  {
    var t := KindCards(Tech, nodes, types, ctx, base, |nodes|);
    var p := KindCards(Product, nodes, types, ctx, base + |t|, |nodes|);
    var c := KindCards(Company, nodes, types, ctx, base + |t| + |p|, |nodes|);
    var y := KindCards(Country, nodes, types, ctx, base + |t| + |p| + |c|, |nodes|);
    t + p + c + y
  }

  /** The cards of one relation file, numbered from `base`. */
  function FileCards(f: (string, Packet), ix: RankIndex, base: int): seq<Card>
  {
    LoopCards(Elems(f.1.nodes), NodeTypes(Elems(f.1.nodes)), FileCtx(f, ix), base)
  }

  /** The pieces `g(fs[0], ..)`, `g(fs[1], ..)`, ... of the first `i`
      elements laid end to end, each numbered on from the cards before it,
      starting at 1000. */
  function Chain<F>(fs: seq<F>, g: (F, int) -> seq<Card>, i: nat): seq<Card>
    requires i <= |fs|
  {
    if i == 0 then []
    else
      var pre := Chain(fs, g, i - 1);
      pre + g(fs[i - 1], FirstId + |pre|)
  }

  /** The cards of the first `i` relation files, numbered from 1000. */
  function RelationCards(relations: seq<(string, Packet)>, ix: RankIndex, i: nat): seq<Card>
    requires i <= |relations|
  {
    Chain(relations, (f, base) => FileCards(f, ix, base), i)
  }

  lemma RelationCardsStep(relations: seq<(string, Packet)>, ix: RankIndex, i: nat)
    requires i < |relations|
    ensures RelationCards(relations, ix, i + 1)
            == RelationCards(relations, ix, i) + FileCards(relations[i], ix, FirstId + |RelationCards(relations, ix, i)|)
  {
  }

  // ------------------------------------------------------- rank pass

  /** `existing_ids` */
  function Existing(cs: seq<Card>): (r: set<string>)
    ensures forall id :: id in r <==> id != "" && exists i :: 0 <= i < |cs| && cs[i].nodeId == id
  {
    set i | 0 <= i < |cs| && cs[i].nodeId != "" :: cs[i].nodeId
  }

  /** The position of the first card carrying node id `rid`, or -1. */
  function FindNode(cs: seq<Card>, rid: string): (i: int)
    ensures -1 <= i < |cs|
    ensures i >= 0 ==> cs[i].nodeId == rid && forall q :: 0 <= q < i ==> cs[q].nodeId != rid
    ensures i < 0 ==> forall q :: 0 <= q < |cs| ==> cs[q].nodeId != rid
  {
    if cs == [] then -1
    else if cs[0].nodeId == rid then 0
    else
      var j := FindNode(cs[1..], rid);
      assert forall q :: 1 <= q < |cs| ==> cs[q] == cs[1..][q - 1];
      if j < 0 then -1 else j + 1
  }

  /** The merge branch of the rank pass: only the first card with the
      rank id is changed. */
  function MergeFirst(cs: seq<Card>, rid: string, rk: Json): seq<Card>
  {
    var i := FindNode(cs, rid);
    if i < 0 then cs else cs[i := Merge(cs[i], rk)]
  }

  /** The merge changes no card but the first with the rank id, and keeps
      every card's number and node id. */
  lemma MergeFirstKeeps(cs: seq<Card>, rid: string, rk: Json)
    ensures |MergeFirst(cs, rid, rk)| == |cs|
    ensures forall i :: 0 <= i < |cs| && i != FindNode(cs, rid) ==> MergeFirst(cs, rid, rk)[i] == cs[i]
    ensures forall i :: 0 <= i < |cs| ==>
              MergeFirst(cs, rid, rk)[i].id == cs[i].id && MergeFirst(cs, rid, rk)[i].nodeId == cs[i].nodeId
  {
  }

  /** Every id of `ord` has a rank row. */
  ghost predicate Indexed(ord: seq<string>, ix: RankIndex)
  {
    forall j :: 0 <= j < |ord| ==> ord[j] in ix.byId
  }

  /** The rank pass over the first `i` ids of `ord` (the key order of
      `rank_by_id`): an id some card already carries is merged into it,
      any other gets a rank-only card with the next number. The key order
      of an index holds only ids with a row (`ValidIndex`); an id without
      one is passed over. */
  function RankPassOf(cs: seq<Card>, ix: RankIndex, ord: seq<string>, existing: set<string>, i: nat): (r: seq<Card>)
    requires i <= |ord|
  {
    if i == 0 then cs
    else
      var pre := RankPassOf(cs, ix, ord, existing, i - 1);
      var rid := ord[i - 1];
      if rid !in ix.byId then pre
      else if rid in existing then MergeFirst(pre, rid, ix.byId[rid])
      else pre + [RankOnlyCard(ix, rid, FirstId + |pre|)]
  }

  lemma RankPassStep(cs: seq<Card>, ix: RankIndex, ord: seq<string>, existing: set<string>, i: nat)
    requires i < |ord| && ord[i] in ix.byId
    ensures var pre := RankPassOf(cs, ix, ord, existing, i);
            RankPassOf(cs, ix, ord, existing, i + 1) ==
              if ord[i] in existing then MergeFirst(pre, ord[i], ix.byId[ord[i]])
              else pre + [RankOnlyCard(ix, ord[i], FirstId + |pre|)]
  {
  }

  /** The rank pass only appends: the cards it starts from keep their
      places, numbers and node ids, and at most one card is added per id. */
  lemma {:induction false} RankPassKeeps(cs: seq<Card>, ix: RankIndex, ord: seq<string>, existing: set<string>, i: nat)
    requires i <= |ord|
    ensures |cs| <= |RankPassOf(cs, ix, ord, existing, i)| <= |cs| + i
    ensures forall q :: 0 <= q < |cs| ==>
              RankPassOf(cs, ix, ord, existing, i)[q].id == cs[q].id
              && RankPassOf(cs, ix, ord, existing, i)[q].nodeId == cs[q].nodeId
  {
    if i > 0 {
      RankPassKeeps(cs, ix, ord, existing, i - 1);
      var pre := RankPassOf(cs, ix, ord, existing, i - 1);
      var rid := ord[i - 1];
      if rid in ix.byId && rid in existing {
        MergeFirstKeeps(pre, rid, ix.byId[rid]);
      }
    }
  }

  /** Every card before sorting, in emission order: the relation cards
      first, in place and with their numbers and node ids, then at most one
      rank-only card per rank id. */
  function Emitted(relations: seq<(string, Packet)>, ranks: seq<(string, Packet)>): (r: seq<Card>)
    ensures var ix := RankIndexOf(RankRows(ranks));
            var cards := RelationCards(relations, ix, |relations|);
            && |cards| <= |r| <= |cards| + |ix.order|
            && forall q :: 0 <= q < |cards| ==> r[q].id == cards[q].id && r[q].nodeId == cards[q].nodeId
  {
    var rows := RankRows(ranks);
    RankIndexValid(rows);
    var ix := RankIndexOf(rows);
    var cards := RelationCards(relations, ix, |relations|);
    RankPassKeeps(cards, ix, ix.order, Existing(cards), |ix.order|);
    RankPassOf(cards, ix, ix.order, Existing(cards), |ix.order|)
  }

  /** The sort key `(kind, _norm(name))`. */
  function CardKey(c: Card): seq<string>
  {
    [Label(c.kind), Norm(c.name)]
  }

  function CardId(c: Card): int
  {
    c.id
  }

  /** The result of `build_items_from_graphs`: the emitted cards,
      reordered by (kind, normalised name). */
  function Items(relations: seq<(string, Packet)>, ranks: seq<(string, Packet)>): (r: seq<Card>)
    ensures multiset(r) == multiset(Emitted(relations, ranks))
    ensures SortedBy(r, CardKey)
  {
    SortBySorted(Emitted(relations, ranks), CardKey);
    SortBy(Emitted(relations, ranks), CardKey)
  }
}
