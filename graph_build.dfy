/** The loops of `build_items_from_graphs` in services/graph_repo.py,
    each proved to compute the card sequence `GraphRepo` defines. */
module GraphBuild {
  import opened JsonValue
  import opened Order
  import opened Seqs
  import opened GraphSources
  import opened GraphCards
  import opened GraphRepo

  /** One of the four node loops. */
  method EmitCards(k: Kind, nodes: seq<Json>, types: seq<string>, ctx: Ctx, items: seq<Card>, autoInc: int)
    returns (out: seq<Card>, next: int)
    requires |types| == |nodes|
    ensures out == items + KindCards(k, nodes, types, ctx, autoInc, |nodes|)
    ensures next == autoInc + |KindCards(k, nodes, types, ctx, autoInc, |nodes|)|
  {
    out, next := items, autoInc;
    for i := 0 to |nodes|
      invariant out == items + KindCards(k, nodes, types, ctx, autoInc, i) && next == autoInc + |out| - |items|
    {
      KindCardsStep(k, nodes, types, ctx, autoInc, i);
      if types[i] in TypesOf(k) {
        var c := NodeCard(k, nodes[i], ctx, next);
        SnocAssoc(items, KindCards(k, nodes, types, ctx, autoInc, i), c);
        out := out + [c];
        next := next + 1;
      }
    }
  }

  /** The relation-file part of `build_items_from_graphs` for one file. */
  method EmitFile(f: (string, Packet), ix: RankIndex, items: seq<Card>, autoInc: int)
    returns (out: seq<Card>, next: int)
    ensures out == items + FileCards(f, ix, autoInc)
    ensures next == autoInc + |FileCards(f, ix, autoInc)|
  {
    var nodes, edges := Elems(f.1.nodes), Elems(f.1.edges);
    var id2node := NodeIndex(nodes);
    var ex := IndexEdges(edges);
    var ctx := Ctx(f.0, ix, id2node, ex);
    assert ctx == FileCtx(f, ix);
    out, next := EmitLoops(nodes, NodeTypes(nodes), ctx, items, autoInc);
  }

  /** The four node loops of one file, one after the other. */
  method EmitLoops(nodes: seq<Json>, types: seq<string>, ctx: Ctx, items: seq<Card>, autoInc: int)
    returns (out: seq<Card>, next: int)
    requires |types| == |nodes|
    ensures out == items + LoopCards(nodes, types, ctx, autoInc)
    ensures next == autoInc + |LoopCards(nodes, types, ctx, autoInc)|
  {
    ghost var t := KindCards(Tech, nodes, types, ctx, autoInc, |nodes|);
    ghost var p := KindCards(Product, nodes, types, ctx, autoInc + |t|, |nodes|);
    ghost var c := KindCards(Company, nodes, types, ctx, autoInc + |t| + |p|, |nodes|);
    ghost var y := KindCards(Country, nodes, types, ctx, autoInc + |t| + |p| + |c|, |nodes|);
    AppendFour(items, t, p, c, y);
    out, next := EmitCards(Tech, nodes, types, ctx, items, autoInc);
    out, next := EmitCards(Product, nodes, types, ctx, out, next);
    out, next := EmitCards(Company, nodes, types, ctx, out, next);
    out, next := EmitCards(Country, nodes, types, ctx, out, next);
  }

  /** The merge branch: find the first card with the rank id, merge the
      rank row into it and stop. */
  method MergeRankRow(items: seq<Card>, rid: string, rk: Json) returns (out: seq<Card>)
    ensures out == MergeFirst(items, rid, rk)
  {
    var p := 0;
    while p < |items|
      invariant 0 <= p <= |items|
      invariant forall q :: 0 <= q < p ==> items[q].nodeId != rid
    {
      if items[p].nodeId == rid {
        assert FindNode(items, rid) == p;
        out := items[p := Merge(items[p], rk)];
        return;
      }
      p := p + 1;
    }
    out := items;
  }

  /** The loop over the relation files. */
  method EmitRelations(relations: seq<(string, Packet)>, ix: RankIndex) returns (items: seq<Card>)
    ensures items == RelationCards(relations, ix, |relations|)
  {
    items := [];
    var autoInc := FirstId;
    for i := 0 to |relations|
      invariant items == RelationCards(relations, ix, i) && autoInc == FirstId + |items|
    {
      RelationCardsStep(relations, ix, i);
      items, autoInc := EmitFile(relations[i], ix, items, autoInc);
    }
  }

  /** The loop over `rank_by_id`, numbering new cards on from the last
      relation card. */
  method RankPass(cards: seq<Card>, ix: RankIndex, existingIds: set<string>) returns (items: seq<Card>)
    ensures items == RankPassOf(cards, ix, ix.order, existingIds, |ix.order|)
  {
    items := cards;
    var autoInc := FirstId + |cards|;
    for j := 0 to |ix.order|
      invariant items == RankPassOf(cards, ix, ix.order, existingIds, j) && autoInc == FirstId + |items|
    {
      items, autoInc := RankStep(cards, ix, existingIds, j, items, autoInc);
    }
  }

  /** One id of the rank pass: merge, or append a rank-only card. */
  method RankStep(cards: seq<Card>, ix: RankIndex, existingIds: set<string>, j: nat, items: seq<Card>, autoInc: int)
    returns (out: seq<Card>, next: int)
    requires j < |ix.order|
    requires items == RankPassOf(cards, ix, ix.order, existingIds, j)
    requires autoInc == FirstId + |items|
    ensures out == RankPassOf(cards, ix, ix.order, existingIds, j + 1)
    ensures next == FirstId + |out|
  {
    var rid := ix.order[j];
    if rid !in ix.byId {
      out, next := items, autoInc;
    } else if rid in existingIds {
      MergeFirstKeeps(items, rid, ix.byId[rid]);
      out := MergeRankRow(items, rid, ix.byId[rid]);
      next := autoInc;
    } else {
      out := items + [RankOnlyCard(ix, rid, autoInc)];
      next := autoInc + 1;
    }
  }

  method BuildItemsFromGraphs(relations: seq<(string, Packet)>, ranks: seq<(string, Packet)>)
    returns (items: seq<Card>)
    ensures items == Items(relations, ranks)
  {
    var ix := IndexRanks(ranks);
    RankIndexValid(RankRows(ranks));
    var cards := EmitRelations(relations, ix);
    var existingIds := set q | 0 <= q < |cards| && cards[q].nodeId != "" :: cards[q].nodeId;
    assert existingIds == Existing(cards);
    items := RankPass(cards, ix, existingIds);
    items := SortBy(items, CardKey);
  }
}
