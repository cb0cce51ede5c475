/** What `build_items_from_graphs` (services/graph_repo.py) promises about
    its result: one card per accepted node in node order, numbers from 1000
    in emission order, a rank pass that merges or appends each rank id once,
    a stable sort by (kind, normalised name), and distinct numbers that are
    exactly 1000 up to 1000 plus the item count. */
module GraphItems {
  import opened JsonValue
  import opened Order
  import opened Seqs
  import opened GraphSources
  import opened GraphCards
  import opened GraphRepo

  // --------------------------------------------------------- node loops

  /** The positions among the first `i` whose type is in `accept`, in
      order. */
  function Picked(types: seq<string>, accept: set<string>, i: nat): seq<nat>
    requires i <= |types|
  {
    if i == 0 then []
    else
      var pre := Picked(types, accept, i - 1);
      if types[i - 1] in accept then pre + [i - 1] else pre
  }

  /** The picked positions are exactly the accepted ones, increasing. */
  lemma {:induction false} PickedExactly(types: seq<string>, accept: set<string>, i: nat)
    requires i <= |types|
    ensures var ps := Picked(types, accept, i);
            && (forall j :: 0 <= j < |ps| ==> ps[j] < i && types[ps[j]] in accept)
            && (forall a, b :: 0 <= a < b < |ps| ==> ps[a] < ps[b])
            && (forall p :: 0 <= p < i && types[p] in accept ==> p in ps)
  {
    if i > 0 {
      PickedExactly(types, accept, i - 1);
    }
  }

  lemma KindCardsLast(k: Kind, nodes: seq<Json>, types: seq<string>, ctx: Ctx, base: int, i: nat)
    requires |types| == |nodes| && 0 < i <= |nodes|
    ensures var pre := KindCards(k, nodes, types, ctx, base, i - 1);
            KindCards(k, nodes, types, ctx, base, i) ==
              if types[i - 1] in TypesOf(k) then pre + [NodeCard(k, nodes[i - 1], ctx, base + |pre|)] else pre
  {
  }

  /** A node loop emits one card per node of an accepted type, in node
      order: the j-th card is numbered `base + j`, has the loop's kind and
      carries the id of the j-th accepted node (PickedExactly: the accepted
      nodes, increasing, none skipped). */
  lemma {:induction false} KindCardsPicked(k: Kind, nodes: seq<Json>, types: seq<string>, ctx: Ctx, base: int, i: nat)
    requires |types| == |nodes| && i <= |nodes|
    ensures var cs := KindCards(k, nodes, types, ctx, base, i);
            var ps := Picked(types, TypesOf(k), i);
            |cs| == |ps| &&
            forall j :: 0 <= j < |ps| ==>
              ps[j] < i && cs[j].id == base + j && cs[j].kind == k && cs[j].nodeId == NodeId(nodes[ps[j]])
  {
    if i > 0 {
      var pre := KindCards(k, nodes, types, ctx, base, i - 1);
      var ps := Picked(types, TypesOf(k), i - 1);
      KindCardsPicked(k, nodes, types, ctx, base, i - 1);
      KindCardsLast(k, nodes, types, ctx, base, i);
      if types[i - 1] in TypesOf(k) {
        var c := NodeCard(k, nodes[i - 1], ctx, base + |pre|);
        assert Picked(types, TypesOf(k), i) == ps + [i - 1];
        PickedCardsSnoc(k, nodes, base, pre, ps, c, i);
      } else {
        assert Picked(types, TypesOf(k), i) == ps;
      }
    }
  }

  /** One more accepted node extends the cards and the picked positions
      alike. */
  lemma PickedCardsSnoc(k: Kind, nodes: seq<Json>, base: int, pre: seq<Card>, ps: seq<nat>, c: Card, i: nat)
    requires 0 < i <= |nodes| && |pre| == |ps|
    requires forall j :: 0 <= j < |ps| ==>
               ps[j] < i - 1 && pre[j].id == base + j && pre[j].kind == k && pre[j].nodeId == NodeId(nodes[ps[j]])
    requires c.id == base + |pre| && c.kind == k && c.nodeId == NodeId(nodes[i - 1])
    ensures var cs := pre + [c];
            var qs := ps + [i - 1];
            forall j :: 0 <= j < |qs| ==>
              qs[j] < i && cs[j].id == base + j && cs[j].kind == k && cs[j].nodeId == NodeId(nodes[qs[j]])
  {
  }

  // ---------------------------------------------------------- numbering

  /** The cards carry the numbers `base`, `base + 1`, ... in order. */
  ghost predicate Numbered(cs: seq<Card>, base: int)
  {
    forall j :: 0 <= j < |cs| ==> cs[j].id == base + j
  }

  lemma NumberedAppend(a: seq<Card>, b: seq<Card>, base: int)
    ensures Numbered(a, base) && Numbered(b, base + |a|) ==> Numbered(a + b, base)
  {
  }

  lemma NumberedSnoc(whole: seq<Card>, pre: seq<Card>, more: seq<Card>, base: int)
    requires whole == pre + more
    requires Numbered(pre, base) && Numbered(more, base + |pre|)
    ensures Numbered(whole, base)
  {
    NumberedAppend(pre, more, base);
  }

  lemma {:induction false} KindCardsNumbered(k: Kind, nodes: seq<Json>, types: seq<string>, ctx: Ctx, base: int, i: nat)
    requires |types| == |nodes| && i <= |nodes|
    ensures Numbered(KindCards(k, nodes, types, ctx, base, i), base)
  {
    if i > 0 {
      var pre := KindCards(k, nodes, types, ctx, base, i - 1);
      KindCardsNumbered(k, nodes, types, ctx, base, i - 1);
      KindCardsLast(k, nodes, types, ctx, base, i);
      if types[i - 1] in TypesOf(k) {
        NumberedAppend(pre, [NodeCard(k, nodes[i - 1], ctx, base + |pre|)], base);
      }
    }
  }

  /** The four node loops number their cards on from `base`. */
  lemma LoopCardsNumbered(nodes: seq<Json>, types: seq<string>, ctx: Ctx, base: int)
    requires |types| == |nodes|
    ensures Numbered(LoopCards(nodes, types, ctx, base), base)
  {
    var t := KindCards(Tech, nodes, types, ctx, base, |nodes|);
    var p := KindCards(Product, nodes, types, ctx, base + |t|, |nodes|);
    var c := KindCards(Company, nodes, types, ctx, base + |t| + |p|, |nodes|);
    var y := KindCards(Country, nodes, types, ctx, base + |t| + |p| + |c|, |nodes|);
    KindCardsNumbered(Tech, nodes, types, ctx, base, |nodes|);
    KindCardsNumbered(Product, nodes, types, ctx, base + |t|, |nodes|);
    KindCardsNumbered(Company, nodes, types, ctx, base + |t| + |p|, |nodes|);
    KindCardsNumbered(Country, nodes, types, ctx, base + |t| + |p| + |c|, |nodes|);
    NumberedFour(t, p, c, y, base);
  }

  lemma NumberedFour(t: seq<Card>, p: seq<Card>, c: seq<Card>, y: seq<Card>, base: int)
    requires Numbered(t, base) && Numbered(p, base + |t|)
    requires Numbered(c, base + |t| + |p|) && Numbered(y, base + |t| + |p| + |c|)
    ensures Numbered(t + p + c + y, base)
  {
    NumberedAppend(t, p, base);
    NumberedAppend(t + p, c, base);
    NumberedAppend(t + p + c, y, base);
  }

  lemma RelationCardsNumbered(relations: seq<(string, Packet)>, ix: RankIndex, i: nat)
    requires i <= |relations|
    ensures Numbered(RelationCards(relations, ix, i), FirstId)
  {
    var g := (f, base) => FileCards(f, ix, base);
    forall f: (string, Packet), base: int
      ensures Numbered(g(f, base), base)
    {
      var nodes := Elems(f.1.nodes);
      LoopCardsNumbered(nodes, NodeTypes(nodes), FileCtx(f, ix), base);
    }
    ChainNumbered(relations, g, i);
  }

  /** Pieces each numbered from where they start make a numbered chain. */
  lemma {:induction false} ChainNumbered<F>(fs: seq<F>, g: (F, int) -> seq<Card>, i: nat)
    requires i <= |fs|
    requires forall f, base :: Numbered(g(f, base), base)
    ensures Numbered(Chain(fs, g, i), FirstId)
  {
    if i > 0 {
      var pre := Chain(fs, g, i - 1);
      ChainNumbered(fs, g, i - 1);
      NumberedAppend(pre, g(fs[i - 1], FirstId + |pre|), FirstId);
    }
  }

  /** Before sorting, the card at position j carries the number 1000 + j. */
  lemma EmittedNumbered(relations: seq<(string, Packet)>, ranks: seq<(string, Packet)>)
    ensures Numbered(Emitted(relations, ranks), FirstId)
  {
    var rows := RankRows(ranks);
    RankIndexValid(rows);
    var ix := RankIndexOf(rows);
    var cards := RelationCards(relations, ix, |relations|);
    RelationCardsNumbered(relations, ix, |relations|);
    RankPassCovers(relations, ranks);
    PassNumbered(cards, ix, Emitted(relations, ranks));
  }

  /** The rank pass keeps the numbers of the cards it merges into and
      numbers each rank-only card on from the last. */
  lemma PassNumbered(cs: seq<Card>, ix: RankIndex, out: seq<Card>)
    requires Numbered(cs, FirstId) && PassResult(cs, ix, out)
    ensures Numbered(out, FirstId)
  {
    var nw := NewIds(ix.order, Existing(cs), |ix.order|);
    forall q | 0 <= q < |out|
      ensures out[q].id == FirstId + q
    {
      if q >= |cs| {
        assert out[|cs| + (q - |cs|)] == RankOnlyCard(ix, nw[q - |cs|], FirstId + |cs| + (q - |cs|));
      }
    }
  }

  // ---------------------------------------------------------- rank pass

  /** The rank ids among the first `i` of `ord` that no relation card
      carries, in order: each gets a rank-only card. */
  function NewIds(ord: seq<string>, existing: set<string>, i: nat): seq<string>
    requires i <= |ord|
  {
    if i == 0 then []
    else NewIds(ord, existing, i - 1) + (if ord[i - 1] in existing then [] else [ord[i - 1]])
  }

  /** The first `i` ids of `ord`, as a set. */
  function Upto(ord: seq<string>, i: nat): set<string>
    requires i <= |ord|
  {
    if i == 0 then {} else Upto(ord, i - 1) + {ord[i - 1]}
  }

  /** Among distinct ids, `ord[i]` is not one of the first `i`. */
  lemma {:induction false} UptoFresh(ord: seq<string>, i: nat, k: nat)
    requires i <= k < |ord| && Distinct(ord)
    ensures ord[k] !in Upto(ord, i)
  {
    if i > 0 {
      UptoFresh(ord, i - 1, k);
    }
  }

  /** `Upto` holds exactly the first `i` ids. */
  lemma {:induction false} UptoHas(ord: seq<string>, i: nat, x: string)
    requires i <= |ord|
    ensures x in Upto(ord, i) <==> x in ord[..i]
  {
    if i > 0 {
      UptoHas(ord, i - 1, x);
      assert ord[..i] == ord[..i - 1] + [ord[i - 1]];
    }
  }

  lemma {:induction false} NewIdsExactly(ord: seq<string>, existing: set<string>, i: nat)
    requires i <= |ord| && Distinct(ord)
    ensures forall rid :: rid in NewIds(ord, existing, i) <==> rid in Upto(ord, i) && rid !in existing
    ensures Distinct(NewIds(ord, existing, i))
  {
    if i > 0 {
      NewIdsExactly(ord, existing, i - 1);
      var pre := NewIds(ord, existing, i - 1);
      if ord[i - 1] !in existing {
        UptoFresh(ord, i - 1, i - 1);
        assert ord[i - 1] !in pre;
        var nw := pre + [ord[i - 1]];
        forall a, b | 0 <= a < b < |nw|
          ensures nw[a] != nw[b]
        {
          if b == |pre| {
            assert nw[a] in pre;
          }
        }
      }
    }
  }

  /** What the rank pass has made of relation card `q` after the first `i`
      ids: merged with its rank row when it is the first card carrying an
      id seen so far, untouched otherwise. */
  function Settled(cs: seq<Card>, ix: RankIndex, ord: seq<string>, existing: set<string>, i: nat, q: nat): Card
    requires i <= |ord| && q < |cs|
  {
    var rid := cs[q].nodeId;
    if rid in existing && rid in Upto(ord, i) && FindNode(cs, rid) == q && rid in ix.byId
    then Merge(cs[q], ix.byId[rid])
    else cs[q]
  }

  /** The state of the items after the first `i` rank ids. */
  ghost predicate Shape(cs: seq<Card>, ix: RankIndex, ord: seq<string>, existing: set<string>, i: nat, r: seq<Card>)
    requires i <= |ord|
    requires Indexed(ord, ix)
  {
    var nw := NewIds(ord, existing, i);
    && |r| == |cs| + |nw|
    && (forall q :: 0 <= q < |cs| ==> r[q] == Settled(cs, ix, ord, existing, i, q))
    && (forall q :: 0 <= q < |nw| ==> nw[q] in ix.byId && r[|cs| + q] == RankOnlyCard(ix, nw[q], FirstId + |cs| + q))
  }

  /** Two card lists whose first `n` node ids agree find the same first
      carrier of an id carried among them. */
  lemma FindNodeAgree(a: seq<Card>, b: seq<Card>, n: nat, rid: string, q0: nat)
    requires n <= |a| && n <= |b| && q0 < n
    requires forall q :: 0 <= q < n ==> a[q].nodeId == b[q].nodeId
    requires a[q0].nodeId == rid
    ensures 0 <= FindNode(a, rid) <= q0 && FindNode(a, rid) == FindNode(b, rid)
  {
  }

  /** The rank pass: the relation cards keep their places, and only the
      first card carrying each already-present rank id is merged; after
      them comes one rank-only card per id no relation card carries, in
      rank order, numbered on from the last relation card. */
  lemma {:induction false} RankPassShape(cs: seq<Card>, ix: RankIndex, ord: seq<string>, existing: set<string>, i: nat)
    requires i <= |ord| && Distinct(ord)
    requires Indexed(ord, ix)
    requires existing == Existing(cs)
    ensures Shape(cs, ix, ord, existing, i, RankPassOf(cs, ix, ord, existing, i))
  {
    if i == 0 {
      ShapeStart(cs, ix, ord, existing);
    } else {
      RankPassShape(cs, ix, ord, existing, i - 1);
      if ord[i - 1] in existing {
        RankShapeMerge(cs, ix, ord, existing, i - 1);
      } else {
        RankShapeNew(cs, ix, ord, existing, i - 1);
      }
    }
  }

  lemma ShapeStart(cs: seq<Card>, ix: RankIndex, ord: seq<string>, existing: set<string>)
    requires Indexed(ord, ix)
    ensures Shape(cs, ix, ord, existing, 0, RankPassOf(cs, ix, ord, existing, 0))
  {
    assert RankPassOf(cs, ix, ord, existing, 0) == cs;
    forall q | 0 <= q < |cs|
      ensures cs[q] == Settled(cs, ix, ord, existing, 0, q)
    {
    }
  }

  lemma RankShapeMerge(cs: seq<Card>, ix: RankIndex, ord: seq<string>, existing: set<string>, i: nat)
    requires i < |ord| && Distinct(ord)
    requires Indexed(ord, ix)
    requires existing == Existing(cs)
    requires ord[i] in existing
    requires Shape(cs, ix, ord, existing, i, RankPassOf(cs, ix, ord, existing, i))
    ensures Shape(cs, ix, ord, existing, i + 1, RankPassOf(cs, ix, ord, existing, i + 1))
  {
    RankPassStep(cs, ix, ord, existing, i);
    ShapeMerge(cs, ix, ord, existing, i, RankPassOf(cs, ix, ord, existing, i));
  }

  lemma RankShapeNew(cs: seq<Card>, ix: RankIndex, ord: seq<string>, existing: set<string>, i: nat)
    requires i < |ord|
    requires Indexed(ord, ix)
    requires ord[i] !in existing
    requires Shape(cs, ix, ord, existing, i, RankPassOf(cs, ix, ord, existing, i))
    ensures Shape(cs, ix, ord, existing, i + 1, RankPassOf(cs, ix, ord, existing, i + 1))
  {
    RankPassStep(cs, ix, ord, existing, i);
    ShapeSnoc(cs, ix, ord, existing, i, RankPassOf(cs, ix, ord, existing, i));
  }

  /** Merging a rank id some relation card carries changes only its first
      carrier. */
  lemma ShapeMerge(cs: seq<Card>, ix: RankIndex, ord: seq<string>, existing: set<string>, i: nat, r: seq<Card>)
    requires i < |ord| && Distinct(ord)
    requires Indexed(ord, ix)
    requires existing == Existing(cs)
    requires ord[i] in existing
    requires Shape(cs, ix, ord, existing, i, r)
    ensures Shape(cs, ix, ord, existing, i + 1, MergeFirst(r, ord[i], ix.byId[ord[i]]))
  {
    var rid := ord[i];
    var rk := ix.byId[rid];
    var q0 :| 0 <= q0 < |cs| && cs[q0].nodeId == rid;
    SettledIds(cs, ix, ord, existing, i, r);
    FindNodeAgree(cs, r, |cs|, rid, q0);
    var p := FindNode(cs, rid);
    var r2 := MergeFirst(r, rid, rk);
    assert r2 == r[p := Merge(r[p], rk)];
    MergeSettled(cs, ix, ord, existing, i, r, p, r2);
    ShapeKeepsNew(cs, ix, ord, existing, i, r, r2);
  }

  /** A pass step that leaves the new ids alone and changes only relation
      cards keeps the rank-only suffix. */
  lemma ShapeKeepsNew(cs: seq<Card>, ix: RankIndex, ord: seq<string>, existing: set<string>, i: nat, r: seq<Card>, r2: seq<Card>)
    requires i < |ord| && Indexed(ord, ix) && ord[i] in existing
    requires Shape(cs, ix, ord, existing, i, r)
    requires |r2| == |r| && forall q :: |cs| <= q < |r| ==> r2[q] == r[q]
    requires forall q :: 0 <= q < |cs| ==> r2[q] == Settled(cs, ix, ord, existing, i + 1, q)
    ensures Shape(cs, ix, ord, existing, i + 1, r2)
  {
    assert NewIds(ord, existing, i + 1) == NewIds(ord, existing, i);
  }

  /** Settling keeps every relation card's node id. */
  lemma SettledIds(cs: seq<Card>, ix: RankIndex, ord: seq<string>, existing: set<string>, i: nat, r: seq<Card>)
    requires i <= |ord| && |cs| <= |r|
    requires forall q :: 0 <= q < |cs| ==> r[q] == Settled(cs, ix, ord, existing, i, q)
    ensures forall q :: 0 <= q < |cs| ==> r[q].nodeId == cs[q].nodeId
  {
    forall q | 0 <= q < |cs|
      ensures r[q].nodeId == cs[q].nodeId
    {
      assert r[q] == Settled(cs, ix, ord, existing, i, q);
    }
  }

  /** Merging rank id `ord[i]` into its first carrier `p` settles the
      relation cards for the first `i + 1` ids. */
  lemma MergeSettled(cs: seq<Card>, ix: RankIndex, ord: seq<string>, existing: set<string>, i: nat, r: seq<Card>, p: nat, r2: seq<Card>)
    requires i < |ord| && Distinct(ord) && ord[i] in ix.byId
    requires ord[i] in existing
    requires p < |cs| <= |r| && p == FindNode(cs, ord[i])
    requires forall q :: 0 <= q < |cs| ==> r[q] == Settled(cs, ix, ord, existing, i, q)
    requires r2 == r[p := Merge(r[p], ix.byId[ord[i]])]
    ensures forall q :: 0 <= q < |cs| ==> r2[q] == Settled(cs, ix, ord, existing, i + 1, q)
  {
    forall q | 0 <= q < |cs|
      ensures r2[q] == Settled(cs, ix, ord, existing, i + 1, q)
    {
      SettledStep(cs, ix, ord, existing, i, q);
      assert r[q] == Settled(cs, ix, ord, existing, i, q);
    }
  }

  /** One more rank id settles only its own first carrier. */
  lemma SettledStep(cs: seq<Card>, ix: RankIndex, ord: seq<string>, existing: set<string>, i: nat, q: nat)
    requires i < |ord| && Distinct(ord) && q < |cs| && ord[i] in ix.byId
    ensures Settled(cs, ix, ord, existing, i + 1, q)
            == if q == FindNode(cs, ord[i]) && ord[i] in existing
               then Merge(cs[q], ix.byId[ord[i]])
               else Settled(cs, ix, ord, existing, i, q)
  {
    if q == FindNode(cs, ord[i]) {
      UptoFresh(ord, i, i);
    }
  }

  /** A rank id no relation card carries appends its rank-only card. */
  lemma ShapeSnoc(cs: seq<Card>, ix: RankIndex, ord: seq<string>, existing: set<string>, i: nat, r: seq<Card>)
    requires i < |ord|
    requires Indexed(ord, ix)
    requires ord[i] !in existing
    requires Shape(cs, ix, ord, existing, i, r)
    ensures Shape(cs, ix, ord, existing, i + 1, r + [RankOnlyCard(ix, ord[i], FirstId + |r|)])
  {
    var rid := ord[i];
    var nw := NewIds(ord, existing, i);
    var r2 := r + [RankOnlyCard(ix, rid, FirstId + |r|)];
    assert NewIds(ord, existing, i + 1) == nw + [rid];
    forall q | 0 <= q < |cs|
      ensures r2[q] == Settled(cs, ix, ord, existing, i + 1, q)
    {
      assert r[q] == Settled(cs, ix, ord, existing, i, q);
    }
  }

  /** What the rank pass does to cards `cs` under index `ix`, with result
      `out`: every rank id that no card carries gets exactly one rank-only
      card, in rank order, numbered on from the cards, and no other card is
      added; each card stays where it is, merged with its rank row exactly
      when it is the first card carrying a rank id. */
  ghost predicate PassResult(cs: seq<Card>, ix: RankIndex, out: seq<Card>)
  {
    var nw := NewIds(ix.order, Existing(cs), |ix.order|);
    && |out| == |cs| + |nw|
    && Distinct(nw)
    && (forall rid :: rid in nw <==> rid in ix.byId && rid !in Existing(cs))
    && (forall q :: 0 <= q < |nw| ==> out[|cs| + q] == RankOnlyCard(ix, nw[q], FirstId + |cs| + q))
    && (forall q :: 0 <= q < |cs| ==>
          out[q] == if FindNode(cs, cs[q].nodeId) == q && cs[q].nodeId in ix.byId
                    then Merge(cs[q], ix.byId[cs[q].nodeId])
                    else cs[q])
  }

  /** The emitted cards are the relation cards after the rank pass. */
  lemma RankPassCovers(relations: seq<(string, Packet)>, ranks: seq<(string, Packet)>)
    ensures var ix := RankIndexOf(RankRows(ranks));
            PassResult(RelationCards(relations, ix, |relations|), ix, Emitted(relations, ranks))
  {
    var rows := RankRows(ranks);
    RankIndexValid(rows);
    var ix := RankIndexOf(rows);
    var cards := RelationCards(relations, ix, |relations|);
    RankPassFinal(cards, ix);
  }

  /** The rank pass over the whole key order of a well-formed index. */
  lemma RankPassFinal(cs: seq<Card>, ix: RankIndex)
    requires ValidIndex(ix)
    ensures PassResult(cs, ix, RankPassOf(cs, ix, ix.order, Existing(cs), |ix.order|))
  {
    var ord := ix.order;
    var existing := Existing(cs);
    var out := RankPassOf(cs, ix, ord, existing, |ord|);
    RankPassShape(cs, ix, ord, existing, |ord|);
    NewIdsAll(ix, existing);
    forall q | 0 <= q < |cs|
      ensures out[q] == if FindNode(cs, cs[q].nodeId) == q && cs[q].nodeId in ix.byId
                        then Merge(cs[q], ix.byId[cs[q].nodeId])
                        else cs[q]
    {
      UptoHas(ord, |ord|, cs[q].nodeId);
      assert ord[..|ord|] == ord;
      assert out[q] == Settled(cs, ix, ord, existing, |ord|, q);
    }
  }

  /** The new ids of the whole key order are the index's ids no relation
      card carries, each once. */
  lemma NewIdsAll(ix: RankIndex, existing: set<string>)
    requires ValidIndex(ix)
    ensures Distinct(NewIds(ix.order, existing, |ix.order|))
    ensures forall rid :: rid in NewIds(ix.order, existing, |ix.order|) <==> rid in ix.byId && rid !in existing
  {
    var ord := ix.order;
    NewIdsExactly(ord, existing, |ord|);
    assert ord[..|ord|] == ord;
    forall rid
      ensures rid in NewIds(ord, existing, |ord|) <==> rid in ix.byId && rid !in existing
    {
      UptoHas(ord, |ord|, rid);
    }
  }

  // ------------------------------------------------------------ sorting

  /** The items are the emitted cards, reordered by (kind, normalised
      name); cards with equal keys keep their emission (= number) order. */
  lemma ItemsOrdered(relations: seq<(string, Packet)>, ranks: seq<(string, Packet)>)
    ensures var items := Items(relations, ranks);
            && multiset(items) == multiset(Emitted(relations, ranks))
            && SortedBy(items, CardKey)
            && StableBy(items, CardKey, CardId)
  {
    var cs := Emitted(relations, ranks);
    EmittedNumbered(relations, ranks);
    SortBySorted(cs, CardKey);
    SortByStable(cs, CardKey, CardId);
  }

  /** No two items share a number, so `{it["id"]: it}` loses none. */
  lemma ItemIdsDistinct(relations: seq<(string, Packet)>, ranks: seq<(string, Packet)>)
    ensures var items := Items(relations, ranks);
            forall a, b :: 0 <= a < b < |items| ==> items[a].id != items[b].id
  {
    EmittedNumbered(relations, ranks);
    ItemsOrdered(relations, ranks);
    ShuffledIdsDistinct(Items(relations, ranks), Emitted(relations, ranks));
  }

  /** The item numbers are exactly 1000 .. 1000 + |items| - 1. */
  lemma ItemIdsRange(relations: seq<(string, Packet)>, ranks: seq<(string, Packet)>, id: int)
    ensures var items := Items(relations, ranks);
            (exists j :: 0 <= j < |items| && items[j].id == id) <==> FirstId <= id < FirstId + |items|
  {
    EmittedNumbered(relations, ranks);
    ItemsOrdered(relations, ranks);
    ShuffledIdsRange(Items(relations, ranks), Emitted(relations, ranks), id);
  }

  /** A reordering of cards numbered from 1000 has distinct numbers. */
  lemma ShuffledIdsDistinct(items: seq<Card>, cs: seq<Card>)
    requires Numbered(cs, FirstId) && multiset(items) == multiset(cs)
    ensures forall a, b :: 0 <= a < b < |items| ==> items[a].id != items[b].id
  {
    forall a, b | 0 <= a < b < |items|
      ensures items[a].id != items[b].id
    {
      if items[a].id == items[b].id {
        assert items[a] in multiset(cs) && items[b] in multiset(cs);
        var p :| 0 <= p < |cs| && cs[p] == items[a];
        var q :| 0 <= q < |cs| && cs[q] == items[b];
        assert p == q;
        DistinctIdsOnce(cs, p);
        PairTwice(items, a, b);
      }
    }
  }

  /** A reordering of cards numbered from 1000 holds exactly the numbers
      1000 up to 1000 plus its length. */
  lemma ShuffledIdsRange(items: seq<Card>, cs: seq<Card>, id: int)
    requires Numbered(cs, FirstId) && multiset(items) == multiset(cs)
    ensures (exists j :: 0 <= j < |items| && items[j].id == id) <==> FirstId <= id < FirstId + |items|
  {
    assert |items| == |cs| by {
      assert |multiset(items)| == |multiset(cs)|;
    }
    if j :| 0 <= j < |items| && items[j].id == id {
      assert items[j] in multiset(cs);
      var p :| 0 <= p < |cs| && cs[p] == items[j];
    }
    if FirstId <= id < FirstId + |items| {
      var c := cs[id - FirstId];
      assert c in multiset(items);
      var j :| 0 <= j < |items| && items[j] == c;
      assert items[j].id == id;
    }
  }

  lemma DistinctIdsOnce(cs: seq<Card>, p: nat)
    requires Numbered(cs, FirstId) && p < |cs|
    ensures multiset(cs)[cs[p]] == 1
  {
    var c := cs[p];
    assert cs == cs[..p] + [c] + cs[p + 1..];
    forall q | 0 <= q < |cs| && q != p
      ensures cs[q] != c
    {
    }
    assert c !in cs[..p];
    assert c !in cs[p + 1..];
  }

  /** A value at two positions occurs at least twice. */
  lemma PairTwice(s: seq<Card>, a: nat, b: nat)
    requires a < b < |s| && s[a] == s[b]
    ensures multiset(s)[s[a]] >= 2
  {
    assert s == s[..a] + [s[a]] + s[a + 1..b] + [s[b]] + s[b + 1..];
  }
}
