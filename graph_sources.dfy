/** The inputs of the card builder in services/graph_repo.py: the packet a
    parsed file is normalised into, the rank index keyed by row id, the three
    edge indexes of one relation file, node-name lookup and the HTML chips
    line. */
module GraphSources {
  import opened Wrappers
  import opened JsonValue
  import opened Text
  import opened Order
  import opened Seqs

  // ------------------------------------------------------------ packets

  /** `{"nodes": ..., "edges": ..., "rows": ...}` */
  datatype Packet = Packet(nodes: Json, edges: Json, rows: Json)

  const EmptyPacket: Packet := Packet(EmptyList, EmptyList, EmptyList)

  predicate IsRelationObject(d: Json)
  {
    d.JObj? && ("nodes" in d.fields || "edges" in d.fields || "links" in d.fields)
  }

  /** Classifies a parsed file (`None` when it could not be read or parsed):
      an object with node/edge keys is a relation file, a list or any other
      object is a rank table, and anything else is empty. */
  function SafeLoad(parsed: Option<Json>): (p: Packet)
    ensures parsed.None? ==> p == EmptyPacket
    ensures parsed.Some? && !parsed.value.JObj? && !parsed.value.JArr? ==> p == EmptyPacket
    ensures parsed.Some? && IsRelationObject(parsed.value) ==> p.rows == EmptyList
    // nodes: "nodes", else "Nodes", else []
    ensures parsed.Some? && IsRelationObject(parsed.value) && Truthy(Get(parsed.value, "nodes")) ==>
              p.nodes == Get(parsed.value, "nodes")
    ensures (parsed.Some? && IsRelationObject(parsed.value) && !Truthy(Get(parsed.value, "nodes"))
             && Truthy(Get(parsed.value, "Nodes"))) ==> p.nodes == Get(parsed.value, "Nodes")
    ensures (parsed.Some? && IsRelationObject(parsed.value) && !Truthy(Get(parsed.value, "nodes"))
             && !Truthy(Get(parsed.value, "Nodes"))) ==> p.nodes == EmptyList
    // edges: "edges", else "Edges", else "links", else []
    ensures parsed.Some? && IsRelationObject(parsed.value) && Truthy(Get(parsed.value, "edges")) ==>
              p.edges == Get(parsed.value, "edges")
    ensures (parsed.Some? && IsRelationObject(parsed.value) && !Truthy(Get(parsed.value, "edges"))
             && Truthy(Get(parsed.value, "Edges"))) ==> p.edges == Get(parsed.value, "Edges")
    ensures (parsed.Some? && IsRelationObject(parsed.value) && !Truthy(Get(parsed.value, "edges"))
             && !Truthy(Get(parsed.value, "Edges")) && Truthy(Get(parsed.value, "links"))) ==>
              p.edges == Get(parsed.value, "links")
    ensures (parsed.Some? && IsRelationObject(parsed.value) && !Truthy(Get(parsed.value, "edges"))
             && !Truthy(Get(parsed.value, "Edges")) && !Truthy(Get(parsed.value, "links"))) ==>
              p.edges == EmptyList
    ensures parsed.Some? && parsed.value.JArr? ==> p == Packet(EmptyList, EmptyList, parsed.value)
    // any other object: rows from "rows", else "data", else []
    ensures parsed.Some? && parsed.value.JObj? && !IsRelationObject(parsed.value) ==>
              p.nodes == EmptyList && p.edges == EmptyList
    ensures (parsed.Some? && parsed.value.JObj? && !IsRelationObject(parsed.value)
             && Truthy(Get(parsed.value, "rows"))) ==> p.rows == Get(parsed.value, "rows")
    ensures (parsed.Some? && parsed.value.JObj? && !IsRelationObject(parsed.value)
             && !Truthy(Get(parsed.value, "rows")) && Truthy(Get(parsed.value, "data"))) ==>
              p.rows == Get(parsed.value, "data")
    ensures (parsed.Some? && parsed.value.JObj? && !IsRelationObject(parsed.value)
             && !Truthy(Get(parsed.value, "rows")) && !Truthy(Get(parsed.value, "data"))) ==>
              p.rows == EmptyList
    ensures Truthy(p.nodes) || Truthy(p.edges) ==> parsed.Some? && IsRelationObject(parsed.value)
  {
    match parsed
    case None => EmptyPacket
    case Some(data) =>
      if !data.JObj? && !data.JArr? then EmptyPacket
      else if IsRelationObject(data) then
        var nodes := Or(Or(Get(data, "nodes"), Get(data, "Nodes")), EmptyList);
        var edges := Or(Or(Or(Get(data, "edges"), Get(data, "Edges")), Get(data, "links")), EmptyList);
        Packet(nodes, edges, EmptyList)
      else if data.JArr? then Packet(EmptyList, EmptyList, data)
      else Packet(EmptyList, EmptyList, Or(Or(Get(data, "rows"), Get(data, "data")), EmptyList))
  }

  // --------------------------------------------------------- rank index

  /** `r.get("id") or r.get("ID")`, read as text. */
  function RowId(r: Json): string
  {
    TextOf(Or(Get(r, "id"), Get(r, "ID")))
  }

  /** The rank id of a (file name, row) pair. */
  function RowKey(p: (string, Json)): string
  {
    RowId(p.1)
  }

  /** The rows of one rank file, each paired with the file name. */
  function FileRows(f: (string, Packet)): (r: seq<(string, Json)>)
    ensures |r| == |Elems(f.1.rows)|
    ensures forall k :: 0 <= k < |r| ==> r[k] == (f.0, Elems(f.1.rows)[k])
  {
    seq(|Elems(f.1.rows)|, k requires 0 <= k < |Elems(f.1.rows)| => (f.0, Elems(f.1.rows)[k]))
  }

  /** All rank rows in the order the nested loops visit them. */
  function RankRows(ranks: seq<(string, Packet)>): seq<(string, Json)>
  {
    if ranks == [] then []
    else RankRows(ranks[..|ranks| - 1]) + FileRows(ranks[|ranks| - 1])
  }

  /** `rank_by_id`, `id_source_map` and the key order of `rank_by_id` (a
      Python dict iterates in first-insertion order). */
  datatype RankIndex = RankIndex(byId: map<string, Json>, source: map<string, string>, order: seq<string>)

  const EmptyIndex: RankIndex := RankIndex(map[], map[], [])

  ghost predicate ValidIndex(ix: RankIndex)
  {
    && (forall k :: k in ix.byId <==> k in ix.order)
    && (forall k :: k in ix.source <==> k in ix.byId)
    && "" !in ix.byId
    && Distinct(ix.order)
  }

  /** One iteration of the rank loop: rows without an id are skipped. */
  function IndexRow(ix: RankIndex, p: (string, Json)): RankIndex
  {
    var rid := RowId(p.1);
    if rid == "" then ix
    else RankIndex(ix.byId[rid := p.1], ix.source[rid := p.0],
                   if rid in ix.byId then ix.order else ix.order + [rid])
  }

  function RankIndexOf(rows: seq<(string, Json)>): RankIndex
  {
    if rows == [] then EmptyIndex
    else IndexRow(RankIndexOf(rows[..|rows| - 1]), rows[|rows| - 1])
  }

  /** The non-empty row ids in visiting order. */
  function RowIds(rows: seq<(string, Json)>): (r: seq<string>)
    ensures forall k :: k in r <==> k != "" && exists p :: 0 <= p < |rows| && RowKey(rows[p]) == k
  {
    if rows == [] then []
    else
      var pre := RowIds(rows[..|rows| - 1]);
      assert forall p :: 0 <= p < |rows| - 1 ==> rows[..|rows| - 1][p] == rows[p];
      if RowKey(rows[|rows| - 1]) == "" then pre else pre + [RowKey(rows[|rows| - 1])]
  }

  /** The index is well formed, and its key order is the de-duplicated
      sequence of row ids. */
  lemma RankIndexValid(rows: seq<(string, Json)>)
    ensures ValidIndex(RankIndexOf(rows))
    ensures RankIndexOf(rows).order == Dedup(RowIds(rows))
  {
    RankIndexWellFormed(rows);
    RankOrderIsDedup(rows);
  }

  lemma {:induction false} RankIndexWellFormed(rows: seq<(string, Json)>)
    ensures ValidIndex(RankIndexOf(rows))
  {
    if rows != [] {
      var pre := rows[..|rows| - 1];
      RankIndexWellFormed(pre);
      var ix := RankIndexOf(pre);
      var rid := RowId(rows[|rows| - 1].1);
      if rid != "" && rid !in ix.byId {
        var o := ix.order + [rid];
        forall i, j | 0 <= i < j < |o| ensures o[i] != o[j] {
          if j == |o| - 1 { assert o[i] in ix.order; }
        }
      }
    }
  }

  lemma {:induction false} RankOrderIsDedup(rows: seq<(string, Json)>)
    ensures RankIndexOf(rows).order == Dedup(RowIds(rows))
  {
    if rows != [] {
      var pre := rows[..|rows| - 1];
      RankOrderIsDedup(pre);
      RankIndexWellFormed(pre);
    }
  }

  lemma {:induction false} RankPrefixIsLastWins(rows: seq<(string, Json)>, i: nat, k: string)
    requires i <= |rows|
    ensures k in RankIndexOf(rows[..i]).byId <==> k in IndexPrefix(rows, RowKey, i)
    ensures k in RankIndexOf(rows[..i]).source <==> k in IndexPrefix(rows, RowKey, i)
    ensures k in RankIndexOf(rows[..i]).byId ==>
              RankIndexOf(rows[..i]).byId[k] == IndexPrefix(rows, RowKey, i)[k].1
              && RankIndexOf(rows[..i]).source[k] == IndexPrefix(rows, RowKey, i)[k].0
  {
    if i > 0 {
      RankPrefixIsLastWins(rows, i - 1, k);
      assert rows[..i][..i - 1] == rows[..i - 1];
      assert rows[..i][i - 1] == rows[i - 1];
    }
  }

  /** The index agrees with the last-wins dictionary over the rows. */
  lemma RankIndexIsLastWins(rows: seq<(string, Json)>, k: string)
    ensures k in RankIndexOf(rows).byId <==> k in IndexLast(rows, RowKey)
    ensures k in RankIndexOf(rows).source <==> k in IndexLast(rows, RowKey)
    ensures k in RankIndexOf(rows).byId ==>
              RankIndexOf(rows).byId[k] == IndexLast(rows, RowKey)[k].1
              && RankIndexOf(rows).source[k] == IndexLast(rows, RowKey)[k].0
  {
    RankPrefixIsLastWins(rows, |rows|, k);
    assert rows[..|rows|] == rows;
  }

  /** Rows without an id are skipped; for a repeated id the last row over
      all files wins, and the source map names that row's file. */
  lemma RankIndexLastWins(rows: seq<(string, Json)>, k: string)
    ensures k in RankIndexOf(rows).byId <==> k != "" && exists p :: 0 <= p < |rows| && RowKey(rows[p]) == k
    ensures k in RankIndexOf(rows).byId ==>
              k in RankIndexOf(rows).source &&
              exists p :: 0 <= p < |rows| && RowKey(rows[p]) == k
                && RankIndexOf(rows).byId[k] == rows[p].1
                && RankIndexOf(rows).source[k] == rows[p].0
                && forall q :: p < q < |rows| ==> RowKey(rows[q]) != k
  {
    RankIndexIsLastWins(rows, k);
    IndexLastWins(rows, RowKey, k);
  }

  lemma RankIndexSnoc(rows: seq<(string, Json)>, p: (string, Json))
    ensures RankIndexOf(rows + [p]) == IndexRow(RankIndexOf(rows), p)
  {
    assert (rows + [p])[..|rows|] == rows;
  }

  lemma RankRowsSnoc(ranks: seq<(string, Packet)>, i: nat)
    requires i < |ranks|
    ensures RankRows(ranks[..i + 1]) == RankRows(ranks[..i]) + FileRows(ranks[i])
  {
    assert ranks[..i + 1][..i] == ranks[..i];
  }

  /** The rank loop of `build_items_from_graphs`. */
  method IndexRanks(ranks: seq<(string, Packet)>) returns (ix: RankIndex)
    ensures ix == RankIndexOf(RankRows(ranks))
  {
    var rankById: map<string, Json> := map[];
    var idSourceMap: map<string, string> := map[];
    var keys: seq<string> := [];
    var i := 0;
    while i < |ranks|
      invariant 0 <= i <= |ranks|
      invariant RankIndex(rankById, idSourceMap, keys) == RankIndexOf(RankRows(ranks[..i]))
    {
      var srcName := ranks[i].0;
      var rows := Elems(ranks[i].1.rows);
      ghost var done := RankRows(ranks[..i]);
      ghost var fileRows := FileRows(ranks[i]);
      assert done + fileRows[..0] == done;
      var j := 0;
      while j < |rows|
        invariant 0 <= j <= |rows|
        invariant RankIndex(rankById, idSourceMap, keys) == RankIndexOf(done + fileRows[..j])
      {
        var r := rows[j];
        assert fileRows[j] == (srcName, r);
        SnocSlice(done, fileRows, j);
        RankIndexSnoc(done + fileRows[..j], (srcName, r));
        var rid := RowId(r);
        if rid != "" {
          if rid !in rankById {
            keys := keys + [rid];
          }
          rankById := rankById[rid := r];
          idSourceMap := idSourceMap[rid := srcName];
        }
        j := j + 1;
      }
      assert fileRows[..j] == fileRows;
      RankRowsSnoc(ranks, i);
      i := i + 1;
    }
    assert ranks[..i] == ranks;
    ix := RankIndex(rankById, idSourceMap, keys);
  }

  // --------------------------------------------------------- edge index

  const OwnedBy: string := "产品-归属-企业"
  const LocatedIn: string := "企业-归属-国家"
  const Applies: string := "产品-应用-技术"

  /** A dict of sets, each set held as its sorted sequence. */
  ghost predicate SetValued(m: map<string, seq<string>>)
  {
    forall k :: k in m ==> StrictlySorted(m[k])
  }

  /** `m.get(k, set())`, sorted. */
  function Targets(m: map<string, seq<string>>, k: string): seq<string>
  {
    if k in m then m[k] else []
  }

  /** `m.setdefault(s, set()).add(t)` */
  function AddTarget(m: map<string, seq<string>>, s: string, t: string): (r: map<string, seq<string>>)
    ensures r.Keys == m.Keys + {s}
  {
    m[s := Insert(Targets(m, s), t)]
  }

  /** The set under `s` gains `t`; every other set is unchanged. */
  lemma AddTargetMembers(m: map<string, seq<string>>, s: string, t: string, k: string, y: string)
    ensures y in Targets(AddTarget(m, s, t), k) <==> y in Targets(m, k) || (k == s && y == t)
  {
    InsertMembers(Targets(m, s), t);
  }

  lemma AddTargetSetValued(m: map<string, seq<string>>, s: string, t: string)
    requires SetValued(m)
    ensures SetValued(AddTarget(m, s, t))
  {
    InsertSorted(Targets(m, s), t);
  }

  /** `product_to_companies`, `company_to_countries`, `product_to_techs`. */
  datatype EdgeIndex = EdgeIndex(companies: map<string, seq<string>>,
                                 countries: map<string, seq<string>>,
                                 techs: map<string, seq<string>>)

  ghost predicate ValidEdges(ex: EdgeIndex)
  {
    SetValued(ex.companies) && SetValued(ex.countries) && SetValued(ex.techs)
  }

  /** The table an edge label feeds. */
  function Table(ex: EdgeIndex, lbl: string): map<string, seq<string>>
  {
    if lbl == OwnedBy then ex.companies
    else if lbl == LocatedIn then ex.countries
    else if lbl == Applies then ex.techs
    else map[]
  }

  function EdgeRelation(e: Json): string
  {
    TextOf(Get(e, "relation"))
  }

  /** Edge `e` is a `lbl`-labelled edge from `s` to `t`, both non-empty. */
  predicate IsEdge(e: Json, lbl: string, s: string, t: string)
  {
    EdgeRelation(e) == lbl && TextOf(Get(e, "source")) == s && TextOf(Get(e, "target")) == t
    && s != "" && t != ""
  }

  /** One iteration of the edge loop. */
  function EdgeStep(ex: EdgeIndex, e: Json): EdgeIndex
  {
    var rel := EdgeRelation(e);
    var s := TextOf(Get(e, "source"));
    var t := TextOf(Get(e, "target"));
    if s == "" || t == "" then ex
    else if rel == OwnedBy then ex.(companies := AddTarget(ex.companies, s, t))
    else if rel == LocatedIn then ex.(countries := AddTarget(ex.countries, s, t))
    else if rel == Applies then ex.(techs := AddTarget(ex.techs, s, t))
    else ex
  }

  function EdgeIndexOf(edges: seq<Json>): EdgeIndex
  {
    if edges == [] then EdgeIndex(map[], map[], map[])
    else EdgeStep(EdgeIndexOf(edges[..|edges| - 1]), edges[|edges| - 1])
  }

  /** Every table of the edge index is a dict of sets. */
  lemma {:induction false} EdgeIndexValid(edges: seq<Json>)
    ensures ValidEdges(EdgeIndexOf(edges))
  {
    if edges != [] {
      var ex := EdgeIndexOf(edges[..|edges| - 1]);
      var e := edges[|edges| - 1];
      EdgeIndexValid(edges[..|edges| - 1]);
      var s, t := TextOf(Get(e, "source")), TextOf(Get(e, "target"));
      AddTargetSetValued(ex.companies, s, t);
      AddTargetSetValued(ex.countries, s, t);
      AddTargetSetValued(ex.techs, s, t);
    }
  }

  lemma EdgeStepTable(ex: EdgeIndex, e: Json, lbl: string, k: string, y: string)
    requires lbl == OwnedBy || lbl == LocatedIn || lbl == Applies
    ensures y in Targets(Table(EdgeStep(ex, e), lbl), k) <==>
              y in Targets(Table(ex, lbl), k) || IsEdge(e, lbl, k, y)
  {
    var s, t := TextOf(Get(e, "source")), TextOf(Get(e, "target"));
    AddTargetMembers(Table(ex, lbl), s, t, k, y);
  }

  /** Each table holds exactly the pairs of the edges with its label; other
      labels and edges with an empty end are ignored. */
  lemma {:induction false} EdgeIndexMembers(edges: seq<Json>, lbl: string, k: string, y: string)
    requires lbl == OwnedBy || lbl == LocatedIn || lbl == Applies
    ensures y in Targets(Table(EdgeIndexOf(edges), lbl), k) <==>
              exists i :: 0 <= i < |edges| && IsEdge(edges[i], lbl, k, y)
  {
    if edges != [] {
      var pre := edges[..|edges| - 1];
      var last := edges[|edges| - 1];
      EdgeIndexMembers(pre, lbl, k, y);
      EdgeStepTable(EdgeIndexOf(pre), last, lbl, k, y);
      assert forall i :: 0 <= i < |pre| ==> pre[i] == edges[i];
      if IsEdge(last, lbl, k, y) {
        assert IsEdge(edges[|edges| - 1], lbl, k, y);
      }
    }
  }

  /** The edge loop of `build_items_from_graphs` for one relation file. */
  method IndexEdges(edges: seq<Json>) returns (ex: EdgeIndex)
    ensures ex == EdgeIndexOf(edges)
  {
    var productToCompanies: map<string, seq<string>> := map[];
    var companyToCountries: map<string, seq<string>> := map[];
    var productToTechs: map<string, seq<string>> := map[];
    var i := 0;
    while i < |edges|
      invariant 0 <= i <= |edges|
      invariant EdgeIndex(productToCompanies, companyToCountries, productToTechs) == EdgeIndexOf(edges[..i])
    {
      var e := edges[i];
      assert edges[..i + 1][..i] == edges[..i];
      var rel := EdgeRelation(e);
      var s, t := TextOf(Get(e, "source")), TextOf(Get(e, "target"));
      if s != "" && t != "" {
        if rel == OwnedBy {
          productToCompanies := AddTarget(productToCompanies, s, t);
        } else if rel == LocatedIn {
          companyToCountries := AddTarget(companyToCountries, s, t);
        } else if rel == Applies {
          productToTechs := AddTarget(productToTechs, s, t);
        }
      }
      i := i + 1;
    }
    assert edges[..i] == edges;
    ex := EdgeIndex(productToCompanies, companyToCountries, productToTechs);
  }

  // ----------------------------------------------------- nodes and names

  function NodeId(n: Json): string
  {
    TextOf(Get(n, "id"))
  }

  /** `{n.get("id"): n for n in nodes if n.get("id")}` */
  function NodeIndex(nodes: seq<Json>): map<string, Json>
  {
    IndexLast(nodes, NodeId)
  }

  /** `_node_name`: "-" for an empty id, else the node's name, falling back
      to the id itself. */
  function NodeName(byId: map<string, Json>, nodeId: string): (r: string)
    ensures nodeId == "" ==> r == "-"
    ensures r != ""
    ensures nodeId != "" && (nodeId !in byId || TextOf(Get(byId[nodeId], "name")) == "") ==> r == nodeId
    ensures nodeId != "" && nodeId in byId && TextOf(Get(byId[nodeId], "name")) != "" ==> r == TextOf(Get(byId[nodeId], "name"))
  {
    if nodeId == "" then "-"
    else
      var name := if nodeId in byId then TextOf(Get(byId[nodeId], "name")) else "";
      if name != "" then name else nodeId
  }

  /** `[_node_name(id2node, i) for i in ids]` */
  function Names(byId: map<string, Json>, ids: seq<string>): (r: seq<string>)
    ensures |r| == |ids|
  {
    seq(|ids|, i requires 0 <= i < |ids| => NodeName(byId, ids[i]))
  }

  // ------------------------------------------------------------ chips

  const ChipOpen: string := "<span class=\"chip\" title=\""
  const ChipMiddle: string := "\">"
  const ChipClose: string := "</span>"
  const LineOpen: string := "<div class=\"meta-line\"><span class=\"meta-label\">"
  const LabelClose: string := "</span>"
  const LineClose: string := "</div>"

  function Chip(n: string): string
  {
    ChipOpen + n + ChipMiddle + n + ChipClose
  }

  function Chips(names: seq<string>): string
  {
    if names == [] then "" else Chips(names[..|names| - 1]) + Chip(names[|names| - 1])
  }

  /** `_chips_html`: nothing for no names, otherwise one labelled line
      holding a chip per name. */
  function ChipsHtml(lbl: string, names: seq<string>): (r: string)
    ensures r == "" <==> names == []
  {
    if names == [] then "" else LineOpen + lbl + LabelClose + Chips(names) + LineClose
  }
}
