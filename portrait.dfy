/** The single-domain graph view of services/portrait_repo.py: domain keys
    and their data files, the rank-detail map, the node and edge
    projection, and the rank-first node lookup. The two data files are
    read by the caller: each operation takes their parsed contents, None
    standing for a file that is missing or is not valid JSON. */
module Portrait {
  import opened Wrappers
  import opened Text
  import opened Seqs
  import opened JsonValue
  import opened GraphCards

  const DomainKeys: set<string> := {"brain", "chip", "dialogue", "dl", "robot", "video"}

  /** The text of the `AttributeError` raised by `.get` on a value that is
      not a dict, and of the `TypeError` raised by iterating a scalar. */
  const AttributeError: string := "AttributeError"
  const TypeError: string := "TypeError"

  /** The elements a `for x in v` loop visits, for a value that is already
      known to be truthy or an empty list: a list yields its elements; a
      non-empty string or dict yields strings, on which the loop body's
      `.get` raises; any other value is not iterable. */
  function Iterate(v: Json): (r: Result<seq<Json>, string>)
    ensures r.Ok? <==> v.JArr?
    ensures r.Ok? ==> r.value == v.items
  {
    match v
    case JArr(a) => Ok(a)
    case JStr(_) => Err(AttributeError)
    case JObj(_) => Err(AttributeError)
    case _ => Err(TypeError)
  }

  // ------------------------------------------------------------ files

  /** `_files_for(domain)`: the relation file and the rank file of a domain
      key, after trimming and lower-casing; any other key raises. */
  function FilesFor(domain: string): (r: Result<(string, string), string>)
    ensures r.Ok? ==> Lower(Strip(domain)) in DomainKeys
    ensures r.Err? ==> Lower(Strip(domain)) !in DomainKeys
  {
    var d := Lower(Strip(domain));
    if d !in DomainKeys then Err("unknown domain: " + domain)
    else Ok(("relation_" + d + ".json", "rank_table_" + d + ".json"))
  }

  /** Only the six domain keys are accepted, and the two file names carry
      the key between their fixed prefix and suffix. */
  lemma FilesForSpec(domain: string)
    ensures FilesFor(domain).Ok? <==> Lower(Strip(domain)) in DomainKeys
    ensures FilesFor(domain).Ok? ==>
              var (rel, rank) := FilesFor(domain).value;
              exists d :: d in DomainKeys && d == Lower(Strip(domain))
                && rel == "relation_" + d + ".json" && rank == "rank_table_" + d + ".json"
  {
  }

  /** Surrounding white space does not matter. */
  lemma FilesForPadded(pre: string, d: string, post: string)
    requires AllSpace(pre) && AllSpace(post) && d in DomainKeys
    ensures FilesFor(pre + d + post) == Ok(("relation_" + d + ".json", "rank_table_" + d + ".json"))
  {
    StripIgnoresPadding(pre, d, post);
    assert Strip(d) == d by {
      StripTrimmed(d);
    }
    assert Lower(d) == d;
  }

  // -------------------------------------------------------- detail map

  /** The key `_detail_map` files a record under: its `id`, as text,
      trimmed; empty when the record has no usable id. */
  function DetailKey(rec: Json): string
  {
    Strip(Str(Or(Get(rec, "id"), JStr(""))))
  }

  /** The records a rank file holds: the elements of a list, nothing for
      anything else (`_load_json(path) or []`, then `isinstance(data, list)`). */
  function Records(data: Option<Json>): seq<Json>
  {
    match data
    case None => []
    case Some(v) => Elems(v)
  }

  /** What `_detail_map` returns: every record is a dict, and each non-empty
      key maps to the last record with it; `.get` on a record that is not a
      dict raises. */
  function DetailMapOf(recs: seq<Json>): (r: Result<map<string, Json>, string>)
    ensures r.Ok? ==> forall i :: 0 <= i < |recs| ==> recs[i].JObj?
    ensures r.Err? ==> exists i :: 0 <= i < |recs| && !recs[i].JObj?
  {
    if forall i :: 0 <= i < |recs| ==> recs[i].JObj? then Ok(IndexLast(recs, DetailKey))
    else Err(AttributeError)
  }

  /** `_detail_map`: the loop filing the records by key. */
  method DetailMap(data: Option<Json>) returns (r: Result<map<string, Json>, string>)
    ensures r == DetailMapOf(Records(data))
  {
    var recs := Records(data);
    var m: map<string, Json> := map[];
    for i := 0 to |recs|
      invariant forall j :: 0 <= j < i ==> recs[j].JObj?
      invariant m == IndexPrefix(recs, DetailKey, i)
    {
      var rec := recs[i];
      if !rec.JObj? {
        assert !(forall j :: 0 <= j < |recs| ==> recs[j].JObj?);
        return Err(AttributeError);
      }
      IndexPrefixStep(recs, DetailKey, i);
      var did := DetailKey(rec);
      if did != "" {
        m := m[did := rec];
      }
      assert forall j :: 0 <= j < i + 1 ==> recs[j].JObj?;
    }
    assert m == IndexLast(recs, DetailKey);
    return Ok(m);
  }

  /** A key is in the map exactly when some record carries it, and it maps
      to the last such record; records without a key are skipped. */
  lemma DetailMapLastWins(recs: seq<Json>, k: string)
    requires DetailMapOf(recs).Ok?
    ensures k in DetailMapOf(recs).value <==>
              k != "" && exists i :: 0 <= i < |recs| && DetailKey(recs[i]) == k
    ensures k in DetailMapOf(recs).value ==>
              exists i :: 0 <= i < |recs| && DetailKey(recs[i]) == k && DetailMapOf(recs).value[k] == recs[i]
                && forall j :: i < j < |recs| ==> DetailKey(recs[j]) != k
  {
    IndexLastWins(recs, DetailKey, k);
  }

  // --------------------------------------------------------- node kinds

  /** `_kind_from_type` on a text value. */
  function KindFromText(t: string): string
  {
    var s := Strip(t);
    if s in TechTypes then "tech"
    else if s in ProductTypes then "product"
    else if s in CompanyTypes then "company"
    else if s in CountryTypes then "country"
    else "other"
  }

  /** `_kind_from_type(t)`: `(t or "").strip()` raises on a truthy value
      that is not text. */
  function KindFromType(t: Json): (r: Result<string, string>)
    ensures r.Err? ==> Truthy(t) && !t.JStr?
    ensures r.Ok? ==> (!Truthy(t) || t.JStr?) && r.value in {"tech", "product", "company", "country", "other"}
  {
    if !Truthy(t) then Ok(KindFromText(""))
    else if t.JStr? then Ok(KindFromText(t.s))
    else Err(AttributeError)
  }

  /** The kind is one of five names; each of the four node kinds is chosen
      exactly by the type labels the graph card loops accept for it, and
      everything else, the empty type included, is `other`. */
  lemma KindFromTextSpec(t: string)
    ensures KindFromText(t) in {"tech", "product", "company", "country", "other"}
    ensures KindFromText(t) == "tech" <==> Strip(t) in TypesOf(Tech)
    ensures KindFromText(t) == "product" <==> Strip(t) in TypesOf(Product)
    ensures KindFromText(t) == "company" <==> Strip(t) in TypesOf(Company)
    ensures KindFromText(t) == "country" <==> Strip(t) in TypesOf(Country)
    ensures KindFromText(t) == "other" <==>
              forall k: Kind :: Strip(t) !in TypesOf(k)
    ensures KindFromText("") == "other"
  {
    var s := Strip(t);
    assert Strip("") == "";
    if KindFromText(t) == "other" {
      forall k: Kind
        ensures s !in TypesOf(k)
      {
      }
    }
  }

  // --------------------------------------------------------- truncation

  const Ellipsis: char := '…'
  const DescLimit: nat := 140

  /** `_short(s, n)` after `str(s).strip()`: a text of at most `n`
      characters is kept, a longer one is cut to `n` characters, trimmed on
      the right and marked with an ellipsis. */
  function ShortText(s: string, n: nat): string
  {
    if |s| <= n then s else StripRight(s[..n]) + [Ellipsis]
  }

  /** `_short(v)` on a JSON value: a falsy value gives "", anything else
      at most one character more than the limit. */
  function Short(v: Json, n: nat): (r: string)
    ensures !Truthy(v) ==> r == ""
    ensures |r| <= n + 1
  {
    if !Truthy(v) then ""
    else
      ShortTextSpec(Strip(Str(v)), n);
      ShortText(Strip(Str(v)), n)
  }

  /** A short text is kept; a long one becomes a prefix of at most `n`
      characters, without trailing white space, then the ellipsis; either
      way the result has at most `n + 1` characters. */
  lemma ShortTextSpec(s: string, n: nat)
    ensures |s| <= n ==> ShortText(s, n) == s
    ensures |s| > n ==>
              var r := ShortText(s, n);
              var body := r[..|r| - 1];
              && |r| >= 1 && r[|r| - 1] == Ellipsis
              && |body| <= n && body == s[..|body|]
              && (body != [] ==> !IsSpace(body[|body| - 1]))
              && AllSpace(s[|body|..n])
    ensures |ShortText(s, n)| <= n + 1
  {
    if |s| > n {
      StripRightTrims(s[..n]);
      var body := StripRight(s[..n]);
      assert s[..n][..|body|] == s[..|body|];
      assert s[..n][|body|..] == s[|body|..n];
    }
  }

  // ------------------------------------------------------- graph view

  datatype NodeOut = NodeOut(id: Json, name: Json, kind: string, desc: string)
  datatype EdgeOut = EdgeOut(source: Json, target: Json, edgeLabel: Json)
  datatype GraphView = GraphView(nodes: seq<NodeOut>, edges: seq<EdgeOut>)

  /** `_load_json(path) or {}` */
  function RelationDoc(rel: Option<Json>): Json
  {
    match rel
    case None => EmptyObject
    case Some(v) => Or(v, EmptyObject)
  }

  /** `rel.get("nodes") or rel.get("Nodes") or []`, still to be iterated. */
  function NodesField(rel: Json): Result<Json, string>
  {
    if !rel.JObj? then Err(AttributeError)
    else Ok(Or(Or(Get(rel, "nodes"), Get(rel, "Nodes")), EmptyList))
  }

  /** `rel.get("edges") or rel.get("Edges") or rel.get("links") or []`. */
  function EdgesField(rel: Json): Result<Json, string>
  {
    if !rel.JObj? then Err(AttributeError)
    else Ok(Or(Or(Or(Get(rel, "edges"), Get(rel, "Edges")), Get(rel, "links")), EmptyList))
  }

  /** One output node: the name falls back to the id, the kind comes from
      the type, and the description is the rank record's abstract, else the
      node's own, shortened. */
  function ProjectNode(n: Json, details: map<string, Json>): (r: Result<NodeOut, string>)
    ensures !n.JObj? ==> r.Err?
    ensures r.Ok? ==> r.value.id == Get(n, "id") && |r.value.desc| <= DescLimit + 1
  {
    if !n.JObj? then Err(AttributeError)
    else
      var nid := Get(n, "id");
      match KindFromType(Get(n, "type"))
      case Err(e) => Err(e)
      case Ok(kind) =>
        var det := if Str(nid) in details then details[Str(nid)] else JNull;
        var desc := Short(Or(Or(Get(Or(det, EmptyObject), "abstract"), Get(n, "abstract")), JStr("")), DescLimit);
        Ok(NodeOut(nid, Or(Get(n, "name"), nid), kind, desc))
  }

  /** One output edge; the label is `relation`, else `label`, else "". */
  function ProjectEdge(e: Json): (r: Result<EdgeOut, string>)
    ensures r.Ok? ==> e.JObj? && r.value.source == Get(e, "source") && r.value.target == Get(e, "target")
    ensures r.Err? ==> !e.JObj?
  {
    if !e.JObj? then Err(AttributeError)
    else Ok(EdgeOut(Get(e, "source"), Get(e, "target"), Or(Or(Get(e, "relation"), Get(e, "label")), JStr(""))))
  }

  /** The node loop over the first `i` nodes. */
  function ProjectNodes(nodes: seq<Json>, details: map<string, Json>, i: nat): Result<seq<NodeOut>, string>
    requires i <= |nodes|
  {
    MapAll(nodes, n => ProjectNode(n, details), i)
  }

  /** The edge loop over the first `i` edges. */
  function ProjectEdges(edges: seq<Json>, i: nat): Result<seq<EdgeOut>, string>
    requires i <= |edges|
  {
    MapAll(edges, ProjectEdge, i)
  }

  /** The node loop succeeds exactly when every node projects, and then
      gives one output node per input node, in input order. */
  lemma ProjectNodesSpec(nodes: seq<Json>, details: map<string, Json>, i: nat)
    requires i <= |nodes|
    ensures ProjectNodes(nodes, details, i).Ok? <==>
              forall j :: 0 <= j < i ==> ProjectNode(nodes[j], details).Ok?
    ensures ProjectNodes(nodes, details, i).Ok? ==>
              var out := ProjectNodes(nodes, details, i).value;
              |out| == i && forall j :: 0 <= j < i ==> out[j] == ProjectNode(nodes[j], details).value
  {
    MapAllSpec(nodes, n => ProjectNode(n, details), i);
  }

  /** The edge loop succeeds exactly when every edge is a dict, and then
      gives one output edge per input edge, in input order. */
  lemma ProjectEdgesSpec(edges: seq<Json>, i: nat)
    requires i <= |edges|
    ensures ProjectEdges(edges, i).Ok? <==> forall j :: 0 <= j < i ==> edges[j].JObj?
    ensures ProjectEdges(edges, i).Ok? ==>
              var out := ProjectEdges(edges, i).value;
              |out| == i && forall j :: 0 <= j < i ==> out[j] == ProjectEdge(edges[j]).value
  {
    MapAllSpec(edges, ProjectEdge, i);
  }

  /** A projected node keeps the id, takes the name or else the id, and has
      a description of at most 141 characters; a projected edge keeps its
      ends and takes `relation`, else `label`, else "". */
  lemma ProjectSpec(n: Json, e: Json, details: map<string, Json>)
    ensures ProjectNode(n, details).Ok? ==>
              var o := ProjectNode(n, details).value;
              && o.id == Get(n, "id")
              && (Truthy(Get(n, "name")) ==> o.name == Get(n, "name"))
              && (!Truthy(Get(n, "name")) ==> o.name == Get(n, "id"))
              && |o.desc| <= DescLimit + 1
              && o.kind in {"tech", "product", "company", "country", "other"}
    ensures ProjectEdge(e).Ok? ==>
              var o := ProjectEdge(e).value;
              && o.source == Get(e, "source") && o.target == Get(e, "target")
              && (Truthy(Get(e, "relation")) ==> o.edgeLabel == Get(e, "relation"))
              && (!Truthy(Get(e, "relation")) && Truthy(Get(e, "label")) ==> o.edgeLabel == Get(e, "label"))
              && (!Truthy(Get(e, "relation")) && !Truthy(Get(e, "label")) ==> o.edgeLabel == JStr(""))
  {
    if ProjectNode(n, details).Ok? {
      var nid := Get(n, "id");
      var det := if Str(nid) in details then details[Str(nid)] else JNull;
      var t := Get(n, "type");
      KindFromTextSpec(if t.JStr? then t.s else "");
    }
  }

  /** What `load_graph_for_domain` returns or raises, in the order the
      source meets its steps. */
  function GraphFor(domain: string, rel: Option<Json>, det: Option<Json>): (r: Result<GraphView, string>)
    ensures FilesFor(domain).Err? ==> r == Err(FilesFor(domain).error)
    ensures r.Ok? ==> FilesFor(domain).Ok? && DetailMapOf(Records(det)).Ok?
  {
    match FilesFor(domain)
    case Err(e) => Err(e)
    case Ok(_) =>
      var doc := RelationDoc(rel);
      match NodesField(doc)
      case Err(e) => Err(e)
      case Ok(nv) =>
        match EdgesField(doc)
        case Err(e) => Err(e)
        case Ok(ev) =>
          match DetailMapOf(Records(det))
          case Err(e) => Err(e)
          case Ok(details) =>
            match Iterate(nv)
            case Err(e) => Err(e)
            case Ok(nodes) =>
              match ProjectNodes(nodes, details, |nodes|)
              case Err(e) => Err(e)
              case Ok(outNodes) =>
                match Iterate(ev)
                case Err(e) => Err(e)
                case Ok(edges) =>
                  match ProjectEdges(edges, |edges|)
                  case Err(e) => Err(e)
                  case Ok(outEdges) => Ok(GraphView(outNodes, outEdges))
  }

  /** `load_graph_for_domain(domain)` with the two files' contents. */
  method LoadGraphForDomain(domain: string, rel: Option<Json>, det: Option<Json>) returns (r: Result<GraphView, string>)
    ensures r == GraphFor(domain, rel, det)
  {
    var files := FilesFor(domain);
    if files.Err? {
      return Err(files.error);
    }
    var doc := RelationDoc(rel);
    var nv := NodesField(doc);
    if nv.Err? {
      return Err(nv.error);
    }
    var ev := EdgesField(doc);
    if ev.Err? {
      return Err(ev.error);
    }
    var details := DetailMap(det);
    if details.Err? {
      return Err(details.error);
    }
    var nodes := Iterate(nv.value);
    if nodes.Err? {
      return Err(nodes.error);
    }
    var outNodes := NodeLoop(nodes.value, details.value);
    if outNodes.Err? {
      return Err(outNodes.error);
    }
    var edges := Iterate(ev.value);
    if edges.Err? {
      return Err(edges.error);
    }
    var outEdges := EdgeLoop(edges.value);
    if outEdges.Err? {
      return Err(outEdges.error);
    }
    return Ok(GraphView(outNodes.value, outEdges.value));
  }

  /** The `out_nodes` loop. */
  method NodeLoop(nodes: seq<Json>, details: map<string, Json>) returns (r: Result<seq<NodeOut>, string>)
    ensures r == ProjectNodes(nodes, details, |nodes|)
  {
    var project := n => ProjectNode(n, details);
    var outNodes: seq<NodeOut> := [];
    for i := 0 to |nodes|
      invariant MapAll(nodes, project, i) == Ok(outNodes)
    {
      var o := project(nodes[i]);
      MapAllStep(nodes, project, i, outNodes);
      if o.Err? {
        MapAllOnceFailed(nodes, project, i + 1, |nodes|);
        return Err(o.error);
      }
      outNodes := outNodes + [o.value];
    }
    return Ok(outNodes);
  }

  /** The `out_edges` loop. */
  method EdgeLoop(edges: seq<Json>) returns (r: Result<seq<EdgeOut>, string>)
    ensures r == ProjectEdges(edges, |edges|)
  {
    var outEdges: seq<EdgeOut> := [];
    for k := 0 to |edges|
      invariant ProjectEdges(edges, k) == Ok(outEdges)
    {
      var o := ProjectEdge(edges[k]);
      MapAllStep(edges, ProjectEdge, k, outEdges);
      if o.Err? {
        MapAllOnceFailed(edges, ProjectEdge, k + 1, |edges|);
        return Err(o.error);
      }
      outEdges := outEdges + [o.value];
    }
    return Ok(outEdges);
  }

  /** With well-formed files (a dict whose node and edge lists, under
      whichever key spelling the lookup settles on, are lists, and dict
      records), the view has one node per input node and one edge per
      input edge, in input order. */
  lemma GraphForShape(domain: string, rel: Json, det: Option<Json>, nodes: seq<Json>, edges: seq<Json>)
    requires FilesFor(domain).Ok?
    requires rel.JObj? && NodesField(rel) == Ok(JArr(nodes)) && EdgesField(rel) == Ok(JArr(edges))
    requires DetailMapOf(Records(det)).Ok?
    requires forall j :: 0 <= j < |nodes| ==> ProjectNode(nodes[j], DetailMapOf(Records(det)).value).Ok?
    requires forall j :: 0 <= j < |edges| ==> edges[j].JObj?
    ensures GraphFor(domain, Some(rel), det).Ok?
    ensures var g := GraphFor(domain, Some(rel), det).value;
            && |g.nodes| == |nodes| && |g.edges| == |edges|
            && (forall j :: 0 <= j < |nodes| ==> g.nodes[j] == ProjectNode(nodes[j], DetailMapOf(Records(det)).value).value)
            && (forall j :: 0 <= j < |edges| ==> g.edges[j] == ProjectEdge(edges[j]).value)
  {
    var details := DetailMapOf(Records(det)).value;
    ProjectNodesSpec(nodes, details, |nodes|);
    ProjectEdgesSpec(edges, |edges|);
  }

  // ------------------------------------------------------- node detail

  /** The record the fallback builds from a relation node. */
  function FallbackRecord(n: Json): Json
  {
    JObj(map[
      "id" := Get(n, "id"),
      "name" := Or(Get(n, "name"), Get(n, "id")),
      "type" := Get(n, "type"),
      "field" := Or(Get(n, "field"), JStr("")),
      "country" := Or(Get(n, "country"), JStr("")),
      "enterprise" := Or(Get(n, "enterprise"), JStr("")),
      "year" := Or(Get(n, "year"), JStr("")),
      "abstract" := Or(Get(n, "abstract"), JStr("")),
      "source" := EmptyList])
  }

  /** The fallback loop over the relation nodes from position `i` on: the
      first node whose id, as text, is `nodeId`; a node that is not a dict
      raises when reached. */
  function FirstNodeFrom(nodes: seq<Json>, nodeId: string, i: nat): Result<Option<Json>, string>
    requires i <= |nodes|
    decreases |nodes| - i
  {
    if i == |nodes| then Ok(None)
    else if !nodes[i].JObj? then Err(AttributeError)
    else if Str(Get(nodes[i], "id")) == nodeId then Ok(Some(FallbackRecord(nodes[i])))
    else FirstNodeFrom(nodes, nodeId, i + 1)
  }

  /** What `load_node_detail` returns or raises. */
  function NodeDetailOf(domain: string, nodeId: string, rel: Option<Json>, det: Option<Json>): (r: Result<Option<Json>, string>)
    ensures FilesFor(domain).Err? ==> r == Err(FilesFor(domain).error)
    ensures r.Ok? ==> FilesFor(domain).Ok? && DetailMapOf(Records(det)).Ok?
  {
    match FilesFor(domain)
    case Err(e) => Err(e)
    case Ok(_) =>
      var doc := RelationDoc(rel);
      match DetailMapOf(Records(det))
      case Err(e) => Err(e)
      case Ok(details) =>
        if nodeId in details && Truthy(details[nodeId]) then Ok(Some(details[nodeId]))
        else
          match NodesField(doc)
          case Err(e) => Err(e)
          case Ok(nv) =>
            match Iterate(nv)
            case Err(e) => Err(e)
            case Ok(nodes) => FirstNodeFrom(nodes, nodeId, 0)
  }

  /** `load_node_detail(domain, node_id)` with the two files' contents. */
  method LoadNodeDetail(domain: string, nodeId: string, rel: Option<Json>, det: Option<Json>)
    returns (r: Result<Option<Json>, string>)
    ensures r == NodeDetailOf(domain, nodeId, rel, det)
  {
    var files := FilesFor(domain);
    if files.Err? {
      return Err(files.error);
    }
    var doc := RelationDoc(rel);
    var details := DetailMap(det);
    if details.Err? {
      return Err(details.error);
    }
    if nodeId in details.value && Truthy(details.value[nodeId]) {
      return Ok(Some(details.value[nodeId]));
    }
    var nv := NodesField(doc);
    if nv.Err? {
      return Err(nv.error);
    }
    var nodes := Iterate(nv.value);
    if nodes.Err? {
      return Err(nodes.error);
    }
    r := FallbackLoop(nodes.value, nodeId);
  }

  /** The fallback loop with its early returns. */
  method FallbackLoop(nodes: seq<Json>, nodeId: string) returns (r: Result<Option<Json>, string>)
    ensures r == FirstNodeFrom(nodes, nodeId, 0)
  {
    var i := 0;
    while i < |nodes|
      invariant 0 <= i <= |nodes|
      invariant FirstNodeFrom(nodes, nodeId, 0) == FirstNodeFrom(nodes, nodeId, i)
    {
      var n := nodes[i];
      if !n.JObj? {
        return Err(AttributeError);
      }
      if Str(Get(n, "id")) == nodeId {
        return Ok(Some(FallbackRecord(n)));
      }
      i := i + 1;
    }
    return Ok(None);
  }

  /** The fallback finds the first matching node, provided every node
      before it is a dict, and finds none when no node matches. */
  lemma {:induction false} FirstNodeSpec(nodes: seq<Json>, nodeId: string, i: nat)
    requires i <= |nodes|
    requires forall j :: i <= j < |nodes| ==> nodes[j].JObj?
    ensures FirstNodeFrom(nodes, nodeId, i).Ok?
    ensures FirstNodeFrom(nodes, nodeId, i).value.None? <==>
              forall j :: i <= j < |nodes| ==> Str(Get(nodes[j], "id")) != nodeId
    ensures FirstNodeFrom(nodes, nodeId, i).value.Some? ==>
              exists j :: i <= j < |nodes| && Str(Get(nodes[j], "id")) == nodeId
                && (forall m :: i <= m < j ==> Str(Get(nodes[m], "id")) != nodeId)
                && FirstNodeFrom(nodes, nodeId, i).value.value == FallbackRecord(nodes[j])
    decreases |nodes| - i
  {
    if i < |nodes| {
      if Str(Get(nodes[i], "id")) == nodeId {
        assert FirstNodeFrom(nodes, nodeId, i) == Ok(Some(FallbackRecord(nodes[i])));
      } else {
        FirstNodeSpec(nodes, nodeId, i + 1);
        var r := FirstNodeFrom(nodes, nodeId, i + 1);
        assert FirstNodeFrom(nodes, nodeId, i) == r;
        if r.value.Some? {
          var j :| i + 1 <= j < |nodes| && Str(Get(nodes[j], "id")) == nodeId
                   && (forall m :: i + 1 <= m < j ==> Str(Get(nodes[m], "id")) != nodeId)
                   && r.value.value == FallbackRecord(nodes[j]);
          assert forall m :: i <= m < j ==> Str(Get(nodes[m], "id")) != nodeId;
        }
      }
    }
  }

  /** A truthy rank record for the id wins; otherwise the answer comes from
      the relation nodes. */
  lemma NodeDetailRankFirst(domain: string, nodeId: string, rel: Option<Json>, det: Option<Json>)
    requires FilesFor(domain).Ok? && DetailMapOf(Records(det)).Ok?
    ensures var details := DetailMapOf(Records(det)).value;
            nodeId in details && Truthy(details[nodeId]) ==>
              NodeDetailOf(domain, nodeId, rel, det) == Ok(Some(details[nodeId]))
    ensures var details := DetailMapOf(Records(det)).value;
            !(nodeId in details && Truthy(details[nodeId])) ==>
              NodeDetailOf(domain, nodeId, rel, det).Ok? && NodeDetailOf(domain, nodeId, rel, det).value.Some? ==>
                exists n: Json :: n.JObj? && Str(Get(n, "id")) == nodeId
                  && NodeDetailOf(domain, nodeId, rel, det).value.value == FallbackRecord(n)
  {
    var details := DetailMapOf(Records(det)).value;
    if !(nodeId in details && Truthy(details[nodeId])) {
      var doc := RelationDoc(rel);
      if NodesField(doc).Ok? && Iterate(NodesField(doc).value).Ok? {
        var nodes := Iterate(NodesField(doc).value).value;
        FirstNodeFound(nodes, nodeId, 0);
      }
    }
  }

  /** Whatever the fallback loop returns comes from a dict node with the id. */
  lemma {:induction false} FirstNodeFound(nodes: seq<Json>, nodeId: string, i: nat)
    requires i <= |nodes|
    ensures FirstNodeFrom(nodes, nodeId, i).Ok? && FirstNodeFrom(nodes, nodeId, i).value.Some? ==>
              exists n: Json :: n.JObj? && Str(Get(n, "id")) == nodeId
                && FirstNodeFrom(nodes, nodeId, i).value.value == FallbackRecord(n)
    decreases |nodes| - i
  {
    if i < |nodes| && nodes[i].JObj? && Str(Get(nodes[i], "id")) != nodeId {
      FirstNodeFound(nodes, nodeId, i + 1);
    }
  }
}
