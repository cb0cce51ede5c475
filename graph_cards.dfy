/** The cards `build_items_from_graphs` emits (services/graph_repo.py): one
    per tech, product, company and country node of a relation file, and one
    per rank row whose id no relation node carries. */
module GraphCards {
  import opened Wrappers
  import opened JsonValue
  import opened Text
  import opened Order
  import opened Seqs
  import opened GraphSources

  // --------------------------------------------------------------- kinds

  datatype Kind = Tech | Product | Company | Country

  /** The `kind` label a card carries. */
  function Label(k: Kind): (r: string)
    ensures r != ""
  {
    match k
    case Tech => "关键技术"
    case Product => "关键产品"
    case Company => "企业"
    case Country => "国家"
  }

  const TechTypes: set<string> := {"技术", "tech", "Technology"}
  const ProductTypes: set<string> := {"产品", "product", "Product"}
  const CompanyTypes: set<string> := {"企业", "company", "Company", "enterprise", "Enterprise"}
  const CountryTypes: set<string> := {"国家", "country", "Country"}

  /** `(n.get("type") or "").strip()` */
  function NodeType(n: Json): string
  {
    Strip(TextOf(Get(n, "type")))
  }

  /** The type labels the card loop for `k` accepts. */
  function TypesOf(k: Kind): set<string>
  {
    match k
    case Tech => TechTypes
    case Product => ProductTypes
    case Company => CompanyTypes
    case Country => CountryTypes
  }

  /** Distinct kinds have distinct labels, so the label decides the kind. */
  lemma LabelInjective(k1: Kind, k2: Kind)
    ensures Label(k1) == Label(k2) ==> k1 == k2
  {
  }

  // --------------------------------------------------------------- cards

  /** `_scores` (absent on company, country and rank-only cards, where
      every slot reads as None). */
  datatype Scores = Scores(article: Json, patent: Json, report: Json, key: Json)

  const NoScores: Scores := Scores(JNull, JNull, JNull, JNull)

  /** `_meta` (absent where `_scores` is). */
  datatype Meta = Meta(field: Json, country: Json, enterprise: Json, year: Json, source: Json)

  const NoMeta: Meta := Meta(JNull, JNull, JNull, JNull, JNull)

  /** One item; a missing `_companies`, `_countries` or `_techs` key is an
      empty list. */
  datatype Card = Card(
    id: int,
    name: string,
    kind: Kind,
    org: seq<ChipLine>,
    date: string,
    abstractText: string,
    nodeId: string,
    source: string,
    aliases: seq<string>,
    companies: seq<string>,
    countries: seq<string>,
    techs: seq<string>,
    scores: Scores,
    meta: Meta)

  const NoDate: string := "—"
  const NoOrg: string := "-"

  /** One `_chips_html` line of an org cell, kept unrendered: a label and
      its names. `RenderOrg` turns a card's lines into the `org` string. */
  datatype ChipLine = ChipLine(lbl: string, names: seq<string>)

  /** What the card loops of one relation file see: its file name, the
      rank index, its `id2node` map and its three edge indexes. */
  datatype Ctx = Ctx(file: string, ix: RankIndex, nodesById: map<string, Json>, edges: EdgeIndex)

  /** `rank_by_id.get(rid, {})` */
  function RowFor(ix: RankIndex, rid: string): (r: Json)
    ensures rid in ix.byId ==> r == ix.byId[rid]
    ensures rid !in ix.byId ==> r == EmptyObject
  {
    if rid in ix.byId then ix.byId[rid] else EmptyObject
  }

  function RowText(row: Json, key: string): string
  {
    TextOf(Get(row, key))
  }

  /** Python's `a or b` on two strings. */
  function TextOr(a: string, b: string): (r: string)
    ensures r == a || r == b
    ensures r == "" <==> a == "" && b == ""
  {
    if a != "" then a else b
  }

  /** `row and id_source_map.get(rid, source_name) or source_name` */
  function CardSource(ctx: Ctx, rid: string): (r: string)
    ensures r == ctx.file || (rid in ctx.ix.source && r == ctx.ix.source[rid])
    ensures !Truthy(RowFor(ctx.ix, rid)) ==> r == ctx.file
  {
    var row := RowFor(ctx.ix, rid);
    var s := if rid in ctx.ix.source then ctx.ix.source[rid] else ctx.file;
    if Truthy(row) && s != "" then s else ctx.file
  }

  /** The alias list of a relation card: the rank name when it is set and
      differs from the card name. */
  function RankAlias(row: Json, name: string): seq<string>
  {
    var rname := RowText(row, "name");
    if rname != "" && rname != name then [rname] else []
  }

  function RowScores(row: Json): Scores
  {
    Scores(Get(row, "article_score"), Get(row, "patent_score"), Get(row, "report_score"), Get(row, "key_score"))
  }

  function FirstOr(names: seq<string>): (r: Json)
    ensures names == [] <==> r == JNull
  {
    if names != [] then JStr(names[0]) else JNull
  }

  function TechCard(n: Json, ctx: Ctx, id: int): Card
  {
    var name := TextOf(Get(n, "name"));
    var rid := NodeId(n);
    var row := RowFor(ctx.ix, rid);
    Card(id, name, Tech, [], NoDate,
         TextOr(RowText(row, "abstract"), "技术要点：" + name),
         rid, CardSource(ctx, rid), RankAlias(row, name), [], [], [],
         RowScores(row),
         Meta(Get(row, "field"), Get(row, "country"), Get(row, "enterprise"), Get(row, "year"), Get(row, "source")))
  }

  /** `acc |= ys` on sorted views of sets. */
  function UnionInto(acc: seq<string>, ys: seq<string>): (r: seq<string>)
    ensures |r| <= |acc| + |ys|
    decreases |ys|
  {
    if ys == [] then acc else UnionInto(Insert(acc, ys[0]), ys[1..])
  }

  lemma {:induction false} UnionIntoMembers(acc: seq<string>, ys: seq<string>)
    ensures forall y :: y in UnionInto(acc, ys) <==> y in acc || y in ys
    decreases |ys|
  {
    if ys != [] {
      InsertMembers(acc, ys[0]);
      UnionIntoMembers(Insert(acc, ys[0]), ys[1..]);
      assert forall y :: y in ys <==> y == ys[0] || y in ys[1..];
    }
  }

  lemma {:induction false} UnionIntoSorted(acc: seq<string>, ys: seq<string>)
    requires StrictlySorted(acc)
    ensures StrictlySorted(UnionInto(acc, ys))
    decreases |ys|
  {
    if ys != [] {
      InsertSorted(acc, ys[0]);
      UnionIntoSorted(Insert(acc, ys[0]), ys[1..]);
    }
  }

  /** `country_ids`: the union of the country sets of the given companies,
      sorted. */
  function CountryIds(countries: map<string, seq<string>>, companyIds: seq<string>): seq<string>
  {
    if companyIds == [] then []
    else UnionInto(CountryIds(countries, companyIds[..|companyIds| - 1]), Targets(countries, companyIds[|companyIds| - 1]))
  }

  lemma {:induction false} CountryIdsSorted(countries: map<string, seq<string>>, companyIds: seq<string>)
    ensures StrictlySorted(CountryIds(countries, companyIds))
  {
    if companyIds != [] {
      var pre := companyIds[..|companyIds| - 1];
      CountryIdsSorted(countries, pre);
      UnionIntoSorted(CountryIds(countries, pre), Targets(countries, companyIds[|companyIds| - 1]));
    }
  }

  /** The country ids of a product are the union of its companies'. */
  lemma {:induction false} CountryIdsMembers(countries: map<string, seq<string>>, companyIds: seq<string>)
    ensures forall y :: y in CountryIds(countries, companyIds) <==>
              exists c :: c in companyIds && y in Targets(countries, c)
  {
    if companyIds != [] {
      var pre := companyIds[..|companyIds| - 1];
      var last := companyIds[|companyIds| - 1];
      CountryIdsMembers(countries, pre);
      UnionIntoMembers(CountryIds(countries, pre), Targets(countries, last));
      assert forall c :: c in companyIds <==> c in pre || c == last;
    }
  }

  /** The `lines` of a product (and of a rank-only product): one chips
      line per non-empty list, companies first, then countries, then
      techs. */
  function OrgLines(companies: seq<string>, countries: seq<string>, techs: seq<string>): (r: seq<ChipLine>)
    ensures r == [] <==> companies == [] && countries == [] && techs == []
  {
    (if companies != [] then [ChipLine("企业", companies)] else [])
    + (if countries != [] then [ChipLine("国家", countries)] else [])
    + (if techs != [] then [ChipLine("技术", techs)] else [])
  }

  function RenderLines(lines: seq<ChipLine>): string
  {
    if lines == [] then "" else ChipsHtml(lines[0].lbl, lines[0].names) + RenderLines(lines[1..])
  }

  /** `"".join(lines) if lines else "-"` */
  function RenderOrg(lines: seq<ChipLine>): string
  {
    if lines == [] then NoOrg else RenderLines(lines)
  }

  /** `names.append(x)` guarded by `if x and x not in names`. */
  function AppendNew(names: seq<string>, x: string): (r: seq<string>)
    ensures x != "" && x !in names ==> r == names + [x]
    ensures !(x != "" && x !in names) ==> r == names
  {
    if x != "" && x !in names then names + [x] else names
  }

  /** The product `org_html` exactly as the loop builds it: rendered from
      the edge lists, then re-rendered after each rank append. */
  function ProductOrgAsBuilt(compNames: seq<string>, countryNames: seq<string>, techNames: seq<string>,
                             rComp: string, rCountry: string): string
  {
    var org0 := RenderOrg(OrgLines(compNames, countryNames, techNames));
    var techLine := if techNames != [] then ChipsHtml("技术", techNames) else "";
    var comps := AppendNew(compNames, rComp);
    var org1 :=
      if rComp != "" && rComp !in compNames then
        ChipsHtml("企业", comps) + (if countryNames != [] then ChipsHtml("国家", countryNames) else "") + techLine
      else org0;
    if rCountry != "" && rCountry !in countryNames then
      ChipsHtml("企业", comps) + ChipsHtml("国家", countryNames + [rCountry]) + techLine
    else org1
  }

  function ProductCard(n: Json, ctx: Ctx, id: int): Card
  {
    var pid := NodeId(n);
    var name := TextOf(Get(n, "name"));
    var compIds := Targets(ctx.edges.companies, pid);
    var compNames := Names(ctx.nodesById, compIds);
    var countryNames := Names(ctx.nodesById, CountryIds(ctx.edges.countries, compIds));
    var techNames := Names(ctx.nodesById, Targets(ctx.edges.techs, pid));
    var row := RowFor(ctx.ix, pid);
    var rComp := RowText(row, "enterprise");
    var rCountry := RowText(row, "country");
    var comps := AppendNew(compNames, rComp);
    var countries := AppendNew(countryNames, rCountry);
    Card(id, name, Product, OrgLines(comps, countries, techNames), NoDate, RowText(row, "abstract"),
         pid, CardSource(ctx, pid), RankAlias(row, name), comps, countries, techNames,
         RowScores(row),
         Meta(Get(row, "field"), Or(Get(row, "country"), FirstOr(countries)),
              Or(Get(row, "enterprise"), FirstOr(comps)), Get(row, "year"), Get(row, "source")))
  }

  function CompanyCard(n: Json, ctx: Ctx, id: int): Card
  {
    var name := TextOf(Get(n, "name"));
    var rid := NodeId(n);
    var countries := Names(ctx.nodesById, Targets(ctx.edges.countries, rid));
    var org := OrgLines([], countries, []);
    var row := RowFor(ctx.ix, rid);
    Card(id, name, Company, org, NoDate, TextOr(RowText(row, "abstract"), "企业：" + name),
         rid, CardSource(ctx, rid), RankAlias(row, name), [], [], [], NoScores, NoMeta)
  }

  function CountryCard(n: Json, ctx: Ctx, id: int): Card
  {
    var name := TextOr(TextOf(Get(n, "name")), TextOr(NodeId(n), "国家"));
    var rid := NodeId(n);
    var row := RowFor(ctx.ix, rid);
    Card(id, name, Country, [], NoDate, TextOr(RowText(row, "abstract"), "国家：" + name),
         rid, CardSource(ctx, rid), RankAlias(row, name), [], [], [], NoScores, NoMeta)
  }

  function NodeCard(k: Kind, n: Json, ctx: Ctx, id: int): (c: Card)
    ensures c.id == id && c.kind == k && c.nodeId == NodeId(n)
  {
    match k
    case Tech => TechCard(n, ctx, id)
    case Product => ProductCard(n, ctx, id)
    case Company => CompanyCard(n, ctx, id)
    case Country => CountryCard(n, ctx, id)
  }

  // ------------------------------------------------------ card properties

  /** A relation card carries at most one alias: the rank name, exactly
      when that name is set and differs from the card name; so the alias
      list never holds the card's own name. */
  lemma NodeCardAliases(k: Kind, n: Json, ctx: Ctx, id: int)
    ensures var c := NodeCard(k, n, ctx, id);
            var rname := RowText(RowFor(ctx.ix, NodeId(n)), "name");
            && (c.aliases == [rname] <==> rname != "" && rname != c.name)
            && (c.aliases != [rname] ==> c.aliases == [])
            && c.name !in c.aliases
  {
  }

  /** The product roll-up: company names follow the sorted company ids,
      country ids are the union over those companies, and the rank
      `enterprise` / `country` values are appended only when new, so they
      add no duplicate; the org line is the chips of the final lists. */
  lemma ProductRollUp(n: Json, ctx: Ctx, id: int)
    requires ValidEdges(ctx.edges)
    ensures var c := ProductCard(n, ctx, id);
            var pid := NodeId(n);
            var compIds := Targets(ctx.edges.companies, pid);
            var base := Names(ctx.nodesById, compIds);
            var rComp := RowText(RowFor(ctx.ix, pid), "enterprise");
            && StrictlySorted(compIds)
            && (rComp != "" && rComp !in base ==> c.companies == base + [rComp])
            && (!(rComp != "" && rComp !in base) ==> c.companies == base)
            && (Distinct(base) ==> Distinct(c.companies))
            && c.techs == Names(ctx.nodesById, Targets(ctx.edges.techs, pid))
            && RenderOrg(c.org) ==
                 ProductOrgAsBuilt(base, Names(ctx.nodesById, CountryIds(ctx.edges.countries, compIds)),
                                   c.techs, rComp, RowText(RowFor(ctx.ix, pid), "country"))
  {
    var c := ProductCard(n, ctx, id);
    var pid := NodeId(n);
    var base := Names(ctx.nodesById, Targets(ctx.edges.companies, pid));
    var rComp := RowText(RowFor(ctx.ix, pid), "enterprise");
    if Distinct(base) && rComp != "" && rComp !in base {
      AppendNewDistinct(base, rComp);
    }
    ProductOrgAsBuiltIsFinalLines(base, Names(ctx.nodesById, CountryIds(ctx.edges.countries, Targets(ctx.edges.companies, pid))),
                                  c.techs, rComp, RowText(RowFor(ctx.ix, pid), "country"));
  }

  /** The country half of the roll-up. */
  lemma ProductCountries(n: Json, ctx: Ctx, id: int)
    ensures var c := ProductCard(n, ctx, id);
            var pid := NodeId(n);
            var ids := CountryIds(ctx.edges.countries, Targets(ctx.edges.companies, pid));
            var base := Names(ctx.nodesById, ids);
            var rCountry := RowText(RowFor(ctx.ix, pid), "country");
            && StrictlySorted(ids)
            && (forall y :: y in ids <==>
                  exists co :: co in Targets(ctx.edges.companies, pid) && y in Targets(ctx.edges.countries, co))
            && (rCountry != "" && rCountry !in base ==> c.countries == base + [rCountry])
            && (!(rCountry != "" && rCountry !in base) ==> c.countries == base)
            && (Distinct(base) ==> Distinct(c.countries))
  {
    var c := ProductCard(n, ctx, id);
    var pid := NodeId(n);
    var base := Names(ctx.nodesById, CountryIds(ctx.edges.countries, Targets(ctx.edges.companies, pid)));
    var rCountry := RowText(RowFor(ctx.ix, pid), "country");
    CountryIdsMembers(ctx.edges.countries, Targets(ctx.edges.companies, pid));
    CountryIdsSorted(ctx.edges.countries, Targets(ctx.edges.companies, pid));
    if Distinct(base) && rCountry != "" && rCountry !in base {
      AppendNewDistinct(base, rCountry);
    }
  }

  lemma AppendNewDistinct(s: seq<string>, x: string)
    requires Distinct(s) && x !in s
    ensures Distinct(s + [x])
  {
    forall i, j | 0 <= i < j < |s + [x]| ensures (s + [x])[i] != (s + [x])[j] {
      if j == |s| {
        assert (s + [x])[i] == s[i];
      }
    }
  }

  lemma {:induction false} RenderLinesAppend(x: seq<ChipLine>, y: seq<ChipLine>)
    ensures RenderLines(x + y) == RenderLines(x) + RenderLines(y)
  {
    if x == [] {
      assert x + y == y;
    } else {
      assert (x + y)[0] == x[0] && (x + y)[1..] == x[1..] + y;
      RenderLinesAppend(x[1..], y);
    }
  }

  lemma RenderOneLine(lbl: string, names: seq<string>)
    ensures RenderLines(if names != [] then [ChipLine(lbl, names)] else []) == ChipsHtml(lbl, names)
  {
    if names != [] {
      assert [ChipLine(lbl, names)][1..] == [];
    }
  }

  /** Rendered, the lines of three lists are their three chips lines in a
      row (an empty list renders as nothing), or "-" when all are empty. */
  lemma RenderOrgLines(companies: seq<string>, countries: seq<string>, techs: seq<string>)
    ensures RenderOrg(OrgLines(companies, countries, techs)) ==
              if companies == [] && countries == [] && techs == [] then NoOrg
              else ChipsHtml("企业", companies) + ChipsHtml("国家", countries) + ChipsHtml("技术", techs)
  {
    var a := if companies != [] then [ChipLine("企业", companies)] else [];
    var b := if countries != [] then [ChipLine("国家", countries)] else [];
    var c := if techs != [] then [ChipLine("技术", techs)] else [];
    RenderLinesAppend(a + b, c);
    RenderLinesAppend(a, b);
    RenderOneLine("企业", companies);
    RenderOneLine("国家", countries);
    RenderOneLine("技术", techs);
  }

  /** However the two rank appends went, the `org_html` the product loop
      leaves is the rendering of the final company, country and tech
      lists, which is what a product card holds. */
  lemma ProductOrgAsBuiltIsFinalLines(compNames: seq<string>, countryNames: seq<string>, techNames: seq<string>,
                                      rComp: string, rCountry: string)
    ensures ProductOrgAsBuilt(compNames, countryNames, techNames, rComp, rCountry) ==
              RenderOrg(OrgLines(AppendNew(compNames, rComp), AppendNew(countryNames, rCountry), techNames))
  {
    var comps := AppendNew(compNames, rComp);
    var countries := AppendNew(countryNames, rCountry);
    RenderOrgLines(compNames, countryNames, techNames);
    RenderOrgLines(comps, countries, techNames);
    assert ChipsHtml("企业", []) == "" && ChipsHtml("国家", []) == "" && ChipsHtml("技术", []) == "";
  }

  // ---------------------------------------------------------- rank-only

  /** `_infer_kind` as written, on the normalised type `t` and whether the
      row names an enterprise: `t` is lower-cased, yet it is looked up in
      sets that hold "Technology" and "Product". */
  function TypeKindAsWritten(t: string, hasEnterprise: bool): (k: Kind)
    ensures k == Tech || k == Product
    ensures t in TechTypes ==> k == Tech
  {
    if t in TechTypes then Tech
    else if t in ProductTypes then Product
    else if hasEnterprise then Product
    else Tech
  }

  function InferKindAsWritten(rk: Json): (k: Kind)
    ensures k == Tech || k == Product
  {
    TypeKindAsWritten(Norm(TextOf(Get(rk, "type"))), Truthy(Get(rk, "enterprise")))
  }

  /** The normalised forms of the tech and product type labels. */
  const TechKeys: set<string> := {"技术", "tech", "technology"}
  const ProductKeys: set<string> := {"产品", "product"}

  /** `_infer_kind` with the normalised type compared against normalised
      labels: a recognised type decides, otherwise a row naming an
      enterprise is a product. */
  function TypeKind(t: string, hasEnterprise: bool): (k: Kind)
    ensures k == Tech || k == Product
    ensures t in TechKeys ==> k == Tech
    ensures t in ProductKeys ==> k == Product
    ensures t !in TechKeys && t !in ProductKeys ==> (k == Product <==> hasEnterprise)
  {
    if t in TechKeys then Tech
    else if t in ProductKeys then Product
    else if hasEnterprise then Product
    else Tech
  }

  function InferKind(rk: Json): (k: Kind)
    ensures k == Tech || k == Product
  {
    TypeKind(Norm(TextOf(Get(rk, "type"))), Truthy(Get(rk, "enterprise")))
  }

  /** A label whose lower-case form has no white space at either end
      normalises to that lower-case form. */
  lemma NormOfLabel(x: string, y: string)
    requires Lower(x) == y
    requires y == [] || (!IsSpace(y[0]) && !IsSpace(y[|y| - 1]))
    ensures Norm(x) == y
  {
    StripTrimmed(y);
  }

  /** Every tech or product label the relation loops accept is recognised
      by the corrected rule, whatever the enterprise field says. */
  lemma TypeKindRecognisesLabels(x: string, hasEnterprise: bool)
    ensures x in TechTypes ==> TypeKind(Norm(x), hasEnterprise) == Tech
    ensures x in ProductTypes ==> TypeKind(Norm(x), hasEnterprise) == Product
  {
    if x in TechTypes {
      assert x !in ProductTypes;
      var y := if x == "Technology" then "technology" else x;
      assert Lower(x) == y;
      NormOfLabel(x, y);
      assert y in TechKeys;
    } else if x in ProductTypes {
      var y := if x == "Product" then "product" else x;
      assert Lower(x) == y;
      NormOfLabel(x, y);
      assert y in ProductKeys;
    }
  }

  /** As written, a rank row typed "Technology" that names an enterprise
      becomes a product. */
  lemma InferKindAsWrittenMisreadsTechnology()
    ensures var rk := JObj(map["type" := JStr("Technology"), "enterprise" := JStr("X")]);
            InferKindAsWritten(rk) == Product && InferKind(rk) == Tech
  {
    var rk := JObj(map["type" := JStr("Technology"), "enterprise" := JStr("X")]);
    assert Lower("Technology") == "technology";
    NormOfLabel("Technology", "technology");
    assert Norm(TextOf(Get(rk, "type"))) == "technology" by {
      assert Get(rk, "type") == JStr("Technology");
    }
    assert Truthy(Get(rk, "enterprise")) by {
      assert Get(rk, "enterprise") == JStr("X");
    }
  }

  /** The rule as written and the corrected rule disagree exactly on a
      row whose normalised type is "technology" and that names an
      enterprise; everywhere else the two give the same kind. */
  lemma InferKindDiffersExactly(rk: Json)
    ensures InferKind(rk) != InferKindAsWritten(rk) <==>
              Norm(TextOf(Get(rk, "type"))) == "technology" && Truthy(Get(rk, "enterprise"))
  {
    var t := Norm(TextOf(Get(rk, "type")));
    NormHasNoCapitals(TextOf(Get(rk, "type")));
    assert t != [] ==> !('A' <= t[0] <= 'Z');
  }

  /** A card for a rank id that no relation node carries. */
  function RankOnlyCard(ix: RankIndex, rid: string, id: int): (c: Card)
    requires rid in ix.byId
    ensures c.id == id && c.nodeId == rid && c.aliases == []
    ensures c.kind == InferKind(ix.byId[rid])
    ensures c.name == TextOr(RowText(ix.byId[rid], "name"), rid)
    ensures c.kind == Tech ==> c.org == [] && c.companies == [] && c.countries == []
  {
    var rk := ix.byId[rid];
    var kind := InferKind(rk);
    var name := TextOr(RowText(rk, "name"), rid);
    var comps := if kind == Product && RowText(rk, "enterprise") != "" then [RowText(rk, "enterprise")] else [];
    var countries := if kind == Product && RowText(rk, "country") != "" then [RowText(rk, "country")] else [];
    var org := if kind == Product then OrgLines(comps, countries, []) else [];
    Card(id, name, kind, org, NoDate, RowText(rk, "abstract"), rid,
         if rid in ix.source then ix.source[rid] else "",
         [], comps, countries, [], NoScores, NoMeta)
  }

  /** The merge of a rank row into the card already built for its id: the
      rank name becomes an alias when new, the abstract is filled when
      empty. */
  function Merge(c: Card, rk: Json): (r: Card)
    ensures r.(aliases := c.aliases, abstractText := c.abstractText) == c
    ensures c.abstractText != "" ==> r.abstractText == c.abstractText
    ensures c.name !in c.aliases ==> r.name !in r.aliases
    // the rank name is appended once, when non-empty and new
    ensures c.aliases <= r.aliases && |r.aliases| <= |c.aliases| + 1
    ensures forall x :: x in r.aliases <==>
              x in c.aliases || (x == RowText(rk, "name") && x != "" && x != c.name)
    ensures RowText(rk, "name") != "" && RowText(rk, "name") !in c.aliases && RowText(rk, "name") != c.name ==>
              r.aliases == c.aliases + [RowText(rk, "name")]
    // an empty, repeated or own name leaves the aliases as they are
    ensures !(RowText(rk, "name") != "" && RowText(rk, "name") !in c.aliases && RowText(rk, "name") != c.name) ==>
              r.aliases == c.aliases
    // an empty abstract takes the rank row's
    ensures c.abstractText == "" ==> r.abstractText == RowText(rk, "abstract")
  {
    var rname := RowText(rk, "name");
    var aliases := if rname != "" && rname !in c.aliases && rname != c.name then c.aliases + [rname] else c.aliases;
    var abs := if c.abstractText == "" && RowText(rk, "abstract") != "" then RowText(rk, "abstract") else c.abstractText;
    c.(aliases := aliases, abstractText := abs)
  }

  /** Every card built from the rank index already holds what a merge of
      its own rank row would add. */
  lemma NodeCardMergeStable(k: Kind, n: Json, ctx: Ctx, id: int)
    ensures var c := NodeCard(k, n, ctx, id);
            c.nodeId in ctx.ix.byId ==> Merge(c, ctx.ix.byId[c.nodeId]) == c
  {
  }

  lemma RankOnlyMergeStable(ix: RankIndex, rid: string, id: int)
    requires rid in ix.byId
    ensures Merge(RankOnlyCard(ix, rid, id), ix.byId[rid]) == RankOnlyCard(ix, rid, id)
  {
  }
}
