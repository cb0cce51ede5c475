# aiplatform services core, modelled in Dafny

This project models the data services behind the aiplatform web app: the
Python modules under `services/` that turn the knowledge-graph files into
the cards the UI lists, searches and opens.

- **Graph cards** (`services/graph_repo.py`) come from two kinds of file:
  - `relation_*.json` files hold nodes and edges;
  - `rank_table_*.json` files hold scored rows.

  `build_items_from_graphs` proceeds in these steps:
  1. It indexes the rank rows by id; the last row wins.
  2. For each relation file, it indexes three edge relations:
     product → company, company → country and product → technology.
  3. It builds one card per technology, product, company and country node,
     numbering the cards from 1000.
  4. It merges rank names into cards that already exist, and adds a
     rank-only card for every rank id that no node carries.
  5. It sorts the cards stably by (kind, normalised name).

  `get_detail` looks a card up by number and projects its detail view.
  Modules: `GraphSources`, `GraphCards`, `GraphRepo`, `GraphBuild`,
  `GraphItems`, `GraphDetail`.
- **Search** (`services/search_service.py`): `search_items` filters the
  cards by kind. It then keeps those whose normalised haystack contains the
  normalised query. The haystack is the name, the org HTML without tags,
  the abstract, the aliases, the node id and the number. Module: `Search`.
- **Portrait** (`services/portrait_repo.py`): the per-domain graph view
  (nodes with kind and a shortened description, and edges), and the node
  detail lookup with its fallback to the relation node. Module: `Portrait`.
- **Detail index** (`services/detail_repo.py`): the detail index over every
  rank file, and the lookup by trimmed node id. Module: `DetailIndex`.
- **Term matching** (`services/intelligent_discovery.py`):
  `normalize_terms` replaces each extracted word by its best-scoring key
  word when the score reaches 70, then removes duplicates. The key-word
  lists and the "found" filters follow. Module: `TermMatch`.

Shared modules:

- `JsonValue` holds JSON values with Python truthiness, `dict.get` and `or`.
- `Text` holds strip, lower, split and join.
- `Order` holds Python string and tuple order, sets kept as sorted lists,
  and a stable sort.
- `Seqs` holds subsequences, `dict.fromkeys` and last-wins dictionaries.
- `Wrappers` holds `Option` and `Result`.

In `Portrait`, `DetailIndex`, `TermMatch` and `GraphDetail`, operations
that may raise are modelled with `Result`. The error cases are the
exceptions Python raises on that input, such as `.get` on a non-dict,
`.strip()` on a non-string, or iterating a non-list. The graph card
builder (`GraphSources`, `GraphRepo`, `GraphBuild`) does not model its
raises: it reads a malformed entry as empty, as listed under "Left out".

The code loops become methods. Each method is proved equal to a
specification function, and the properties are proved about those
functions. Python's `items.sort` is a library call, so it is modelled by a
function (`Order.SortBy`) rather than a loop.

## Model
| member | source | states |
|---|---|---|
| GraphSources.SafeLoad | services/graph_repo.py:32-54 | An unreadable file or a non-container gives empty nodes, edges and rows. A dict with nodes/edges/links is a relation file with no rows. Its nodes are `nodes`, else `Nodes`, else []. Its edges are `edges`, else `Edges`, else `links`, else []. A list is rows. Any other dict gives no nodes or edges, and its rows are `rows`, else `data`, else []. Nodes or edges are non-empty only for a relation object. |
| GraphSources.FileRows | services/graph_repo.py:84-85 | The rows of one rank file, in order, each paired with the file's name. |
| GraphSources.RowIds | services/graph_repo.py:86-88 | A non-empty id is listed exactly when some row carries it (`id`, else `ID`). |
| GraphSources.IndexRanks | services/graph_repo.py:82-90 | The rank loop builds exactly the index of all rank rows, file by file. |
| GraphSources.RankIndexValid | services/graph_repo.py:82-90 | The index is well formed. Its key order is the order in which the non-empty ids first occur, with no duplicates. |
| GraphSources.RankIndexLastWins | services/graph_repo.py:82-90 | An id is indexed if and only if some row carries it. Its row and source file are those of the last row carrying it. |
| GraphSources.RankIndexIsLastWins | services/graph_repo.py:84-90 | `rank_by_id` and `id_source_map` agree with the last-wins dictionary over the rows. |
| GraphSources.RankPrefixIsLastWins | services/graph_repo.py:84-90 | After any number of rows, both maps agree with the last-wins dictionary over those rows. |
| GraphSources.AddTarget | services/graph_repo.py:111 | `setdefault(s, set()).add(t)` adds exactly the key `s` to the table. |
| GraphSources.AddTargetMembers | services/graph_repo.py:111 | The set under `s` gains exactly `t`. Every other set is unchanged. |
| GraphSources.AddTargetSetValued | services/graph_repo.py:111 | Adding keeps every table value a set (sorted, without repeats). |
| GraphSources.IndexEdges | services/graph_repo.py:101-115 | The edge loop builds exactly the three-table edge index of the file's edges. |
| GraphSources.EdgeIndexValid | services/graph_repo.py:101-115 | Each of the three tables maps to sets. |
| GraphSources.EdgeIndexMembers | services/graph_repo.py:105-115 | `t` is under `s` in a relation's table if and only if some edge has that relation label and a truthy source `s` and target `t`. |
| GraphSources.EdgeStepTable | services/graph_repo.py:105-115 | One edge adds its target to its own relation's table only. |
| GraphSources.NodeName | services/graph_repo.py:66-69 | An empty id gives "-". Otherwise the node's name when it has one, else the id. Never empty. |
| GraphSources.Names | services/graph_repo.py:164 | One display name per id. |
| GraphSources.ChipsHtml | services/graph_repo.py:71-75 | The chip line is empty exactly when there are no names. |
| GraphCards.Label | services/graph_repo.py:133 | Every kind label a card carries is non-empty. |
| GraphCards.LabelInjective | services/search_service.py:16-20 | The label decides the kind, so comparing labels compares kinds. |
| GraphCards.RowFor | services/graph_repo.py:123 | `rank_by_id.get(rid, {})`: the indexed row, or the empty dict. |
| GraphCards.TextOr | services/graph_repo.py:295 | `a or b` on text is one of the two operands. It is empty only when both are. |
| GraphCards.CardSource | services/graph_repo.py:138 | The card's source is the relation file's name or the rank file of its id. It is always the relation file when there is no rank row. |
| GraphCards.FirstOr | services/graph_repo.py:220-221 | `names[0] if names else None` is None exactly for an empty list. |
| GraphCards.UnionIntoMembers | services/graph_repo.py:166-168 | `acc \|= ys` holds exactly the elements of both. |
| GraphCards.UnionIntoSorted | services/graph_repo.py:166-168 | The union stays a sorted set. |
| GraphCards.CountryIdsMembers | services/graph_repo.py:166-169 | A product's country ids are exactly the countries of its companies. |
| GraphCards.CountryIdsSorted | services/graph_repo.py:166-169 | Those ids come out sorted without repeats, as `sorted(country_ids)` does. |
| GraphCards.OrgLines | services/graph_repo.py:174-181 | There are no org lines exactly when all three name lists are empty. |
| GraphCards.AppendNew | services/graph_repo.py:192-196 | A truthy name not yet present is appended. Otherwise the list is unchanged. |
| GraphCards.NodeCard | services/graph_repo.py:118-269 | The card of a node carries the given number, the loop's kind and the node's id. |
| GraphCards.NodeCardAliases | services/graph_repo.py:124-128 | The alias list is `[rank name]` exactly when the rank name is non-empty and differs from the card's name. Otherwise it is empty. The name is never its own alias. |
| GraphCards.ProductRollUp | services/graph_repo.py:157-197 | The companies are the names of the sorted company ids, plus the rank's enterprise when new. They stay distinct when the base names are. The techs are the names of the product's technologies. The org HTML is as the code builds it. |
| GraphCards.ProductCountries | services/graph_repo.py:163-196 | The countries come from the countries of the product's companies, sorted, plus the rank's country when new. They stay distinct when the base names are. |
| GraphCards.RenderOrgLines | services/graph_repo.py:174-181 | The joined lines are "-" when all lists are empty. Otherwise they are the company, country and technology chip lines, in that order. |
| GraphCards.ProductOrgAsBuiltIsFinalLines | services/graph_repo.py:189-197 | Rebuilding `org_html` after appending the rank's enterprise or country gives the chip lines of the final name lists. |
| GraphCards.TypeKind | services/graph_repo.py:274-278 | A technology key gives the technology kind and a product key gives the product kind. Any other type gives product exactly when the row has an enterprise. |
| GraphCards.InferKind | services/graph_repo.py:274-278 | A rank-only card is a technology or a product. |
| GraphCards.TypeKindRecognisesLabels | services/graph_repo.py:274-278 | Every spelling in TECH_TYPES (PROD_TYPES), once normalised, is recognised as a technology (product). |
| GraphCards.TypeKindAsWritten | services/graph_repo.py:274-278 | The code as written tests the lower-cased type against the mixed-case sets. A type in TECH_TYPES is a technology. The normalised type is never "Technology", so "Technology" in any capitalisation ("technology", "TECHNOLOGY", " Technology ") is missed. |
| GraphCards.InferKindAsWritten | services/graph_repo.py:274-278 | As written, a rank-only card is still a technology or a product. |
| GraphCards.InferKindDiffersExactly | services/graph_repo.py:274-278 | The rule as written and the corrected rule give different kinds exactly when the normalised type is "technology" and the row has a truthy enterprise. |
| GraphCards.InferKindAsWrittenMisreadsTechnology | services/graph_repo.py:274-278 | A row of type "Technology" that has an enterprise is made a product as written, but a technology when corrected. |
| GraphCards.RankOnlyCard | services/graph_repo.py:294-318 | A rank-only card has the given number, the rank id and no aliases. Its kind is inferred from the row. Its name is the rank name, else the id. A technology card has no org, companies or countries. |
| GraphCards.Merge | services/graph_repo.py:283-291 | Merging a rank row changes only the aliases and the abstract. The rank name is appended to the end of the aliases exactly when it is non-empty, not already an alias and not the card's name. Otherwise the aliases are unchanged, so no alias is repeated. An empty abstract takes the row's abstract; a non-empty one is kept. The name never becomes its own alias. |
| GraphCards.NodeCardMergeStable | services/graph_repo.py:280-292 | Merging its own rank row into a node card changes nothing. The card already holds the alias and the abstract. |
| GraphCards.RankOnlyMergeStable | services/graph_repo.py:280-292 | The same holds for a rank-only card. |
| GraphRepo.NodeTypes | services/graph_repo.py:119 | One stripped type per node. |
| GraphRepo.Existing | services/graph_repo.py:272 | `existing_ids` holds exactly the non-empty node ids of the cards. |
| GraphRepo.FindNode | services/graph_repo.py:283-291 | The position of the first card carrying the id, or -1 when none does. |
| GraphRepo.MergeFirstKeeps | services/graph_repo.py:283-291 | The merge touches only that first card. It keeps the length and every card's number and node id. |
| GraphRepo.RankPassStep | services/graph_repo.py:280-319 | One rank id either merges into the first card carrying it, or appends a rank-only card numbered after the last. |
| GraphRepo.RankPassKeeps | services/graph_repo.py:280-319 | The rank pass only appends: the cards it starts from keep their places, numbers and node ids, and it adds at most one card per id. |
| GraphRepo.Emitted | services/graph_repo.py:92-319 | The emitted cards start with the relation cards, in place and with their numbers and node ids. At most one rank-only card per indexed id follows. |
| GraphRepo.Items | services/graph_repo.py:322 | The items are a permutation of the emitted cards, sorted by (kind, normalised name). |
| GraphBuild.EmitCards | services/graph_repo.py:118-154 | One node loop appends exactly the kind's cards and advances `auto_inc` by their count. |
| GraphBuild.EmitLoops | services/graph_repo.py:117-269 | The four node loops, one after the other, append the file's cards and advance `auto_inc` by their count. |
| GraphBuild.EmitFile | services/graph_repo.py:96-269 | The body of the relation-file loop appends exactly that file's cards. |
| GraphBuild.EmitRelations | services/graph_repo.py:92-269 | The relation loop yields the cards of every file in order, numbered on from 1000. |
| GraphBuild.MergeRankRow | services/graph_repo.py:283-291 | The inner loop with its `break` merges the row into the first matching card. |
| GraphBuild.RankStep | services/graph_repo.py:280-319 | One iteration of the rank pass advances the pass by one id and keeps `auto_inc` at 1000 plus the item count. |
| GraphBuild.RankPass | services/graph_repo.py:280-319 | The rank pass yields the pass over every indexed id in order. |
| GraphBuild.BuildItemsFromGraphs | services/graph_repo.py:78-323 | The method returns exactly the sorted items of the specification. |
| GraphItems.KindCardsPicked | services/graph_repo.py:118-154 | A node loop yields one card per node of an accepted type, in node order. Each card is numbered consecutively and carries the loop's kind and the node's id. |
| GraphItems.PickedExactly | services/graph_repo.py:119-120 | The picked positions are exactly the nodes of an accepted type, increasing. |
| GraphItems.KindCardsNumbered | services/graph_repo.py:130-154 | A node loop numbers its cards consecutively from where it starts. |
| GraphItems.LoopCardsNumbered | services/graph_repo.py:117-269 | The four node loops together number consecutively. |
| GraphItems.RelationCardsNumbered | services/graph_repo.py:92-269 | All relation cards are numbered 1000, 1001, … in order. |
| GraphItems.EmittedNumbered | services/graph_repo.py:92-319 | Before the sort, the card at position j has number 1000 + j. |
| GraphItems.PassNumbered | services/graph_repo.py:306-319 | The rank pass keeps that numbering. |
| GraphItems.NewIdsAll | services/graph_repo.py:280-294 | The rank ids that get their own card are exactly the indexed ids with no relation card, each once. |
| GraphItems.RankPassShape | services/graph_repo.py:280-319 | After i ids, the relation cards are merged with the rank rows of their ids met so far. One rank-only card follows for each new id, in order. |
| GraphItems.RankPassFinal | services/graph_repo.py:280-319 | After the whole pass, the relation cards are merged. They are followed by exactly one rank-only card per new id, in rank order. |
| GraphItems.RankPassCovers | services/graph_repo.py:271-319 | The emitted cards are the relation cards after the rank pass. |
| GraphItems.ItemsOrdered | services/graph_repo.py:322 | The items are a permutation of the emitted cards, sorted by (kind, normalised name). Equal keys keep their emission order: the sort is stable. |
| GraphItems.ItemIdsDistinct | services/graph_repo.py:92-322 | No two items share a number, so `{it["id"]: it}` in `get_detail` loses none. |
| GraphItems.ItemIdsRange | services/graph_repo.py:92-322 | The item numbers are exactly 1000 … 1000 + n − 1. |
| GraphDetail.FindById | services/graph_repo.py:329-330 | The lookup finds nothing exactly when no item has the number. Otherwise it finds the last item with that number, as the dict built from the items keeps it. |
| GraphDetail.TruthyOnly | services/graph_repo.py:357 | `[u for u in srcs if u]` keeps exactly the truthy urls, as a subsequence of the list, so in list order. |
| GraphDetail.TruthyOnlyInOrder | services/graph_repo.py:357 | One url is kept exactly when it is truthy, and filtering two runs of urls gives the first run's urls followed by the second's. |
| GraphDetail.RankUrls | services/graph_repo.py:335-336 | Iterating `source` raises exactly for a true boolean or a non-zero number. The urls are all truthy. A falsy value gives none and a non-empty string gives itself. A list gives exactly its truthy elements, in list order. |
| GraphDetail.DetailOf | services/graph_repo.py:337-358 | `field`, `country` and `year` are the card's values when truthy, else "—", so never falsy. The sources are the card's file, then one rank link per url, in order. |
| GraphDetail.GetDetail | services/graph_repo.py:328-358 | None exactly when no item has the number. An error only when the found item's source cannot be iterated. Otherwise the record of the found item with its rank urls. |
| GraphDetail.RankLinks | services/graph_repo.py:357 | One rank source link per url, in order. |
| GraphDetail.GetDetailShape | services/graph_repo.py:328-358 | An unknown number gives None. A known one gives its name, kind, abstract, techs, scores and enterprise. Field, country and year are the card's values or "—". The sources are the card's file followed by the links of its rank urls. An error means an item with the number has a source that cannot be iterated. |
| GraphDetail.GetDetailOfItems | services/graph_repo.py:328-332 | On the built items, `get_detail` gives None exactly outside 1000 … 1000 + n − 1, and finds the item with that number. |
| Order.SortBySorted | services/graph_repo.py:322 | The sort orders by key. |
| Order.SortByStable | services/graph_repo.py:322 | The sort keeps the input order among equal keys. |
| Order.SortedSetUnique | services/graph_repo.py:163 | Two sorted, repeat-free lists with the same elements are equal, so the sorted view of a set is unique. |
| Order.InsertMembers | services/graph_repo.py:111 | `set.add` adds exactly one element. |
| Order.InsertSorted | services/graph_repo.py:111 | Adding keeps the set's sorted view sorted. |
| Search.StripTags | services/search_service.py:11-14 | Removing tags never lengthens the text. |
| Search.StripTagsPlain | services/search_service.py:11-14 | Text without `<` is unchanged. |
| Search.StripTagsRemovesTag | services/search_service.py:11-14 | A complete `<…>` is removed and the text around it kept. |
| Search.NextClose | services/search_service.py:11 | The regex's tag runs to the first `>` after `<`. |
| Search.KindOk | services/search_service.py:16-20 | Type "product" admits exactly product cards. Any other type, or none, admits exactly technology cards. |
| Search.HaystackHoldsParts | services/search_service.py:29-38 | The haystack starts with the name and contains the org text without tags, the abstract, the joined aliases, the node id and the number. |
| Text.JoinHasParts | services/search_service.py:38 | `" ".join(parts)` starts with the first part and contains every part. |
| Search.SearchItems | services/search_service.py:22-40 | The loop returns exactly the search result. |
| Search.SearchResult | services/search_service.py:22-40 | The result keeps the input order. A card is in it if and only if its kind matches and either the query is blank or its haystack contains the normalised query. |
| Search.SearchResultSpec | services/search_service.py:22-40 | A blank query returns the kind filter. Any other query keeps only cards whose haystack contains it. |
| Text.NormHasNoCapitals | services/graph_repo.py:19-21 | `_norm` lower-cases before it strips, so its result holds no capital A-Z. |
| Text.NormBlank | services/search_service.py:6-9 | `norm` gives "" exactly for all-white-space text. |
| Text.StripIgnoresPadding | services/search_service.py:9 | White space around a string does not change its stripped form. |
| Portrait.Iterate | services/portrait_repo.py:73-107 | Iterating works on a list only. |
| Portrait.FilesForSpec | services/portrait_repo.py:23-27 | The domain is accepted exactly when its stripped, lower-cased form is one of the six keys. The two file names are built from that form. |
| Portrait.FilesForPadded | services/portrait_repo.py:23-27 | White space around a domain key does not matter. |
| Portrait.FilesFor | services/portrait_repo.py:23-27 | Succeeds exactly when the stripped, lower-cased domain is one of the six keys; otherwise raises. |
| Portrait.DetailMapOf | services/portrait_repo.py:29-37 | Succeeds exactly when every record is a dict; a non-dict record raises. |
| Portrait.DetailMap | services/portrait_repo.py:29-37 | The loop returns exactly the detail map of the records. It raises on a non-dict record. |
| Portrait.DetailMapLastWins | services/portrait_repo.py:29-37 | A key is present exactly when some record has that non-empty stripped id. Its record is the last one with that id. |
| Portrait.KindFromTextSpec | services/portrait_repo.py:39-49 | Each of the five kinds is returned exactly for its spellings, after stripping. Anything else is "other". |
| Portrait.KindFromType | services/portrait_repo.py:39-49 | Raises only on a truthy non-string type. Otherwise gives one of the five kinds. |
| Portrait.ShortTextSpec | services/portrait_repo.py:51-55 | Text of at most n characters is unchanged. Longer text becomes its first n characters, right-stripped, plus "…". |
| Portrait.Short | services/portrait_repo.py:51-55 | A falsy value gives "". The result is never longer than n + 1. |
| Portrait.ProjectSpec | services/portrait_repo.py:73-89 | A node keeps its id. Its name falls back to the id, its kind is one of five and its description is at most 141 characters. An edge keeps source and target, and its label falls back from relation to label to "". |
| Portrait.ProjectNode | services/portrait_repo.py:73-81 | A non-dict node raises. A projected node keeps its id and its description is at most 141 characters. |
| Portrait.ProjectEdge | services/portrait_repo.py:84-89 | A projected edge keeps source and target. The projection raises exactly on a non-dict edge. |
| Portrait.ProjectNodesSpec | services/portrait_repo.py:72-81 | The node list succeeds exactly when every node projects. Then it is their projections in order. |
| Portrait.ProjectEdgesSpec | services/portrait_repo.py:83-89 | The edge list succeeds exactly when every edge is a dict. Then it is their projections in order. |
| Portrait.NodeLoop | services/portrait_repo.py:72-81 | The `out_nodes` loop gives exactly the projected node list. |
| Portrait.EdgeLoop | services/portrait_repo.py:83-89 | The `out_edges` loop gives exactly the projected edge list. |
| Portrait.LoadGraphForDomain | services/portrait_repo.py:57-91 | The method returns exactly the domain's graph view. |
| Portrait.GraphFor | services/portrait_repo.py:57-91 | An unknown domain raises its error. A view is produced only for a known domain whose detail records are all dicts. |
| Portrait.GraphForShape | services/portrait_repo.py:57-91 | For a valid domain and well-formed files, where the node and edge lists found through the `nodes`/`Nodes` and `edges`/`Edges`/`links` fallbacks are lists, empty ones included, there is one output node per node and one output edge per edge, in order. |
| Portrait.LoadNodeDetail | services/portrait_repo.py:93-120 | The method returns exactly the node detail of the specification. |
| Portrait.NodeDetailOf | services/portrait_repo.py:93-120 | An unknown domain raises its error. A result is produced only for a known domain whose detail records are all dicts. |
| Portrait.FallbackLoop | services/portrait_repo.py:105-120 | The fallback loop with its early returns gives the first matching node's record. |
| Portrait.FirstNodeSpec | services/portrait_repo.py:106-120 | Over dict nodes, the fallback gives None exactly when no node's `str(id)` equals the id. Otherwise it gives the record of the first node that matches. |
| Portrait.FirstNodeFound | services/portrait_repo.py:106-120 | Any record the fallback returns is built from a dict node carrying the id. |
| Portrait.NodeDetailRankFirst | services/portrait_repo.py:93-120 | A truthy rank record for the id is returned as is. Otherwise any result is the fallback record of a relation node carrying the id. |
| DetailIndex.ListedPaths | services/detail_repo.py:17 | The listed paths are no more than the comma-separated parts. Each is non-empty and trimmed. A path is listed exactly when some part strips to it. The listing is a subsequence of the trimmed parts, so it keeps their order. |
| DetailIndex.ListedPathsInOrder | services/detail_repo.py:17 | One part gives its trimmed form unless that is blank, and the listing of two runs of parts is the first run's listing followed by the second's. |
| DetailIndex.DiscoverSpec | services/detail_repo.py:15-20 | With DETAIL_FILES set, the result is the listed paths in order, joined to the root unless absolute, and the listing of the override splits at every part boundary into the listings of the two sides. Otherwise it is the globbed files, sorted. |
| DetailIndex.DiscoverDetailFiles | services/detail_repo.py:15-20 | With DETAIL_FILES set, one file per listed path. Otherwise the globbed files, each once, as a multiset. |
| DetailIndex.SafeNormId | services/detail_repo.py:22-26 | Raises exactly on a truthy non-string id. A non-empty key comes only from a string. |
| DetailIndex.LoadAllOf | services/detail_repo.py:28-50 | Succeeds when every record in every file is a dict with a usable id; fails when some record is not. |
| DetailIndex.GetDetailByNodeId | services/detail_repo.py:52-56 | An empty id gives None without loading. Otherwise it fails exactly when loading fails, and a record is found exactly when the trimmed id is an index key, as that key's entry. |
| DetailIndex.LoadFile | services/detail_repo.py:42-46 | Filing one file's records succeeds exactly when every record is a dict with a usable id. It continues the last-wins map. |
| DetailIndex.LoadAllDetails | services/detail_repo.py:28-50 | The nested loops return exactly the index of all files. |
| DetailIndex.LoadAllLastWins | services/detail_repo.py:34-50 | A key is present exactly when some record has that non-empty trimmed id. The later record wins, across files too. |
| DetailIndex.SkippedFile | services/detail_repo.py:36-42 | An unreadable file, or one without a list, adds nothing. |
| DetailIndex.LookupSpec | services/detail_repo.py:44-56 | An empty id gives None. White space around the id does not matter and a blank id finds nothing. A found record is one whose trimmed id equals the trimmed node id. Conversely, when loading succeeds, an id some record carries is found, with or without surrounding white space, and the result is the last record carrying it. |
| Text.JoinSplit | services/detail_repo.py:17 | Joining the comma-split parts rebuilds the variable. |
| TermMatch.BestKey | services/intelligent_discovery.py:97-103 | The inner loop returns the best key and score of the specification. |
| TermMatch.BestPrefix | services/intelligent_discovery.py:97-103 | A best key, when there is one, is one of the keys seen so far. |
| TermMatch.BestSpec | services/intelligent_discovery.py:97-103 | The best score bounds every key's score. With no positive score there is no best. Otherwise the best is the first key reaching the maximum. |
| TermMatch.PickSpec | services/intelligent_discovery.py:95-107 | A word becomes the first best key when one scores 70 or more. Otherwise it stays itself. |
| TermMatch.Pick | services/intelligent_discovery.py:104-107 | A word becomes a non-empty key word or stays itself. |
| TermMatch.Picks | services/intelligent_discovery.py:94-107 | One pick per word. |
| TermMatch.PicksFrom | services/intelligent_discovery.py:94-107 | Every pick is its word or a key word. |
| TermMatch.PicksNoKeys | services/intelligent_discovery.py:94-107 | With no key words every word stays as it is. |
| TermMatch.NormalizeTerms | services/intelligent_discovery.py:90-108 | The method returns the picks, de-duplicated. |
| TermMatch.NormalizeSpec | services/intelligent_discovery.py:90-108 | The result is distinct and keeps first-occurrence order. It is no longer than the input and holds only keys or input words. With no keys it is the words de-duplicated. |
| TermMatch.KeyWordsSpec | services/intelligent_discovery.py:153-154 | The key words are exactly the names, of any JSON type, of the entries of the wanted type. They keep entry order: at every split of the entries, the key words are those of the first part followed by those of the second. |
| TermMatch.KeyWordsInOrder | services/intelligent_discovery.py:153-154 | One entry gives AttributeError when it is not a dict, nothing when its type differs, KeyError when it has no name, else its name. The key words of two runs of entries are those of the first followed by those of the second, and they build exactly when both do. |
| TermMatch.KeyWords | services/intelligent_discovery.py:153-154 | Succeeds exactly when every entry is a dict and every entry of the wanted type has a `name`. Otherwise it fails with the AttributeError or KeyError of the comprehension. There are no more key words than entries. |
| TermMatch.Texts | services/intelligent_discovery.py:160-161 | The strings taken from a list of names are exactly its text names, as a subsequence of the names, so in name order. |
| TermMatch.TextsInOrder | services/intelligent_discovery.py:160-161 | One name gives its text when it is text, else nothing. The text names of two runs are the first run's followed by the second's. |
| TermMatch.Normalized | services/intelligent_discovery.py:90-108 | Fails exactly when there is a word and some key word is not text. Otherwise it is no longer than the words and holds only words and text key words. |
| TermMatch.KeyFound | services/intelligent_discovery.py:160-161 | The found list keeps, in order, exactly the normalised words that are key words. |
| TermMatch.DiscoverFoundSpec | services/intelligent_discovery.py:153-161 | The key technologies and key products found are subsequences of the normalised lists. Each is the name of a rank entry of type 技术 or 产品 respectively. |
| TermMatch.DiscoverFound | services/intelligent_discovery.py:153-161 | Succeeds exactly when both key-word lists can be built and each kind with extracted words has only text key words. The normalised lists are no longer than the extracted ones. |
| TermMatch.DiscoverFoundNoWords | services/intelligent_discovery.py:153-161 | With no extracted technologies, no technology name can make the result fail, and no technology is found. |
| Seqs.DedupDistinct | services/intelligent_discovery.py:108 | `list(dict.fromkeys(...))` has no repeats. |
| Seqs.DedupFirstOccurrence | services/intelligent_discovery.py:108 | It keeps the order of first occurrences. |
| Seqs.DedupOfDistinct | services/intelligent_discovery.py:108 | It leaves a list without repeats unchanged. |

## Left out

**Not modelled: I/O, environment and external calls**
- File reading, `glob`, `os.getenv`, `lru_cache` and the cache invalidation are not modelled. The directory listing and the parsed file contents are parameters. A file that cannot be opened or parsed is `None`.
- `load_all` (services/graph_repo.py:56-64) is not modelled. It only reads the files and prints.
- `_discover_files` (services/graph_repo.py:25-30) is not modelled. It is the same logic as `_discover_detail_files`, which is modelled as `DetailIndex.DiscoverDetailFiles`.
- The model call, the regex that extracts the model's JSON, `extract_text_from_file` and `load_rank_tables` are not modelled. The extracted words and the rank entries are parameters.
- `print` is not modelled.
- `fuzz.partial_ratio` (rapidfuzz) is a parameter `score`. Its own definition is not modelled.

**Text and number handling**
- NFKC normalisation is not modelled.
- `str.lower` folds only A-Z.
- `Text.StripLeft`/`StripRight` use Python's white-space set for `str.strip`.
- JSON numbers are integers. Floating-point scores are not modelled.
- `str()` of a list or dict is "" in the model.
- The graph files read node ids, names and types, and edge `source` and `target`, as text: a non-string value reads as "". An edge with a non-string endpoint therefore adds nothing to the edge indexes, where the code indexes it.
- GraphSources.RowIds: a rank row's `id` (else `ID`) is read as text, so a row whose id is not a string, such as 5, is skipped. The code indexes it under that value.
- GraphSources.RowId: the same reading serves the rank index (`IndexRanks`, `RankIndexOf`), so a rank-only card is never built for a non-string id.
- GraphCards.RowText: the rank-row fields `name`, `type`, `abstract`, `enterprise` and `country` are read as text, and a non-string value reads as "". A non-string `name` is then never added as an alias, a non-string `abstract` gives way to the fallback text, and a truthy non-string `enterprise` or `country` is not appended.

**Assumptions and simplifications**
- TermMatch.NormalizeTerms: the extracted words are taken to be strings. A non-string word, which raises in `word.lower()`, is not modelled.
- GraphDetail.RankUrls: a dict-valued `source` gives no rank links. In the code a dict iterates over its keys.
- GraphRepo.RankPassOf: the pass skips a key that has no row, which cannot happen in an index built from rows (`RankIndexValid`).
- GraphBuild.RankStep: the same skip applies.
- GraphSources.IndexRanks: a rank row that is not a dict reads as having no id and is skipped, and a truthy `rows` that is not a list reads as no rows. The code raises on both (`.get` on a non-dict, iterating a non-list); modelling those raises would thread a `Result` through the whole card builder.
- GraphSources.IndexEdges: an edge that is not a dict reads as having no source, target or relation and adds nothing. The code raises `AttributeError` at `.get`.
- GraphBuild.EmitFile: truthy `nodes` or `edges` that are not lists read as empty lists, where the code raises on iterating them.
- GraphBuild.EmitCards: a node that is not a dict reads as having no type and is skipped, where the code raises at `n.get("type")`.
- GraphBuild.BuildItemsFromGraphs: it therefore never raises; on well-formed files it returns what the code returns. It uses the corrected kind rule for rank-only cards (see Findings).
- GraphCards.RankOnlyCard: the kind comes from the corrected rule `InferKind`, not from `InferKindAsWritten`. They differ exactly when the normalised type is "technology" (any capitalisation, surrounding white space) and the row has a truthy enterprise: the code builds a product card with chips, the model a technology card (see Findings).
- GraphItems.KindCardsPicked: it states each card's number, kind and node id rather than the whole card. The whole card is given by `KindCards`, which `GraphBuild.EmitCards` is proved to return.

**Card numbering**
- Cards are numbered as they are built, before the sort, so the numbers follow build order, not sorted order.

## Findings
| source | as written | input that shows it | evidently intended | confidence | as-written member | corrected member |
|---|---|---|---|---|---|---|
| services/graph_repo.py:274-278 | `_infer_kind` lower-cases the rank type with `_norm`, then tests it against TECH_TYPES and PROD_TYPES as written. TECH_TYPES spells "Technology" with a capital and has no lower-case "technology", so no capitalisation of it is ever recognised and the kind falls through to the enterprise test. "Product" is unaffected: it lowers to "product", which PROD_TYPES holds. | A rank-only row `{"type": "Technology", "enterprise": "X"}` becomes a product card; so does "technology" or "TECHNOLOGY". | Every spelling listed in TECH_TYPES or PROD_TYPES decides the kind: the row above is a technology. | not executed | GraphCards.InferKindAsWritten, GraphCards.InferKindAsWrittenMisreadsTechnology, GraphCards.InferKindDiffersExactly | GraphCards.InferKind, GraphCards.TypeKindRecognisesLabels |
