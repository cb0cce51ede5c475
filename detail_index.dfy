/** The detail index of services/detail_repo.py: which rank files are
    read, the id-to-record map built from all of them, and the lookup by
    node id. The environment variable, the directory listing and the file
    contents are parameters; a file is None when it cannot be opened or
    parsed. */
module DetailIndex {
  import opened Wrappers
  import opened Text
  import opened Seqs
  import opened Order
  import opened JsonValue

  const AttributeError: string := "AttributeError"

  // -------------------------------------------------------- discovery

  /** `os.path.join(root, p)` for a relative `p`. */
  function JoinPath(root: string, p: string): string
  {
    if root == "" then p
    else if root[|root| - 1] == '/' then root + p
    else root + "/" + p
  }

  /** `os.path.isabs(p)` on POSIX. */
  predicate IsAbs(p: string)
  {
    p != [] && p[0] == '/'
  }

  /** Every part, trimmed. */
  function Stripped(parts: seq<string>): (r: seq<string>)
    ensures |r| == |parts| && forall i :: 0 <= i < |parts| ==> r[i] == Strip(parts[i])
  {
    seq(|parts|, i requires 0 <= i < |parts| => Strip(parts[i]))
  }

  predicate NonBlank(p: string)
  {
    p != ""
  }

  /** The non-blank, trimmed entries of a comma-separated list, in order:
      each listed path is non-blank and already trimmed, and a path is
      listed exactly when some part trims to it. */
  function ListedPaths(parts: seq<string>): (r: seq<string>)
    ensures |r| <= |parts|
    ensures forall i :: 0 <= i < |r| ==> r[i] != "" && Strip(r[i]) == r[i]
    ensures forall p :: p in r <==> p != "" && exists q :: q in parts && Strip(q) == p
    ensures IsSubsequence(r, Stripped(parts))
  {
    var stripped := Stripped(parts);
    var r := Filter(stripped, NonBlank);
    StrippedMembers(parts);
    FilterKeeps(stripped, NonBlank);
    FilterLength(stripped, NonBlank);
    assert forall p :: p in r <==> p in stripped && NonBlank(p);
    assert forall i :: 0 <= i < |r| ==> r[i] in r;
    r
  }

  /** The trimmed parts are exactly the trims of the parts, and each is
      already trimmed. */
  lemma StrippedMembers(parts: seq<string>)
    ensures forall p :: p in Stripped(parts) <==> exists q :: q in parts && Strip(q) == p
    ensures forall p :: p in Stripped(parts) ==> Strip(p) == p
  {
    var stripped := Stripped(parts);
    forall p | p in stripped
      ensures (exists q :: q in parts && Strip(q) == p) && Strip(p) == p
    {
      var i :| 0 <= i < |stripped| && stripped[i] == p;
      assert parts[i] in parts && Strip(parts[i]) == p;
      StripTwice(parts[i]);
    }
    forall p | exists q :: q in parts && Strip(q) == p
      ensures p in stripped
    {
      var q :| q in parts && Strip(q) == p;
      var i :| 0 <= i < |parts| && parts[i] == q;
      assert stripped[i] == p;
    }
  }

  /** The listing keeps the order of the parts: a single part gives its
      trimmed form when that is not blank, and the listing of two runs of
      parts is the listing of the first followed by that of the second. */
  lemma ListedPathsInOrder(a: seq<string>, b: seq<string>, q: string)
    ensures ListedPaths([q]) == if Strip(q) != "" then [Strip(q)] else []
    ensures ListedPaths(a + b) == ListedPaths(a) + ListedPaths(b)
  {
    assert Stripped([q]) == [Strip(q)];
    assert [Strip(q)][..0] == [];
    assert Filter([Strip(q)], NonBlank) == Filter([], NonBlank) + (if Strip(q) != "" then [Strip(q)] else []);
    assert Stripped(a + b) == Stripped(a) + Stripped(b);
    FilterAppend(Stripped(a), Stripped(b), NonBlank);
  }

  function PathKey(p: string): seq<string>
  {
    [p]
  }

  /** `_discover_detail_files()`: `env` is `DETAIL_FILES` as read, `root`
      the project directory and `globbed` what the `rank_table_*.json`
      pattern matched, in any order. A non-blank override is split on
      commas, its entries trimmed, blanks dropped and relative ones placed
      under `root`; otherwise the matches are sorted. */
  function DiscoverDetailFiles(env: string, root: string, globbed: seq<string>): (r: seq<string>)
    ensures Strip(env) != "" ==> |r| == |ListedPaths(Split(Strip(env), ','))|
    ensures Strip(env) == "" ==> multiset(r) == multiset(globbed)
  {
    var e := Strip(env);
    if e != "" then
      var files := ListedPaths(Split(e, ','));
      seq(|files|, i requires 0 <= i < |files| => if IsAbs(files[i]) then files[i] else JoinPath(root, files[i]))
    else SortBy(globbed, PathKey)
  }

  /** The override keeps its entries in the order given, each trimmed and
      non-blank; without one, the result is the matched paths in ascending
      order, each as often as matched. */
  lemma DiscoverSpec(env: string, root: string, globbed: seq<string>)
    ensures Strip(env) != "" ==>
              var files := ListedPaths(Split(Strip(env), ','));
              var r := DiscoverDetailFiles(env, root, globbed);
              && |r| == |files|
              && forall i :: 0 <= i < |r| ==>
                   files[i] != "" && Strip(files[i]) == files[i]
                   && r[i] == (if IsAbs(files[i]) then files[i] else JoinPath(root, files[i]))
    ensures Strip(env) != "" ==>
              var parts := Split(Strip(env), ',');
              forall k :: 0 <= k <= |parts| ==>
                ListedPaths(parts) == ListedPaths(parts[..k]) + ListedPaths(parts[k..])
    ensures Strip(env) == "" ==>
              var r := DiscoverDetailFiles(env, root, globbed);
              multiset(r) == multiset(globbed) && SortedBy(r, PathKey)
  {
    var parts := Split(Strip(env), ',');
    forall k | 0 <= k <= |parts|
      ensures ListedPaths(parts) == ListedPaths(parts[..k]) + ListedPaths(parts[k..])
    {
      assert parts[..k] + parts[k..] == parts;
      ListedPathsInOrder(parts[..k], parts[k..], "");
    }
    if Strip(env) == "" {
      SortBySorted(globbed, PathKey);
    }
  }

  /** Stripping twice is stripping once. */
  lemma StripTwice(s: string)
    ensures Strip(Strip(s)) == Strip(s)
  {
    var l := StripLeft(s);
    StripLeftTrims(s);
    StripRightTrims(l);
    StripTrimmed(Strip(s));
  }

  // -------------------------------------------------------- the index

  /** `_safe_norm(rec.get("id"))`: a falsy id reads as "", a text id is
      trimmed, and any other id raises (the fallback's `.strip()` on a
      value that is not text). NFKC folding is not modelled. */
  function SafeNormId(v: Json): (r: Result<string, string>)
    ensures r.Err? <==> Truthy(v) && !v.JStr?
    ensures r.Ok? && r.value != "" ==> v.JStr?
  {
    if !Truthy(v) then Ok("")
    else if v.JStr? then Ok(SafeNorm(v.s))
    else Err(AttributeError)
  }

  /** A record the loop body handles without raising. */
  predicate RecordOk(rec: Json)
  {
    rec.JObj? && SafeNormId(Get(rec, "id")).Ok?
  }

  /** Every record of a run is handled without raising. */
  predicate AllOk(recs: seq<Json>)
  {
    forall i :: 0 <= i < |recs| ==> RecordOk(recs[i])
  }

  lemma AllOkAppend(a: seq<Json>, b: seq<Json>)
    requires AllOk(a) && AllOk(b)
    ensures AllOk(a + b)
  {
    forall i | 0 <= i < |a + b|
      ensures RecordOk((a + b)[i])
    {
      if i >= |a| {
        assert (a + b)[i] == b[i - |a|];
      }
    }
  }

  /** The key a well-formed record is filed under. */
  function RecordKey(rec: Json): string
  {
    var d := SafeNormId(Get(rec, "id"));
    if d.Ok? then d.value else ""
  }

  /** The records of one file: a list's elements; a file that cannot be
      read or does not hold a list gives none. */
  function FileRecords(data: Option<Json>): seq<Json>
  {
    if data.Some? && data.value.JArr? then data.value.items else []
  }

  /** The records of the files, in file order. */
  function AllRecords(files: seq<Option<Json>>): seq<Json>
  {
    if files == [] then []
    else AllRecords(files[..|files| - 1]) + FileRecords(files[|files| - 1])
  }

  /** What `load_all_details` returns or raises: it fails exactly when
      some record, in any file, is not a dict with a usable id. */
  function LoadAllOf(files: seq<Option<Json>>): (r: Result<map<string, Json>, string>)
    ensures r.Ok? ==> forall i :: 0 <= i < |AllRecords(files)| ==> RecordOk(AllRecords(files)[i])
    ensures r.Err? ==> exists i :: 0 <= i < |AllRecords(files)| && !RecordOk(AllRecords(files)[i])
  {
    var recs := AllRecords(files);
    if forall i :: 0 <= i < |recs| ==> RecordOk(recs[i]) then Ok(IndexLast(recs, RecordKey))
    else Err(AttributeError)
  }

  /** The records of the first files come first among all records. */
  lemma {:induction false} AllRecordsPrefix(files: seq<Option<Json>>, j: nat)
    requires j <= |files|
    ensures AllRecords(files[..j]) <= AllRecords(files)
    decreases |files|
  {
    if j < |files| {
      var pre := files[..|files| - 1];
      AllRecordsPrefix(pre, j);
      assert pre[..j] == files[..j];
    } else {
      assert files[..j] == files;
    }
  }

  /** `load_all_details()`: the nested loops over files and records. */
  method LoadAllDetails(files: seq<Option<Json>>) returns (r: Result<map<string, Json>, string>)
    ensures r == LoadAllOf(files)
  {
    var m: map<string, Json> := map[];
    var fi := 0;
    while fi < |files|
      invariant 0 <= fi <= |files|
      invariant AllOk(AllRecords(files[..fi]))
      invariant m == IndexLast(AllRecords(files[..fi]), RecordKey)
    {
      var done := AllRecords(files[..fi]);
      var recs := FileRecords(files[fi]);
      AllRecordsStep(files, fi);
      var res := LoadFile(m, done, recs);
      if res.Err? {
        LoadAllFails(files, fi);
        return Err(AttributeError);
      }
      AllOkAppend(done, recs);
      m := res.value;
      fi := fi + 1;
    }
    assert files[..|files|] == files;
    return Ok(m);
  }

  /** One more file appends its records. */
  lemma AllRecordsStep(files: seq<Option<Json>>, fi: nat)
    requires fi < |files|
    ensures AllRecords(files[..fi + 1]) == AllRecords(files[..fi]) + FileRecords(files[fi])
  {
    assert files[..fi + 1][..fi] == files[..fi];
  }

  /** A bad record in any file makes the whole load fail. */
  lemma LoadAllFails(files: seq<Option<Json>>, fi: nat)
    requires fi < |files| && !AllOk(FileRecords(files[fi]))
    ensures LoadAllOf(files) == Err(AttributeError)
  {
    var recs := FileRecords(files[fi]);
    var i :| 0 <= i < |recs| && !RecordOk(recs[i]);
    AllRecordsStep(files, fi);
    AllRecordsPrefix(files, fi + 1);
    var done := AllRecords(files[..fi]);
    assert AllRecords(files)[|done| + i] == (done + recs)[|done| + i] == recs[i];
  }

  /** The inner loop over one file's records, continuing the map built
      from the records `done` before them. */
  method LoadFile(m0: map<string, Json>, done: seq<Json>, recs: seq<Json>) returns (r: Result<map<string, Json>, string>)
    requires m0 == IndexLast(done, RecordKey)
    ensures r.Ok? <==> forall i :: 0 <= i < |recs| ==> RecordOk(recs[i])
    ensures r.Ok? ==> r.value == IndexLast(done + recs, RecordKey)
  {
    var m := m0;
    var i := 0;
    assert done + recs[..0] == done;
    while i < |recs|
      invariant 0 <= i <= |recs|
      invariant forall j :: 0 <= j < i ==> RecordOk(recs[j])
      invariant m == IndexLast(done + recs[..i], RecordKey)
    {
      var rec := recs[i];
      if !rec.JObj? {
        return Err(AttributeError);
      }
      var did := SafeNormId(Get(rec, "id"));
      if did.Err? {
        return Err(did.error);
      }
      IndexLastSnoc(done + recs[..i], rec, RecordKey);
      assert done + recs[..i + 1] == (done + recs[..i]) + [rec];
      if did.value != "" {
        m := m[did.value := rec];
      }
      i := i + 1;
    }
    assert recs[..|recs|] == recs;
    return Ok(m);
  }

  /** An id is indexed exactly when some record carries it after
      normalising, and it maps to the last such record over all files in
      order, so a later file overrides an earlier one; records with an
      empty id are skipped. Unreadable files and files without a list add
      nothing. */
  lemma LoadAllLastWins(files: seq<Option<Json>>, k: string)
    requires LoadAllOf(files).Ok?
    ensures var recs := AllRecords(files);
            k in LoadAllOf(files).value <==> k != "" && exists i :: 0 <= i < |recs| && RecordKey(recs[i]) == k
    ensures var recs := AllRecords(files);
            k in LoadAllOf(files).value ==>
              exists i :: 0 <= i < |recs| && RecordKey(recs[i]) == k && LoadAllOf(files).value[k] == recs[i]
                && forall j :: i < j < |recs| ==> RecordKey(recs[j]) != k
  {
    IndexLastWins(AllRecords(files), RecordKey, k);
  }

  /** A file that cannot be read, or holds no list, is skipped. */
  lemma SkippedFile(files: seq<Option<Json>>, bad: Option<Json>)
    requires bad.None? || !bad.value.JArr?
    ensures AllRecords(files + [bad]) == AllRecords(files)
    ensures LoadAllOf(files + [bad]) == LoadAllOf(files)
  {
    assert (files + [bad])[..|files|] == files;
  }

  // -------------------------------------------------------- the lookup

  /** `get_detail_by_node_id(node_id)`: an empty id gives None before any
      file is read; otherwise the id is normalised as the index keys are. */
  function GetDetailByNodeId(files: seq<Option<Json>>, nodeId: string): (r: Result<Option<Json>, string>)
    ensures nodeId == "" ==> r == Ok(None)
    ensures nodeId != "" ==> (r.Err? <==> LoadAllOf(files).Err?)
    ensures r.Ok? && r.value.Some? ==>
              LoadAllOf(files).Ok? && SafeNorm(nodeId) in LoadAllOf(files).value
              && r.value.value == LoadAllOf(files).value[SafeNorm(nodeId)]
    ensures r.Ok? ==> (r.value.Some? <==> nodeId != "" && SafeNorm(nodeId) in LoadAllOf(files).value)
  {
    if nodeId == "" then Ok(None)
    else
      match LoadAllOf(files)
      case Err(e) => Err(e)
      case Ok(m) =>
        var k := SafeNorm(nodeId);
        if k in m then Ok(Some(m[k])) else Ok(None)
  }

  /** White space around a node id finds the same record, an empty or blank
      id finds none, a found record is one whose own id normalises to the
      same key, and an id some record carries is found, padded or not, as
      the last record carrying it. */
  lemma LookupSpec(files: seq<Option<Json>>, pre: string, nodeId: string, post: string)
    requires AllSpace(pre) && AllSpace(post) && nodeId != ""
    ensures GetDetailByNodeId(files, "") == Ok(None)
    ensures GetDetailByNodeId(files, pre + nodeId + post) == GetDetailByNodeId(files, nodeId)
    ensures AllSpace(nodeId) && LoadAllOf(files).Ok? ==> GetDetailByNodeId(files, nodeId) == Ok(None)
    ensures GetDetailByNodeId(files, nodeId).Ok? && GetDetailByNodeId(files, nodeId).value.Some? ==>
              exists rec :: rec in AllRecords(files) && RecordKey(rec) == SafeNorm(nodeId)
                && GetDetailByNodeId(files, nodeId).value.value == rec
    ensures var recs := AllRecords(files);
            LoadAllOf(files).Ok? && SafeNorm(nodeId) != ""
            && (exists i :: 0 <= i < |recs| && RecordKey(recs[i]) == SafeNorm(nodeId)) ==>
              exists i :: 0 <= i < |recs| && RecordKey(recs[i]) == SafeNorm(nodeId)
                && GetDetailByNodeId(files, pre + nodeId + post) == Ok(Some(recs[i]))
                && forall j :: i < j < |recs| ==> RecordKey(recs[j]) != SafeNorm(nodeId)
  {
    StripIgnoresPadding(pre, nodeId, post);
    StripBlank(nodeId);
    if LoadAllOf(files).Ok? {
      LoadAllLastWins(files, SafeNorm(nodeId));
    }
  }
}
