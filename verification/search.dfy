/**
 * The search over a device's storage: every folder and file the root directory
 * indexes is matched on the last component of its path, either exactly or as a
 * substring, with or without regard to case; the hits come back split into
 * folders and files.
 */
module Searches {
  import opened Errors
  import opened Seqs
  import opened Text
  import opened Paths
  import opened Dicts
  import opened Folders
  import opened RootDirectories

  /** The folders (by id) and files that matched, each in index order. */
  datatype Hits = Hits(folders: seq<nat>, files: seq<FileNode>)

  /** The query as compared: lower-cased unless the search is case-sensitive. */
  function Query(query: string, caseSensitive: bool): (q: string)
    ensures |q| == |query|
    ensures caseSensitive ==> q == query
    ensures Lower(q) == Lower(query)
    ensures !caseSensitive ==> forall i :: 0 <= i < |q| ==> !IsUpper(q[i])
  {
    LowerIdempotent(query);
    if caseSensitive then query else Lower(query)
  }

  /**
   * The path an entry is matched on: its own path when the search is
   * case-sensitive, else its (lower-cased) index key.
   */
  function CompPath(key: string, path: string, caseSensitive: bool): string {
    if caseSensitive then path else key
  }

  /** The match test: the last `/` component equals the query, or contains it. */
  predicate Hit(q: string, comp: string, exact: bool) {
    if exact then q == Basename(comp) else Contains(Basename(comp), q)
  }

  /** The match test for one query, as a function of the compared path. */
  function Matcher(q: string, exact: bool): string -> bool {
    comp => Hit(q, comp, exact)
  }

  /** The first of `keys` that `d` also has, if any: where merging the two indexes fails. */
  function FirstShared(keys: seq<string>, d: Dict<nat>): (r: Option<string>)
    ensures r.None? <==> forall k :: k in keys ==> k !in d.entries
    ensures r.Some? ==> r.value in keys && r.value in d.entries
    ensures r.Some? ==> exists j :: 0 <= j < |keys| && keys[j] == r.value &&
                                    forall i :: 0 <= i < j ==> keys[i] !in d.entries
  {
    if keys == [] then None
    else if keys[0] in d.entries then Some(keys[0])
    else
      var r := FirstShared(keys[1..], d);
      assert forall k :: k in keys[1..] ==> k in keys;
      if r.Some? then
        ghost var j :| 0 <= j < |keys[1..]| && keys[1..][j] == r.value &&
                       forall i :: 0 <= i < j ==> keys[1..][i] !in d.entries;
        assert keys[j + 1] == r.value;
        r
      else r
  }

  /** The object a merged-index key stands for: a folder when the folder index has it. */
  function Entry(t: Tree, k: string): (c: Child)
    requires Searchable(t)
    requires k in t.allFolders.entries || k in t.allFiles.entries
    ensures c.SubFolder? ==> c.id < |t.nodes|
  {
    if k in t.allFolders.entries then SubFolder(t.allFolders.entries[k]) else SubFile(t.allFiles.entries[k])
  }

  function EntryPath(t: Tree, c: Child): string
    requires c.SubFolder? ==> c.id < |t.nodes|
  {
    match c
    case SubFolder(id) => t.nodes[id].path
    case SubFile(file) => file.path
  }

  /** Every key is in one of the two indexes. */
  ghost predicate Keyed(t: Tree, keys: seq<string>) {
    forall k :: k in keys ==> k in t.allFolders.entries || k in t.allFiles.entries
  }

  /** The folder index refers to folders of the tree. */
  ghost predicate Searchable(t: Tree) {
    forall k :: k in t.allFolders.entries ==> t.allFolders.entries[k] < |t.nodes|
  }

  /** The key `k` stands for the folder `id`, which matches. */
  ghost predicate FolderHit(t: Tree, k: string, id: nat, caseSensitive: bool, matches: string -> bool)
    requires Searchable(t)
  {
    k in t.allFolders.entries && t.allFolders.entries[k] == id &&
    matches(CompPath(k, t.nodes[id].path, caseSensitive))
  }

  /** The key `k` stands for the file `f` (and no folder), which matches. */
  ghost predicate FileHit(t: Tree, k: string, f: FileNode, caseSensitive: bool, matches: string -> bool) {
    k !in t.allFolders.entries && k in t.allFiles.entries && t.allFiles.entries[k] == f &&
    matches(CompPath(k, f.path, caseSensitive))
  }

  /** One turn of the matching loop: the entry of `k` is added to its list when it matches. */
  function Step(t: Tree, h: Hits, k: string, caseSensitive: bool, matches: string -> bool): Hits
    requires Searchable(t)
    requires k in t.allFolders.entries || k in t.allFiles.entries
  {
    var c := Entry(t, k);
    if !matches(CompPath(k, EntryPath(t, c), caseSensitive)) then h
    else if c.SubFile? then Hits(h.folders, h.files + [c.file])
    else Hits(h.folders + [c.id], h.files)
  }

  /** The matching loop of the search over `keys`, in order. */
  function ScanHits(t: Tree, keys: seq<string>, caseSensitive: bool, matches: string -> bool): Hits
    requires Searchable(t) && Keyed(t, keys)
  {
    if keys == [] then Hits([], [])
    else Step(t, ScanHits(t, keys[..|keys| - 1], caseSensitive, matches), keys[|keys| - 1], caseSensitive, matches)
  }

  /**
   * The search: nothing for an empty query; an error when a key is both a
   * folder's and a file's; otherwise the folder index, then the file index,
   * matched in order.
   */
  function Search(t: Tree, query: string, caseSensitive: bool, exact: bool): (r: Option<Result<Hits>>)
    requires Wf(t)
    ensures r.None? <==> query == []
    ensures r.Some? && r.value.Err? <==> query != [] && FirstShared(t.allFiles.keys, t.allFolders).Some?
  {
    if query == [] then None
    else
      match FirstShared(t.allFiles.keys, t.allFolders)
      case Some(k) => Some(Err(DuplicateKey(k)))
      case None =>
        var keys := t.allFolders.keys + t.allFiles.keys;
        assert Searchable(t) && Keyed(t, keys);
        Some(Ok(ScanHits(t, keys, caseSensitive, Matcher(Query(query, caseSensitive), exact))))
  }

  /** The search over the root directory of a device. */
  method SearchPath(root: RootDirectory, query: string, caseSensitive: bool, exact: bool) returns (r: Option<Result<Hits>>)
    requires root.Valid()
    ensures r == Search(root.Snapshot(), query, caseSensitive, exact)
  {
    var t := root.Snapshot();
    if query == [] {
      return None;
    }
    var q := if caseSensitive then query else Lower(query);
    var shared := FirstShared(t.allFiles.keys, t.allFolders);
    if shared.Some? {
      return Some(Err(DuplicateKey(shared.value)));
    }
    var keys := t.allFolders.keys + t.allFiles.keys;
    assert Searchable(t) && Keyed(t, keys);
    var hits := MatchAll(t, keys, q, caseSensitive, exact);
    r := Some(Ok(hits));
  }

  /** The matching loop of the search: each entry whose last path component matches goes to its list. */
  method MatchAll(t: Tree, keys: seq<string>, q: string, caseSensitive: bool, exact: bool) returns (hits: Hits)
    requires Searchable(t) && Keyed(t, keys)
    ensures hits == ScanHits(t, keys, caseSensitive, Matcher(q, exact))
  {
    var folders: seq<nat> := [];
    var files: seq<FileNode> := [];
    var i := 0;
    while i < |keys|
      invariant 0 <= i <= |keys|
      invariant ScanHits(t, keys[..i], caseSensitive, Matcher(q, exact)) == Hits(folders, files)
    {
      var k := keys[i];
      ScanHitsSnoc(t, keys, i, caseSensitive, Matcher(q, exact));
      MatchStep(t, Hits(folders, files), k, q, caseSensitive, exact);
      var path := if k in t.allFolders.entries then t.nodes[t.allFolders.entries[k]].path else t.allFiles.entries[k].path;
      var comp := if caseSensitive then path else k;
      if Hit(q, comp, exact) {
        if k in t.allFolders.entries {
          folders := folders + [t.allFolders.entries[k]];
        } else {
          files := files + [t.allFiles.entries[k]];
        }
      }
      i := i + 1;
    }
    TakeAll(keys);
    hits := Hits(folders, files);
  }

  /** The scan over one more key is one more step. */
  lemma ScanHitsSnoc(t: Tree, keys: seq<string>, i: nat, caseSensitive: bool, matches: string -> bool)
    requires Searchable(t) && Keyed(t, keys) && i < |keys|
    ensures Keyed(t, keys[..i]) && Keyed(t, keys[..i + 1])
    ensures keys[i] in t.allFolders.entries || keys[i] in t.allFiles.entries
    ensures ScanHits(t, keys[..i + 1], caseSensitive, matches) ==
            Step(t, ScanHits(t, keys[..i], caseSensitive, matches), keys[i], caseSensitive, matches)
  {
    TakeTake(keys, i, i + 1);
    assert keys[i] in keys;
  }

  /** One step with the match test of a query, spelled out. */
  lemma MatchStep(t: Tree, h: Hits, k: string, q: string, caseSensitive: bool, exact: bool)
    requires Searchable(t)
    requires k in t.allFolders.entries || k in t.allFiles.entries
    ensures var path := if k in t.allFolders.entries then t.nodes[t.allFolders.entries[k]].path else t.allFiles.entries[k].path;
            var comp := if caseSensitive then path else k;
            Step(t, h, k, caseSensitive, Matcher(q, exact)) ==
              if !Hit(q, comp, exact) then h
              else if k in t.allFolders.entries then Hits(h.folders + [t.allFolders.entries[k]], h.files)
              else Hits(h.folders, h.files + [t.allFiles.entries[k]])
  {
  }

  // ---------------------------------------------------------------------------
  // Lemmas

  lemma StepFolder(t: Tree, h: Hits, k: string, caseSensitive: bool, matches: string -> bool, id: nat)
    requires Searchable(t)
    requires k in t.allFolders.entries || k in t.allFiles.entries
    ensures id in Step(t, h, k, caseSensitive, matches).folders <==>
              id in h.folders || FolderHit(t, k, id, caseSensitive, matches)
  {
  }

  lemma StepFile(t: Tree, h: Hits, k: string, caseSensitive: bool, matches: string -> bool, f: FileNode)
    requires Searchable(t)
    requires k in t.allFolders.entries || k in t.allFiles.entries
    ensures f in Step(t, h, k, caseSensitive, matches).files <==>
              f in h.files || FileHit(t, k, f, caseSensitive, matches)
  {
  }

  /** A folder is among the hits exactly when one of the keys stands for it and matches. */
  lemma {:induction false} ScanHitsFolder(t: Tree, keys: seq<string>, caseSensitive: bool, matches: string -> bool, id: nat)
    requires Searchable(t) && Keyed(t, keys)
    ensures id in ScanHits(t, keys, caseSensitive, matches).folders <==>
              exists j :: 0 <= j < |keys| && FolderHit(t, keys[j], id, caseSensitive, matches)
  {
    if keys != [] {
      var pre := keys[..|keys| - 1];
      var last := |keys| - 1;
      assert forall k :: k in pre ==> k in keys;
      ScanHitsFolder(t, pre, caseSensitive, matches, id);
      StepFolder(t, ScanHits(t, pre, caseSensitive, matches), keys[last], caseSensitive, matches, id);
      if exists j :: 0 <= j < |keys| && FolderHit(t, keys[j], id, caseSensitive, matches) {
        var j :| 0 <= j < |keys| && FolderHit(t, keys[j], id, caseSensitive, matches);
        if j < last {
          assert pre[j] == keys[j];
        }
      }
      if exists j :: 0 <= j < |pre| && FolderHit(t, pre[j], id, caseSensitive, matches) {
        var j :| 0 <= j < |pre| && FolderHit(t, pre[j], id, caseSensitive, matches);
        assert pre[j] == keys[j];
      }
    }
  }

  /** A file is among the hits exactly when one of the keys stands for it and matches. */
  lemma {:induction false} ScanHitsFile(t: Tree, keys: seq<string>, caseSensitive: bool, matches: string -> bool, f: FileNode)
    requires Searchable(t) && Keyed(t, keys)
    ensures f in ScanHits(t, keys, caseSensitive, matches).files <==>
              exists j :: 0 <= j < |keys| && FileHit(t, keys[j], f, caseSensitive, matches)
  {
    if keys != [] {
      var pre := keys[..|keys| - 1];
      var last := |keys| - 1;
      assert forall k :: k in pre ==> k in keys;
      ScanHitsFile(t, pre, caseSensitive, matches, f);
      StepFile(t, ScanHits(t, pre, caseSensitive, matches), keys[last], caseSensitive, matches, f);
      if exists j :: 0 <= j < |keys| && FileHit(t, keys[j], f, caseSensitive, matches) {
        var j :| 0 <= j < |keys| && FileHit(t, keys[j], f, caseSensitive, matches);
        if j < last {
          assert pre[j] == keys[j];
        }
      }
      if exists j :: 0 <= j < |pre| && FileHit(t, pre[j], f, caseSensitive, matches) {
        var j :| 0 <= j < |pre| && FileHit(t, pre[j], f, caseSensitive, matches);
        assert pre[j] == keys[j];
      }
    }
  }

  /**
   * On a consistently indexed tree whose two indexes share no key, a folder is
   * found exactly when it is indexed and the last component of its path
   * (lower-cased unless case-sensitive) matches the query.
   */
  lemma SearchFindsFolder(t: Tree, query: string, caseSensitive: bool, exact: bool, id: nat)
    requires Wf(t) && Indexed(t)
    requires query != [] && FirstShared(t.allFiles.keys, t.allFolders).None?
    ensures id in Search(t, query, caseSensitive, exact).value.value.folders <==>
              exists k :: k in t.allFolders.entries && t.allFolders.entries[k] == id &&
                          Hit(Query(query, caseSensitive),
                              if caseSensitive then t.nodes[id].path else Lower(t.nodes[id].path), exact)
  {
    var keys := t.allFolders.keys + t.allFiles.keys;
    var m := Matcher(Query(query, caseSensitive), exact);
    assert Searchable(t) && Keyed(t, keys);
    ScanHitsFolder(t, keys, caseSensitive, m, id);
    forall k | k in t.allFolders.entries && t.allFolders.entries[k] == id
      ensures FolderHit(t, k, id, caseSensitive, m) <==>
              m(if caseSensitive then t.nodes[id].path else Lower(t.nodes[id].path))
    {
    }
    if exists k :: k in t.allFolders.entries && t.allFolders.entries[k] == id &&
                   m(if caseSensitive then t.nodes[id].path else Lower(t.nodes[id].path)) {
      var k :| k in t.allFolders.entries && t.allFolders.entries[k] == id &&
               m(if caseSensitive then t.nodes[id].path else Lower(t.nodes[id].path));
      var j :| 0 <= j < |t.allFolders.keys| && t.allFolders.keys[j] == k;
      assert keys[j] == k;
      assert FolderHit(t, keys[j], id, caseSensitive, m);
    }
  }

  /**
   * On a consistently indexed tree whose two indexes share no key, a file is
   * found exactly when it is indexed and the last component of its path
   * (lower-cased unless case-sensitive) matches the query.
   */
  lemma SearchFindsFile(t: Tree, query: string, caseSensitive: bool, exact: bool, f: FileNode)
    requires Wf(t) && Indexed(t)
    requires query != [] && FirstShared(t.allFiles.keys, t.allFolders).None?
    ensures f in Search(t, query, caseSensitive, exact).value.value.files <==>
              exists k :: k in t.allFiles.entries && t.allFiles.entries[k] == f &&
                          Hit(Query(query, caseSensitive), if caseSensitive then f.path else Lower(f.path), exact)
  {
    var keys := t.allFolders.keys + t.allFiles.keys;
    var m := Matcher(Query(query, caseSensitive), exact);
    assert Searchable(t) && Keyed(t, keys);
    ScanHitsFile(t, keys, caseSensitive, m, f);
    var p := if caseSensitive then f.path else Lower(f.path);
    forall k | k in t.allFiles.entries && t.allFiles.entries[k] == f
      ensures FileHit(t, k, f, caseSensitive, m) <==> m(p)
    {
      assert k in t.allFiles.keys;
    }
    if exists k :: k in t.allFiles.entries && t.allFiles.entries[k] == f && m(p) {
      var k :| k in t.allFiles.entries && t.allFiles.entries[k] == f && m(p);
      var j :| 0 <= j < |t.allFiles.keys| && t.allFiles.keys[j] == k;
      assert keys[|t.allFolders.keys| + j] == k;
      assert FileHit(t, keys[|t.allFolders.keys| + j], f, caseSensitive, m);
    }
  }

  /** Every text contains itself. */
  lemma ContainsSelf(s: string)
    ensures Contains(s, s)
  {
    assert s[0..|s|] == s;
  }

  /** An exact match is also a substring match. */
  lemma ExactIsSubstring(q: string, comp: string)
    ensures Hit(q, comp, true) ==> Hit(q, comp, false)
  {
    if Hit(q, comp, true) {
      ContainsSelf(q);
    }
  }

  /** Every folder an exact search finds, the substring search finds too. */
  lemma ExactFoldersFoundBySubstring(t: Tree, keys: seq<string>, q: string, caseSensitive: bool, id: nat)
    requires Searchable(t) && Keyed(t, keys)
    ensures id in ScanHits(t, keys, caseSensitive, Matcher(q, true)).folders ==>
              id in ScanHits(t, keys, caseSensitive, Matcher(q, false)).folders
  {
    ScanHitsFolder(t, keys, caseSensitive, Matcher(q, true), id);
    ScanHitsFolder(t, keys, caseSensitive, Matcher(q, false), id);
    if id in ScanHits(t, keys, caseSensitive, Matcher(q, true)).folders {
      var j :| 0 <= j < |keys| && FolderHit(t, keys[j], id, caseSensitive, Matcher(q, true));
      ExactIsSubstring(q, CompPath(keys[j], t.nodes[id].path, caseSensitive));
      assert FolderHit(t, keys[j], id, caseSensitive, Matcher(q, false));
    }
  }

  /** Lower-casing twice is lower-casing once. */
  lemma LowerIdempotent(s: string)
    ensures Lower(Lower(s)) == Lower(s)
  {
    forall i | 0 <= i < |s| ensures Lower(Lower(s))[i] == Lower(s)[i] {
      var c := s[i];
      assert Lower(s)[i] == LowerChar(c);
    }
  }

  /** A search that ignores case gives the same result for a query in any case. */
  lemma CaseInsensitiveQuery(t: Tree, query: string, exact: bool)
    requires Wf(t)
    ensures Search(t, query, false, exact) == Search(t, Lower(query), false, exact)
  {
    LowerIdempotent(query);
  }
}
