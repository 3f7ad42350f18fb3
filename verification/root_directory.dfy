/**
 * `Root_Directory` as an object whose dictionaries are updated in place.
 *
 * The folder objects of one device are the records of `nodes` (the root at
 * index 0); `allFolders` and `allFiles` are the root's whole-tree indexes. Each
 * method is tied to the function in Folders or Listing that computes the new
 * state, and the properties are proved about those functions.
 */
module RootDirectories {
  import opened Errors
  import opened Seqs
  import opened Text
  import opened Sizes
  import opened Dicts
  import opened Folders
  import opened Listing
  import opened FileSystems

  /** The tree a load leaves behind, and the error that stopped it, if any. */
  datatype Loaded = Loaded(tree: Tree, error: Option<Error>)

  /** `load` for each mount point in turn; the first failing listing stops the rest. */
  function LoadAll(t: Tree, mounts: seq<string>, ls: string -> string): (r: Loaded)
    requires Wf(t)
    ensures Wf(r.tree)
  {
    if mounts == [] then Loaded(t, None)
    else
      var r := LoadAll(t, mounts[..|mounts| - 1], ls);
      if r.error.Some? then r
      else
        var o := LoadListing(r.tree, ls(ListedPath(mounts[|mounts| - 1])));
        Loaded(o.tree, o.error)
  }

  /**
   * `Root_Directory.__init__`: an empty root, then, when the device reported
   * file systems, the chosen mount points loaded in order.
   */
  function LoadRoot(fss: seq<FileSystem>, ls: string -> string): (r: Loaded)
    ensures Wf(r.tree)
    ensures fss == [] ==> r == Loaded(EmptyTree(), None)
  {
    if fss == [] then Loaded(EmptyTree(), None)
    else
      match MountsToLoad(fss)
      case Err(e) => Loaded(EmptyTree(), Some(e))
      case Ok(ms) => LoadAll(EmptyTree(), ms, ls)
  }

  lemma {:induction false} LoadAllIndexed(t: Tree, mounts: seq<string>, ls: string -> string)
    requires Wf(t) && Indexed(t)
    ensures Indexed(LoadAll(t, mounts, ls).tree)
  {
    if mounts != [] {
      var r := LoadAll(t, mounts[..|mounts| - 1], ls);
      LoadAllIndexed(t, mounts[..|mounts| - 1], ls);
      if r.error.None? {
        var listing := ls(ListedPath(mounts[|mounts| - 1]));
        if listing != [] {
          ReplayIndexed(r.tree, "", SplitLines(listing));
        }
      }
    }
  }

  /** A loaded root directory keeps its whole-tree indexes consistent. */
  lemma LoadRootIndexed(fss: seq<FileSystem>, ls: string -> string)
    ensures Indexed(LoadRoot(fss, ls).tree)
  {
    if fss != [] && MountsToLoad(fss).Ok? {
      LoadAllIndexed(EmptyTree(), MountsToLoad(fss).value, ls);
    }
  }

  class RootDirectory {
    var nodes: seq<FolderNode>
    var allFolders: Dict<nat>
    var allFiles: Dict<FileNode>

    function Snapshot(): Tree
      reads this
    {
      Tree(nodes, allFolders, allFiles)
    }

    ghost predicate Valid()
      reads this
    {
      Wf(Snapshot())
    }

    /** An empty root directory: the root folder `/` alone, empty indexes. */
    constructor ()
      ensures Snapshot() == EmptyTree()
      ensures Valid() && Indexed(Snapshot())
    {
      nodes := [NewFolder(None, RootPath)];
      allFolders := EmptyDict();
      allFiles := EmptyDict();
    }

    /** `add_folder` on folder `f`. */
    method AddFolder(f: nat, path: string) returns (id: nat)
      requires Valid() && f < |nodes|
      modifies this
      ensures (Snapshot(), id) == AddFolderAt(old(Snapshot()), f, path)
      ensures Valid() && id == old(|nodes|) && nodes[id] == NewFolder(Some(f), path)
    {
      id := |nodes|;
      var n := nodes[f];
      nodes := nodes[f := n.(folders := n.folders.Put(Lower(path), id))] + [NewFolder(Some(f), path)];
    }

    /** `add_file` on folder `f`; nothing changes when the size does not parse. */
    method AddFile(f: nat, path: string, size: string) returns (r: Result<FileNode>)
      requires Valid() && f < |nodes|
      modifies this
      ensures r.Err? <==> AddFileAt(old(Snapshot()), f, path, size).Err?
      ensures r.Err? ==> Snapshot() == old(Snapshot()) && r.error == AddFileAt(old(Snapshot()), f, path, size).error
      ensures r.Ok? ==> (Snapshot(), r.value) == AddFileAt(old(Snapshot()), f, path, size).value
      ensures Valid()
    {
      match FloatSize(size) {
        case Err(e) =>
          r := Err(e);
        case Ok(bytes) =>
          var file := FileNode(f, path, bytes);
          var n := nodes[f];
          nodes := nodes[f := n.(files := n.files.Put(Lower(path), file))];
          r := Ok(file);
      }
    }

    /** `Folder.create_folder` on folder `f`: hand over to the resolved parent, else add here. */
    method CreateFolderFrom(f: nat, path: string) returns (id: nat)
      requires Valid() && f < |nodes|
      modifies this
      ensures (Snapshot(), id) == Folders.CreateFolderFrom(old(Snapshot()), f, path)
      ensures Valid()
      decreases |nodes| - f
    {
      var p := ParentFolder(Snapshot(), f, path);
      if p.Some? && nodes[p.value].path != nodes[f].path {
        id := CreateFolderFrom(p.value, path);
      } else {
        id := AddFolder(f, path);
      }
    }

    /** `Folder.create_file` on folder `f`. */
    method CreateFileFrom(f: nat, path: string, size: string) returns (r: Result<FileNode>)
      requires Valid() && f < |nodes|
      modifies this
      ensures r.Err? <==> Folders.CreateFileFrom(old(Snapshot()), f, path, size).Err?
      ensures r.Err? ==> Snapshot() == old(Snapshot()) && r.error == Folders.CreateFileFrom(old(Snapshot()), f, path, size).error
      ensures r.Ok? ==> (Snapshot(), r.value) == Folders.CreateFileFrom(old(Snapshot()), f, path, size).value
      ensures Valid()
      decreases |nodes| - f
    {
      var p := ParentFolder(Snapshot(), f, path);
      if p.Some? && nodes[p.value].path != nodes[f].path {
        r := CreateFileFrom(p.value, path, size);
      } else {
        r := AddFile(f, path, size);
      }
    }

    /**
     * `Root_Directory.create_folder`: the folder goes under the indexed folder of
     * its directory (or the root) and is recorded in `all_folders`.
     */
    method CreateFolder(path: string) returns (id: nat)
      requires Valid()
      modifies this
      ensures (Snapshot(), id) == RootCreateFolder(old(Snapshot()), path)
      ensures Valid()
      ensures Indexed(old(Snapshot())) ==> Indexed(Snapshot())
      ensures nodes[id] == NewFolder(Some(Target(old(Snapshot()), path)), path) || !Indexed(old(Snapshot()))
      ensures allFolders.Get(Lower(path)) == Some(id)
    {
      ghost var t := Snapshot();
      id := CreateFolderFrom(0, path);
      allFolders := allFolders.Put(Lower(nodes[id].path), id);
      if Indexed(t) {
        RootCreateFolderPlaces(t, path);
      }
    }

    /**
     * `Root_Directory.create_file`: the file goes under the indexed folder of its
     * directory (or the root) and is recorded in `all_files`; nothing changes when
     * the size does not parse.
     */
    method CreateFile(path: string, size: string) returns (r: Result<FileNode>)
      requires Valid()
      modifies this
      ensures r.Err? <==> RootCreateFile(old(Snapshot()), path, size).Err?
      ensures r.Err? ==> Snapshot() == old(Snapshot()) && r.error == RootCreateFile(old(Snapshot()), path, size).error
      ensures r.Ok? ==> (Snapshot(), r.value) == RootCreateFile(old(Snapshot()), path, size).value
      ensures r.Ok? ==> allFiles.Get(Lower(path)) == Some(r.value)
      ensures Valid()
      ensures Indexed(old(Snapshot())) ==> Indexed(Snapshot())
    {
      ghost var t := Snapshot();
      r := CreateFileFrom(0, path, size);
      if r.Ok? {
        allFiles := allFiles.Put(Lower(r.value.path), r.value);
      }
      if Indexed(t) {
        RootCreateFilePlaces(t, path, size);
      }
    }

    /**
     * `Root_Directory.load(path)`, reading `ls(<listed path>)` as the output of
     * `ls <listed path> -pRhs`.
     */
    method Load(path: string, ls: string -> string) returns (err: Option<Error>)
      requires Valid()
      modifies this
      ensures Snapshot() == LoadListing(old(Snapshot()), ls(ListedPath(path))).tree
      ensures err == LoadListing(old(Snapshot()), ls(ListedPath(path))).error
      ensures Valid()
      ensures Indexed(old(Snapshot())) ==> Indexed(Snapshot())
    {
      ghost var t0 := Snapshot();
      var listing := ls(ListedPath(path));
      if listing == [] {
        return Some(NoListing);
      }
      var lines := SplitLines(listing);
      var last := "";
      var i := 0;
      while i < |lines|
        invariant 0 <= i <= |lines|
        invariant Valid()
        invariant Replay(t0, "", lines[..i]) == Outcome(Snapshot(), last, None)
      {
        ReplaySnoc(t0, "", lines[..i], lines[i]);
        TakeSnoc(lines, i);
        var e;
        last, e := LoadListingLine(last, lines[i]);
        if e.Some? {
          ReplayStops(t0, "", lines[..i + 1], lines[i + 1..]);
          TakeDrop(lines, i + 1);
          LoadIndexed(t0, lines);
          return e;
        }
        i := i + 1;
      }
      TakeAll(lines);
      LoadIndexed(t0, lines);
      err := None;
    }

    /** One line of the `load` loop, performed on this root directory. */
    method LoadListingLine(last: string, line: string) returns (last': string, err: Option<Error>)
      requires Valid()
      modifies this
      ensures Step(Outcome(old(Snapshot()), last, None), line) == Outcome(Snapshot(), last', err)
      ensures Valid()
    {
      last' := last;
      err := None;
      if line != [] {
        if EndsWith(line, ':') {
          var id := CreateFolder(line[..|line| - 1]);
          last' := nodes[id].path;
        }
        if !Skipped(line) {
          var (size, name) := SplitEntry(LStripSpaces(line));
          var r := CreateFile(last' + "/" + name, size);
          if r.Err? {
            err := Some(r.error);
          }
        }
      }
    }

    /**
     * The loading part of `Root_Directory.__init__`: the mount points chosen from
     * the device's file systems, each loaded in turn.
     */
    method LoadMounts(fss: seq<FileSystem>, ls: string -> string) returns (err: Option<Error>)
      requires Valid()
      modifies this
      ensures fss == [] ==> Snapshot() == old(Snapshot()) && err == None
      ensures fss != [] && MountsToLoad(fss).Err? ==> Snapshot() == old(Snapshot()) && err == Some(MountsToLoad(fss).error)
      ensures fss != [] && MountsToLoad(fss).Ok? ==>
                Loaded(Snapshot(), err) == LoadAll(old(Snapshot()), MountsToLoad(fss).value, ls)
      ensures Valid()
    {
      if fss == [] {
        return None;
      }
      var chosen := MountsToLoad(fss);
      if chosen.Err? {
        return Some(chosen.error);
      }
      err := LoadEach(chosen.value, ls);
    }

    /** The `for fs in strs_fs: self.load(fs)` loop of `Root_Directory.__init__`. */
    method LoadEach(mounts: seq<string>, ls: string -> string) returns (err: Option<Error>)
      requires Valid()
      modifies this
      ensures Loaded(Snapshot(), err) == LoadAll(old(Snapshot()), mounts, ls)
      ensures Valid()
    {
      ghost var t0 := Snapshot();
      var i := 0;
      while i < |mounts|
        invariant 0 <= i <= |mounts|
        invariant Valid()
        invariant LoadAll(t0, mounts[..i], ls) == Loaded(Snapshot(), None)
      {
        LoadAllSnoc(t0, mounts[..i], mounts[i], ls);
        TakeSnoc(mounts, i);
        err := Load(mounts[i], ls);
        if err.Some? {
          LoadAllStops(t0, mounts[..i + 1], mounts[i + 1..], ls);
          TakeDrop(mounts, i + 1);
          return;
        }
        i := i + 1;
      }
      TakeAll(mounts);
      err := None;
    }
  }

  lemma LoadAllSnoc(t: Tree, mounts: seq<string>, m: string, ls: string -> string)
    requires Wf(t)
    ensures var r := LoadAll(t, mounts, ls);
            LoadAll(t, mounts + [m], ls) ==
              if r.error.Some? then r
              else Loaded(LoadListing(r.tree, ls(ListedPath(m))).tree, LoadListing(r.tree, ls(ListedPath(m))).error)
  {
    assert (mounts + [m])[..|mounts|] == mounts;
  }

  /** Once a mount point failed to load, the remaining ones are not loaded. */
  lemma {:induction false} LoadAllStops(t: Tree, mounts: seq<string>, more: seq<string>, ls: string -> string)
    requires Wf(t) && LoadAll(t, mounts, ls).error.Some?
    ensures LoadAll(t, mounts + more, ls) == LoadAll(t, mounts, ls)
  {
    if more == [] {
      AppendEmpty(mounts);
    } else {
      LoadAllStops(t, mounts, more[..|more| - 1], ls);
      LoadAllStopsAt(t, mounts, more, ls);
    }
  }

  /** The inductive step of `LoadAllStops`. */
  lemma LoadAllStopsAt(t: Tree, mounts: seq<string>, more: seq<string>, ls: string -> string)
    requires Wf(t) && more != []
    requires LoadAll(t, mounts, ls).error.Some?
    requires LoadAll(t, mounts + more[..|more| - 1], ls) == LoadAll(t, mounts, ls)
    ensures LoadAll(t, mounts + more, ls) == LoadAll(t, mounts, ls)
  {
    AppendSnoc(mounts, more);
    LoadAllSnoc(t, mounts + more[..|more| - 1], more[|more| - 1], ls);
  }

  lemma LoadIndexed(t: Tree, lines: seq<string>)
    requires Wf(t)
    ensures Indexed(t) ==> Indexed(Replay(t, "", lines).tree)
  {
    if Indexed(t) {
      ReplayIndexed(t, "", lines);
    }
  }

  /** Loading a fresh root from the device's file systems is `LoadRoot`. */
  method NewRootDirectory(fss: seq<FileSystem>, ls: string -> string) returns (root: RootDirectory, err: Option<Error>)
    ensures fresh(root)
    ensures Loaded(root.Snapshot(), err) == LoadRoot(fss, ls)
    ensures root.Valid() && Indexed(root.Snapshot())
  {
    root := new RootDirectory();
    err := root.LoadMounts(fss, ls);
    LoadRootIndexed(fss, ls);
  }
}
