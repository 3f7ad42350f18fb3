/**
 * The folder tree of one device: `File`, `Folder` and the `Root_Directory` that
 * indexes them.
 *
 * Folder objects are records in a node table; a folder's identity is its index
 * in that table and index 0 is the root directory itself. A folder is always
 * created after its parent, so a child's index is larger than its parent's. The
 * functions here are the values the operations compute; the class in
 * root_directory.dfy performs them in place.
 */
module Folders {
  import opened Errors
  import opened Text
  import opened Paths
  import opened Sizes
  import opened Dicts

  /** `Root_Directory.path` */
  const RootPath: string := "/"
  /** The second directory name `get_parent_folder` treats as "this folder". */
  const StorageRoot: string := "/storage"

  /** A `File`: the folder it was added to, its path as given, its size in bytes. */
  datatype FileNode = FileNode(parent: nat, path: string, fullSize: real)

  /**
   * A `Folder`: its parent (None for the root directory, whose parent is the
   * device), its path as given, and its child folders and files keyed by
   * lower-cased path.
   */
  datatype FolderNode = FolderNode(parent: Option<nat>, path: string, folders: Dict<nat>, files: Dict<FileNode>)

  /**
   * A `Root_Directory` with every folder created through it (`nodes`, the root at
   * index 0) and its two whole-tree indexes `all_folders` and `all_files`.
   */
  datatype Tree = Tree(nodes: seq<FolderNode>, allFolders: Dict<nat>, allFiles: Dict<FileNode>)

  function NewFolder(parent: Option<nat>, path: string): FolderNode {
    FolderNode(parent, path, EmptyDict(), EmptyDict())
  }

  // ---------------------------------------------------------------------------
  // Invariants

  ghost predicate Parented(nodes: seq<FolderNode>, i: nat)
    requires i < |nodes|
  {
    if i == 0 then nodes[0].parent == None && nodes[0].path == RootPath
    else nodes[i].parent.Some? && nodes[i].parent.value < i
  }

  /** Child folders are later nodes that point back here, stored under their lower-cased path, once each. */
  ghost predicate FolderLinks(nodes: seq<FolderNode>, i: nat)
    requires i < |nodes|
  {
    var d := nodes[i].folders;
    && d.Valid()
    && (forall k :: k in d.entries ==>
          i < d.entries[k] < |nodes| &&
          nodes[d.entries[k]].parent == Some(i) &&
          Lower(nodes[d.entries[k]].path) == k)
    && (forall k1, k2 :: k1 in d.entries && k2 in d.entries && k1 != k2 ==> d.entries[k1] != d.entries[k2])
  }

  /** Child files point back here and are stored under their lower-cased path. */
  ghost predicate FileLinks(nodes: seq<FolderNode>, i: nat)
    requires i < |nodes|
  {
    var d := nodes[i].files;
    && d.Valid()
    && (forall k :: k in d.entries ==> d.entries[k].parent == i && Lower(d.entries[k].path) == k)
  }

  ghost predicate NodeOk(nodes: seq<FolderNode>, i: nat)
    requires i < |nodes|
  {
    Parented(nodes, i) && FolderLinks(nodes, i) && FileLinks(nodes, i)
  }

  ghost predicate NodesOk(nodes: seq<FolderNode>) {
    |nodes| > 0 && forall i :: 0 <= i < |nodes| ==> NodeOk(nodes, i)
  }

  /** The shape every tree built by these operations has. */
  ghost predicate Wf(t: Tree) {
    && NodesOk(t.nodes)
    && t.allFolders.Valid()
    && t.allFiles.Valid()
    && (forall k :: k in t.allFolders.entries ==> 0 < t.allFolders.entries[k] < |t.nodes|)
  }

  /** Every key stored in a non-root folder has that folder's lower-cased path as directory name. */
  ghost predicate KeysUnder(nodes: seq<FolderNode>, i: nat)
    requires i < |nodes|
  {
    var dir := Lower(nodes[i].path);
    && (forall k :: k in nodes[i].folders.entries ==> Dirname(k) == dir)
    && (forall k :: k in nodes[i].files.entries ==> Dirname(k) == dir)
  }

  /** The whole-tree indexes hold each entry under its lower-cased path. */
  ghost predicate Indexed(t: Tree) {
    && (forall k :: k in t.allFolders.entries ==>
          t.allFolders.entries[k] < |t.nodes| && Lower(t.nodes[t.allFolders.entries[k]].path) == k)
    && (forall k :: k in t.allFiles.entries ==>
          t.allFiles.entries[k].parent < |t.nodes| && Lower(t.allFiles.entries[k].path) == k)
    && (forall i :: 0 < i < |t.nodes| ==> KeysUnder(t.nodes, i))
  }

  /** A fresh `Root_Directory`: the root alone, empty indexes. */
  function EmptyTree(): (t: Tree)
    ensures Wf(t) && Indexed(t)
  {
    Tree([NewFolder(None, RootPath)], EmptyDict(), EmptyDict())
  }

  // ---------------------------------------------------------------------------
  // Folder.add_folder, add_file, get_parent_folder, create_folder, create_file

  /** `Folder.add_folder` on folder `f`: a new folder, child of `f`, stored under `path.lower()`. */
  function AddFolderAt(t: Tree, f: nat, path: string): (r: (Tree, nat))
    requires Wf(t) && f < |t.nodes|
    ensures Wf(r.0)
    ensures r.1 == |t.nodes| && |r.0.nodes| == |t.nodes| + 1 && r.0.nodes[r.1].path == path
    ensures r.0.allFolders == t.allFolders && r.0.allFiles == t.allFiles
    ensures r.0.nodes[r.1] == NewFolder(Some(f), path)
    ensures r.0.nodes[f].folders == t.nodes[f].folders.Put(Lower(path), r.1)
    ensures r.0.nodes[f].files == t.nodes[f].files
    ensures r.0.nodes[f].parent == t.nodes[f].parent && r.0.nodes[f].path == t.nodes[f].path
    ensures forall j :: 0 <= j < |t.nodes| && j != f ==> r.0.nodes[j] == t.nodes[j]
  {
    var id := |t.nodes|;
    var n := t.nodes[f];
    var t' := t.(nodes := t.nodes[f := n.(folders := n.folders.Put(Lower(path), id))] + [NewFolder(Some(f), path)]);
    assert forall i :: 0 <= i < |t.nodes| ==> t'.nodes[i].parent == t.nodes[i].parent && t'.nodes[i].path == t.nodes[i].path;
    forall i | 0 <= i < |t'.nodes| ensures NodeOk(t'.nodes, i) {
      if i < |t.nodes| {
        assert NodeOk(t.nodes, i);
      }
    }
    (t', id)
  }

  /** `Folder.add_file` on folder `f`; fails, changing nothing, when the size does not parse. */
  function AddFileAt(t: Tree, f: nat, path: string, size: string): (r: Result<(Tree, FileNode)>)
    requires Wf(t) && f < |t.nodes|
    ensures r.Err? <==> FloatSize(size).Err?
    ensures r.Ok? ==> Wf(r.value.0) && |r.value.0.nodes| == |t.nodes|
    ensures r.Ok? ==> r.value.1.path == path && r.value.1.parent == f
    ensures r.Ok? ==> r.value.0.allFolders == t.allFolders && r.value.0.allFiles == t.allFiles
    ensures r.Ok? ==> r.value.1 == FileNode(f, path, FloatSize(size).value)
    ensures r.Ok? ==> r.value.0.nodes[f].files == t.nodes[f].files.Put(Lower(path), r.value.1)
    ensures r.Ok? ==> r.value.0.nodes[f].folders == t.nodes[f].folders
    ensures r.Ok? ==> r.value.0.nodes[f].parent == t.nodes[f].parent && r.value.0.nodes[f].path == t.nodes[f].path
    ensures r.Ok? ==> forall j :: 0 <= j < |t.nodes| && j != f ==> r.value.0.nodes[j] == t.nodes[j]
  {
    match FloatSize(size)
    case Err(e) => Err(e)
    case Ok(bytes) =>
      var file := FileNode(f, path, bytes);
      var n := t.nodes[f];
      var t' := t.(nodes := t.nodes[f := n.(files := n.files.Put(Lower(path), file))]);
      forall i | 0 <= i < |t'.nodes| ensures NodeOk(t'.nodes, i) {
        assert NodeOk(t.nodes, i);
      }
      Ok((t', file))
  }

  /**
   * `get_parent_folder` on folder `f`: `f` itself when the lower-cased path's
   * directory is `f`'s path or "/storage"; otherwise the folder stored under that
   * directory in `f`'s `all_folders` (the root's whole-tree index, or for a plain
   * folder its own child folders); otherwise nothing.
   */
  function ParentFolder(t: Tree, f: nat, name: string): (r: Option<nat>)
    requires Wf(t) && f < |t.nodes|
    ensures r.Some? ==> r.value < |t.nodes| && (r.value == f || f < r.value)
  {
    var dir := Dirname(Lower(name));
    if dir == t.nodes[f].path || dir == StorageRoot then Some(f)
    else if f == 0 then t.allFolders.Get(dir)
    else
      assert NodeOk(t.nodes, f);
      t.nodes[f].folders.Get(dir)
  }

  /** `Folder.create_folder` on folder `f`: hand over to the resolved parent, else add here. */
  function CreateFolderFrom(t: Tree, f: nat, path: string): (r: (Tree, nat))
    requires Wf(t) && f < |t.nodes|
    ensures Wf(r.0)
    ensures r.1 == |t.nodes| && |r.0.nodes| == |t.nodes| + 1 && r.0.nodes[r.1].path == path
    ensures r.0.allFolders == t.allFolders && r.0.allFiles == t.allFiles
    decreases |t.nodes| - f
  {
    var p := ParentFolder(t, f, path);
    if p.Some? && t.nodes[p.value].path != t.nodes[f].path then CreateFolderFrom(t, p.value, path)
    else AddFolderAt(t, f, path)
  }

  /** `Folder.create_file` on folder `f`. */
  function CreateFileFrom(t: Tree, f: nat, path: string, size: string): (r: Result<(Tree, FileNode)>)
    requires Wf(t) && f < |t.nodes|
    ensures r.Err? <==> FloatSize(size).Err?
    ensures r.Ok? ==> Wf(r.value.0) && |r.value.0.nodes| == |t.nodes|
    ensures r.Ok? ==> r.value.1.path == path && r.value.1.parent < |t.nodes|
    ensures r.Ok? ==> r.value.0.allFolders == t.allFolders && r.value.0.allFiles == t.allFiles
    decreases |t.nodes| - f
  {
    var p := ParentFolder(t, f, path);
    if p.Some? && t.nodes[p.value].path != t.nodes[f].path then CreateFileFrom(t, p.value, path, size)
    else AddFileAt(t, f, path, size)
  }

  /** `Root_Directory.create_folder`: create from the root, then index the folder. */
  function RootCreateFolder(t: Tree, path: string): (r: (Tree, nat))
    requires Wf(t)
    ensures Wf(r.0)
    ensures r.1 == |t.nodes| && |r.0.nodes| == |t.nodes| + 1 && r.0.nodes[r.1].path == path
  {
    var (t1, id) := CreateFolderFrom(t, 0, path);
    (t1.(allFolders := t1.allFolders.Put(Lower(t1.nodes[id].path), id)), id)
  }

  /** `Root_Directory.create_file`: create from the root, then index the file. */
  function RootCreateFile(t: Tree, path: string, size: string): (r: Result<(Tree, FileNode)>)
    requires Wf(t)
    ensures r.Err? <==> FloatSize(size).Err?
    ensures r.Ok? ==> Wf(r.value.0) && |r.value.0.nodes| == |t.nodes| && r.value.1.path == path
  {
    match CreateFileFrom(t, 0, path, size)
    case Err(e) => Err(e)
    case Ok((t1, file)) => Ok((t1.(allFiles := t1.allFiles.Put(Lower(file.path), file)), file))
  }

  // ---------------------------------------------------------------------------
  // Where the root directory puts an entry

  /**
   * The folder an entry for `path` belongs under: the indexed folder named by the
   * lower-cased path's directory, unless that directory is "/" or "/storage" or
   * is not indexed, in which case the root.
   */
  function Target(t: Tree, path: string): (f: nat)
    requires Wf(t)
    ensures f < |t.nodes|
  {
    var dir := Dirname(Lower(path));
    if dir != RootPath && dir != StorageRoot && dir in t.allFolders.entries then t.allFolders.entries[dir] else 0
  }

  /**
   * In a non-root folder reached through the index, `create_*` never hands over
   * again: the directory is the folder's own path, or no child is stored under it.
   */
  lemma PlainCreateIsAdd(t: Tree, f: nat, path: string, size: string)
    requires Wf(t) && Indexed(t) && 0 < f < |t.nodes|
    requires Dirname(Lower(path)) == Lower(t.nodes[f].path)
    ensures CreateFolderFrom(t, f, path) == AddFolderAt(t, f, path)
    ensures CreateFileFrom(t, f, path, size) == AddFileAt(t, f, path, size)
  {
    var dir := Dirname(Lower(path));
    DirnameFixpoint(dir);
    LowerAllSlashes(t.nodes[f].path);
    assert KeysUnder(t.nodes, f);
    assert ParentFolder(t, f, path) == None || ParentFolder(t, f, path) == Some(f);
  }

  /** The root's `create_*` resolves to `Target`. */
  lemma RootCreateResolves(t: Tree, path: string, size: string)
    requires Wf(t) && Indexed(t)
    ensures CreateFolderFrom(t, 0, path) == AddFolderAt(t, Target(t, path), path)
    ensures CreateFileFrom(t, 0, path, size) == AddFileAt(t, Target(t, path), path, size)
  {
    var dir := Dirname(Lower(path));
    var f := Target(t, path);
    assert NodeOk(t.nodes, 0);
    if f != 0 {
      assert Lower(t.nodes[f].path) == dir;
      assert Lower(RootPath) == RootPath;
      assert t.nodes[f].path != RootPath;
      assert ParentFolder(t, 0, path) == Some(f);
      PlainCreateIsAdd(t, f, path, size);
    } else {
      assert ParentFolder(t, 0, path) == None || ParentFolder(t, 0, path) == Some(0);
    }
  }

  /**
   * `Root_Directory.create_folder` places the new folder under `Target`, records
   * it in `all_folders` under its lower-cased path, changes no other folder and
   * keeps the indexes consistent.
   */
  lemma RootCreateFolderPlaces(t: Tree, path: string)
    requires Wf(t) && Indexed(t)
    ensures var (t', id) := RootCreateFolder(t, path);
            var f := Target(t, path);
            && Indexed(t')
            && t'.nodes[id] == NewFolder(Some(f), path)
            && t'.nodes[f].folders == t.nodes[f].folders.Put(Lower(path), id)
            && t'.nodes[f].files == t.nodes[f].files
            && (forall j :: 0 <= j < |t.nodes| && j != f ==> t'.nodes[j] == t.nodes[j])
            && t'.allFolders == t.allFolders.Put(Lower(path), id)
            && t'.allFiles == t.allFiles
  {
    RootCreateResolves(t, path, "0");
    var f := Target(t, path);
    var (t1, id) := AddFolderAt(t, f, path);
    var n := t.nodes[f];
    assert t1.nodes == t.nodes[f := n.(folders := n.folders.Put(Lower(path), id))] + [NewFolder(Some(f), path)];
    var t' := t1.(allFolders := t.allFolders.Put(Lower(path), id));
    assert RootCreateFolder(t, path) == (t', id);
    IndexedAfterFolder(t, f, path, t');
  }

  lemma IndexedAfterFolder(t: Tree, f: nat, path: string, t': Tree)
    requires Wf(t) && Indexed(t) && f == Target(t, path)
    requires var id := |t.nodes|;
             var n := t.nodes[f];
             t' == Tree(t.nodes[f := n.(folders := n.folders.Put(Lower(path), id))] + [NewFolder(Some(f), path)],
                        t.allFolders.Put(Lower(path), id), t.allFiles)
    ensures Indexed(t')
  {
    var id := |t.nodes|;
    assert t'.nodes[id].path == path;
    forall k | k in t'.allFolders.entries
      ensures t'.allFolders.entries[k] < |t'.nodes| && Lower(t'.nodes[t'.allFolders.entries[k]].path) == k
    {
      if k != Lower(path) {
        assert t'.allFolders.entries[k] == t.allFolders.entries[k];
      }
    }
    forall i | 0 < i < |t'.nodes| ensures KeysUnder(t'.nodes, i) {
      if i < |t.nodes| {
        assert KeysUnder(t.nodes, i);
        if i == f {
          assert Dirname(Lower(path)) == Lower(t.nodes[f].path);
        }
      }
    }
  }

  /**
   * `Root_Directory.create_file` fails, changing nothing, exactly when the size
   * does not parse; otherwise the file goes under `Target` with the parsed size,
   * is recorded in `all_files` under its lower-cased path, and nothing else
   * changes.
   */
  lemma RootCreateFilePlaces(t: Tree, path: string, size: string)
    requires Wf(t) && Indexed(t)
    ensures RootCreateFile(t, path, size).Ok? <==> FloatSize(size).Ok?
    ensures RootCreateFile(t, path, size).Ok? ==>
            var (t', file) := RootCreateFile(t, path, size).value;
            var f := Target(t, path);
            && Indexed(t')
            && file == FileNode(f, path, FloatSize(size).value)
            && t'.nodes[f].files == t.nodes[f].files.Put(Lower(path), file)
            && t'.nodes[f].folders == t.nodes[f].folders
            && (forall j :: 0 <= j < |t.nodes| && j != f ==> t'.nodes[j] == t.nodes[j])
            && t'.allFiles == t.allFiles.Put(Lower(path), file)
            && t'.allFolders == t.allFolders
  {
    RootCreateResolves(t, path, size);
    var f := Target(t, path);
    var r := RootCreateFile(t, path, size);
    if r.Ok? {
      var (t', file) := r.value;
      forall i | 0 < i < |t'.nodes| ensures KeysUnder(t'.nodes, i) {
        assert KeysUnder(t.nodes, i);
        if i == f {
          assert Dirname(Lower(path)) == Lower(t.nodes[f].path);
        }
      }
    }
  }

  // ---------------------------------------------------------------------------
  // Ordered children, len, get_folder

  /** A child as `Folder.__getitem__` lists it. */
  datatype Child = SubFolder(id: nat) | SubFile(file: FileNode)

  function FolderChildren(ids: seq<nat>): seq<Child> {
    seq(|ids|, i requires 0 <= i < |ids| => SubFolder(ids[i]))
  }

  function FileChildren(files: seq<FileNode>): seq<Child> {
    seq(|files|, i requires 0 <= i < |files| => SubFile(files[i]))
  }

  /** `folder[:]`: the child folders in insertion order, then the child files in insertion order. */
  function Children(t: Tree, f: nat): seq<Child>
    requires Wf(t) && f < |t.nodes|
  {
    assert NodeOk(t.nodes, f);
    FolderChildren(t.nodes[f].folders.Values()) + FileChildren(t.nodes[f].files.Values())
  }

  /** `Base.__len__` on a folder: the length of `folder[:]` when it has children, else 0. */
  function Len(t: Tree, f: nat): (n: nat)
    requires Wf(t) && f < |t.nodes|
    ensures n == |t.nodes[f].folders.keys| + |t.nodes[f].files.keys|
  {
    if Children(t, f) != [] then |Children(t, f)| else 0
  }

  /** `Folder.get_folder`: the child folder stored under `lower(path + '/' + slash(name))`. */
  function GetFolder(t: Tree, f: nat, name: string): (r: Option<nat>)
    requires Wf(t) && f < |t.nodes|
    ensures r.Some? ==> f < r.value < |t.nodes| && t.nodes[r.value].parent == Some(f)
  {
    assert NodeOk(t.nodes, f);
    t.nodes[f].folders.Get(Lower(t.nodes[f].path + "/" + Slash(name)))
  }

  /**
   * Adding a file under a new key lists it after every other child; under an
   * existing key it takes the old file's place.
   */
  lemma ChildrenAfterAddFile(t: Tree, f: nat, path: string, size: string)
    requires Wf(t) && f < |t.nodes| && AddFileAt(t, f, path, size).Ok?
    ensures var (t', file) := AddFileAt(t, f, path, size).value;
            && (Lower(path) !in t.nodes[f].files.entries ==> Children(t', f) == Children(t, f) + [SubFile(file)])
            && (Lower(path) in t.nodes[f].files.entries ==>
                  |Children(t', f)| == |Children(t, f)| &&
                  forall i :: 0 <= i < |Children(t, f)| ==>
                    Children(t', f)[i] == if Children(t, f)[i].SubFile? && Lower(Children(t, f)[i].file.path) == Lower(path)
                                          then SubFile(file) else Children(t, f)[i])
  {
    var (t', file) := AddFileAt(t, f, path, size).value;
    assert NodeOk(t.nodes, f);
    var files := t.nodes[f].files;
    var folders := FolderChildren(t.nodes[f].folders.Values());
    assert t'.nodes[f].folders == t.nodes[f].folders && t'.nodes[f].files == files.Put(Lower(path), file);
    PutValues(files, Lower(path), file);
    if Lower(path) !in files.entries {
      FileChildrenSnoc(folders, files.Values(), file);
    } else {
      assert forall i :: 0 <= i < |files.keys| ==> Lower(files.Values()[i].path) == files.keys[i];
      FileChildrenReplace(folders, files.Values(), files.Put(Lower(path), file).Values(), files.keys,
                          Lower(path), file);
    }
  }

  lemma FileChildrenSnoc(folders: seq<Child>, vs: seq<FileNode>, file: FileNode)
    ensures folders + FileChildren(vs + [file]) == folders + FileChildren(vs) + [SubFile(file)]
  {
    assert FileChildren(vs + [file]) == FileChildren(vs) + [SubFile(file)];
  }

  lemma FileChildrenReplace(folders: seq<Child>, vs: seq<FileNode>, vs': seq<FileNode>, keys: seq<string>,
                            k: string, file: FileNode)
    requires |vs| == |vs'| == |keys|
    requires forall i :: 0 <= i < |keys| ==> Lower(vs[i].path) == keys[i]
    requires forall i :: 0 <= i < |keys| ==> vs'[i] == if keys[i] == k then file else vs[i]
    requires forall c :: c in folders ==> c.SubFolder?
    ensures var (old_, new_) := (folders + FileChildren(vs), folders + FileChildren(vs'));
            |new_| == |old_| &&
            forall i :: 0 <= i < |old_| ==>
              new_[i] == if old_[i].SubFile? && Lower(old_[i].file.path) == k then SubFile(file) else old_[i]
  {
    var (old_, new_) := (folders + FileChildren(vs), folders + FileChildren(vs'));
    forall i | 0 <= i < |old_|
      ensures new_[i] == if old_[i].SubFile? && Lower(old_[i].file.path) == k then SubFile(file) else old_[i]
    {
      if i < |folders| {
        assert folders[i] in folders;
      } else {
        assert old_[i] == SubFile(vs[i - |folders|]) && new_[i] == SubFile(vs'[i - |folders|]);
      }
    }
  }

  /**
   * Adding a folder under a new key lists it after the other folders and before
   * the files; under an existing key it takes the old folder's place.
   */
  lemma ChildrenAfterAddFolder(t: Tree, f: nat, path: string)
    requires Wf(t) && f < |t.nodes|
    ensures var (t', id) := AddFolderAt(t, f, path);
            var kids := |t.nodes[f].folders.keys|;
            && (Lower(path) !in t.nodes[f].folders.entries ==>
                  Children(t', f) == Children(t, f)[..kids] + [SubFolder(id)] + Children(t, f)[kids..])
            && (Lower(path) in t.nodes[f].folders.entries ==>
                  |Children(t', f)| == |Children(t, f)| &&
                  forall i :: 0 <= i < |Children(t, f)| ==>
                    Children(t', f)[i] == if i < kids && t.nodes[f].folders.keys[i] == Lower(path)
                                          then SubFolder(id) else Children(t, f)[i])
  {
    var (t', id) := AddFolderAt(t, f, path);
    assert NodeOk(t.nodes, f);
    var d := t.nodes[f].folders;
    var files := FileChildren(t.nodes[f].files.Values());
    assert t'.nodes[f].files == t.nodes[f].files && t'.nodes[f].folders == d.Put(Lower(path), id);
    PutValues(d, Lower(path), id);
    if Lower(path) !in d.entries {
      FolderChildrenSnoc(d.Values(), id, files);
    } else {
      FolderChildrenReplace(d.Values(), d.Put(Lower(path), id).Values(), d.keys, Lower(path), id, files);
    }
  }

  lemma FolderChildrenSnoc(ids: seq<nat>, id: nat, files: seq<Child>)
    ensures var old_ := FolderChildren(ids) + files;
            FolderChildren(ids + [id]) + files == old_[..|ids|] + [SubFolder(id)] + old_[|ids|..]
  {
    var old_ := FolderChildren(ids) + files;
    assert FolderChildren(ids + [id]) == FolderChildren(ids) + [SubFolder(id)];
    assert old_[..|ids|] == FolderChildren(ids);
    assert old_[|ids|..] == files;
  }

  lemma FolderChildrenReplace(ids: seq<nat>, ids': seq<nat>, keys: seq<string>, k: string, id: nat, files: seq<Child>)
    requires |ids| == |ids'| == |keys|
    requires forall i :: 0 <= i < |keys| ==> ids'[i] == if keys[i] == k then id else ids[i]
    ensures var (old_, new_) := (FolderChildren(ids) + files, FolderChildren(ids') + files);
            |new_| == |old_| &&
            forall i :: 0 <= i < |old_| ==>
              new_[i] == if i < |keys| && keys[i] == k then SubFolder(id) else old_[i]
  {
  }

  /** A folder added as `<folder path>/<name>` is what `get_folder(name)` finds, with or without surrounding slashes. */
  lemma GetFolderFindsAdded(t: Tree, f: nat, name: string)
    requires Wf(t) && f < |t.nodes|
    requires name == [] || (name[0] != '/' && name[|name| - 1] != '/')
    ensures var (t', id) := AddFolderAt(t, f, t.nodes[f].path + "/" + name);
            GetFolder(t', f, name) == Some(id) && GetFolder(t', f, "/" + name + "/") == Some(id)
  {
    SlashTrims(name);
  }
}
