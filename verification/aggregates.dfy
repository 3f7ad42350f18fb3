/**
 * What a folder reports about its subtree: `folders_count`, `files_count`,
 * `full_size` (and the `size` built from it), and `Base.__eq__`, which compares
 * names that embed the formatted size.
 *
 * The three aggregates follow the source's shape: a folder's own count plus the
 * aggregate of each child folder in turn. They are related to reference
 * enumerations of the subtree (`Descendants`, `FilesUnder`).
 */
module Aggregates {
  import opened Errors
  import opened Paths
  import opened Sizes
  import opened Dicts
  import opened Folders

  /** `folder_s`: the child folders of `f`, in insertion order. */
  function Kids(t: Tree, f: nat): (ks: seq<nat>)
    requires Wf(t) && f < |t.nodes|
    ensures forall i :: 0 <= i < |ks| ==> f < ks[i] < |t.nodes| && t.nodes[ks[i]].parent == Some(f)
    ensures forall i, j :: 0 <= i < j < |ks| ==> ks[i] != ks[j]
  {
    assert NodeOk(t.nodes, f);
    t.nodes[f].folders.Values()
  }

  /** `file_s`: the child files of `f`, in insertion order. */
  function FilesOf(t: Tree, f: nat): (fs: seq<FileNode>)
    requires Wf(t) && f < |t.nodes|
    ensures forall i :: 0 <= i < |fs| ==> fs[i].parent == f
  {
    assert NodeOk(t.nodes, f);
    t.nodes[f].files.Values()
  }

  /** Folder ids all of which are children of `f`. */
  predicate ChildIds(t: Tree, f: nat, ks: seq<nat>) {
    forall i :: 0 <= i < |ks| ==> f < ks[i] < |t.nodes|
  }

  // ---------------------------------------------------------------------------
  // The aggregates as the source computes them

  /** `folders_count`: the number of child folders plus each child's own count. */
  function FoldersCount(t: Tree, f: nat): nat
    requires Wf(t) && f < |t.nodes|
    decreases |t.nodes| - f, 1
  {
    |Kids(t, f)| + SumFoldersCount(t, f, Kids(t, f))
  }

  function SumFoldersCount(t: Tree, f: nat, ks: seq<nat>): nat
    requires Wf(t) && f < |t.nodes| && ChildIds(t, f, ks)
    decreases |t.nodes| - f, 0, |ks|
  {
    if ks == [] then 0 else FoldersCount(t, ks[0]) + SumFoldersCount(t, f, ks[1..])
  }

  /** `files_count`: the number of child files plus each child folder's count. */
  function FilesCount(t: Tree, f: nat): nat
    requires Wf(t) && f < |t.nodes|
    decreases |t.nodes| - f, 1
  {
    |FilesOf(t, f)| + SumFilesCount(t, f, Kids(t, f))
  }

  function SumFilesCount(t: Tree, f: nat, ks: seq<nat>): nat
    requires Wf(t) && f < |t.nodes| && ChildIds(t, f, ks)
    decreases |t.nodes| - f, 0, |ks|
  {
    if ks == [] then 0 else FilesCount(t, ks[0]) + SumFilesCount(t, f, ks[1..])
  }

  /** `sum(...)` of the files' sizes. */
  function SumSizes(fs: seq<FileNode>): real {
    if fs == [] then 0.0 else fs[0].fullSize + SumSizes(fs[1..])
  }

  /** `full_size`: the sizes of the child files plus each child folder's full size. */
  function FullSize(t: Tree, f: nat): real
    requires Wf(t) && f < |t.nodes|
    decreases |t.nodes| - f, 1
  {
    SumSizes(FilesOf(t, f)) + SumFullSize(t, f, Kids(t, f))
  }

  function SumFullSize(t: Tree, f: nat, ks: seq<nat>): real
    requires Wf(t) && f < |t.nodes| && ChildIds(t, f, ks)
    decreases |t.nodes| - f, 0, |ks|
  {
    if ks == [] then 0.0 else FullSize(t, ks[0]) + SumFullSize(t, f, ks[1..])
  }

  // ---------------------------------------------------------------------------
  // Reference enumerations of a subtree

  /** Every folder reachable from `f` through `folders`, each before its own subtree. */
  function Descendants(t: Tree, f: nat): seq<nat>
    requires Wf(t) && f < |t.nodes|
    decreases |t.nodes| - f, 1
  {
    DescendantsOf(t, f, Kids(t, f))
  }

  function DescendantsOf(t: Tree, f: nat, ks: seq<nat>): seq<nat>
    requires Wf(t) && f < |t.nodes| && ChildIds(t, f, ks)
    decreases |t.nodes| - f, 0, |ks|
  {
    if ks == [] then [] else [ks[0]] + Descendants(t, ks[0]) + DescendantsOf(t, f, ks[1..])
  }

  /** Every file held by `f` or by a folder reachable from it. */
  function FilesUnder(t: Tree, f: nat): seq<FileNode>
    requires Wf(t) && f < |t.nodes|
    decreases |t.nodes| - f, 1
  {
    FilesOf(t, f) + FilesUnderOf(t, f, Kids(t, f))
  }

  function FilesUnderOf(t: Tree, f: nat, ks: seq<nat>): seq<FileNode>
    requires Wf(t) && f < |t.nodes| && ChildIds(t, f, ks)
    decreases |t.nodes| - f, 0, |ks|
  {
    if ks == [] then [] else FilesUnder(t, ks[0]) + FilesUnderOf(t, f, ks[1..])
  }

  /** `x` lies strictly below `a`: following parents from `x` reaches `a`. */
  ghost predicate Below(t: Tree, x: nat, a: nat)
    requires Wf(t) && x < |t.nodes|
    decreases x
  {
    assert NodeOk(t.nodes, x);
    x != 0 && var p := t.nodes[x].parent.value; p == a || (a < p && Below(t, p, a))
  }

  // ---------------------------------------------------------------------------
  // The aggregates count and sum the enumerations

  /** `folders_count` is the number of folders in the subtree. */
  lemma {:induction false} FoldersCountIsDescendants(t: Tree, f: nat)
    requires Wf(t) && f < |t.nodes|
    ensures FoldersCount(t, f) == |Descendants(t, f)|
    decreases |t.nodes| - f, 1
  {
    SumFoldersCountIsDescendants(t, f, Kids(t, f));
  }

  lemma {:induction false} SumFoldersCountIsDescendants(t: Tree, f: nat, ks: seq<nat>)
    requires Wf(t) && f < |t.nodes| && ChildIds(t, f, ks)
    ensures |ks| + SumFoldersCount(t, f, ks) == |DescendantsOf(t, f, ks)|
    decreases |t.nodes| - f, 0, |ks|
  {
    if ks != [] {
      FoldersCountIsDescendants(t, ks[0]);
      SumFoldersCountIsDescendants(t, f, ks[1..]);
    }
  }

  /** `files_count` is the number of files in the subtree. */
  lemma {:induction false} FilesCountIsFilesUnder(t: Tree, f: nat)
    requires Wf(t) && f < |t.nodes|
    ensures FilesCount(t, f) == |FilesUnder(t, f)|
    decreases |t.nodes| - f, 1
  {
    SumFilesCountIsFilesUnder(t, f, Kids(t, f));
  }

  lemma {:induction false} SumFilesCountIsFilesUnder(t: Tree, f: nat, ks: seq<nat>)
    requires Wf(t) && f < |t.nodes| && ChildIds(t, f, ks)
    ensures SumFilesCount(t, f, ks) == |FilesUnderOf(t, f, ks)|
    decreases |t.nodes| - f, 0, |ks|
  {
    if ks != [] {
      FilesCountIsFilesUnder(t, ks[0]);
      SumFilesCountIsFilesUnder(t, f, ks[1..]);
    }
  }

  lemma {:induction false} SumSizesAppend(a: seq<FileNode>, b: seq<FileNode>)
    ensures SumSizes(a + b) == SumSizes(a) + SumSizes(b)
  {
    if a == [] {
      assert a + b == b;
    } else {
      assert (a + b)[1..] == a[1..] + b;
      SumSizesAppend(a[1..], b);
    }
  }

  /** `full_size` is the total size of the files in the subtree. */
  lemma {:induction false} FullSizeIsFilesUnder(t: Tree, f: nat)
    requires Wf(t) && f < |t.nodes|
    ensures FullSize(t, f) == SumSizes(FilesUnder(t, f))
    decreases |t.nodes| - f, 1
  {
    SumFullSizeIsFilesUnder(t, f, Kids(t, f));
    SumSizesAppend(FilesOf(t, f), FilesUnderOf(t, f, Kids(t, f)));
  }

  lemma {:induction false} SumFullSizeIsFilesUnder(t: Tree, f: nat, ks: seq<nat>)
    requires Wf(t) && f < |t.nodes| && ChildIds(t, f, ks)
    ensures SumFullSize(t, f, ks) == SumSizes(FilesUnderOf(t, f, ks))
    decreases |t.nodes| - f, 0, |ks|
  {
    if ks != [] {
      FullSizeIsFilesUnder(t, ks[0]);
      SumFullSizeIsFilesUnder(t, f, ks[1..]);
      SumSizesAppend(FilesUnder(t, ks[0]), FilesUnderOf(t, f, ks[1..]));
    }
  }

  // ---------------------------------------------------------------------------
  // Each folder of the subtree is counted once

  /** Every enumerated folder lies below `f`. */
  lemma {:induction false} DescendantsBelow(t: Tree, f: nat)
    requires Wf(t) && f < |t.nodes|
    ensures forall x :: x in Descendants(t, f) ==> x < |t.nodes| && Below(t, x, f)
    decreases |t.nodes| - f, 1
  {
    DescendantsOfBelow(t, f, Kids(t, f));
  }

  lemma {:induction false} DescendantsOfBelow(t: Tree, f: nat, ks: seq<nat>)
    requires Wf(t) && f < |t.nodes| && ChildIds(t, f, ks)
    requires forall i :: 0 <= i < |ks| ==> t.nodes[ks[i]].parent == Some(f)
    ensures forall x :: x in DescendantsOf(t, f, ks) ==>
              x < |t.nodes| && Below(t, x, f) && exists i :: 0 <= i < |ks| && (x == ks[i] || Below(t, x, ks[i]))
    decreases |t.nodes| - f, 0, |ks|
  {
    if ks != [] {
      var k := ks[0];
      DescendantsBelow(t, k);
      DescendantsOfBelow(t, f, ks[1..]);
      forall x | x in DescendantsOf(t, f, ks)
        ensures x < |t.nodes| && Below(t, x, f) && exists i :: 0 <= i < |ks| && (x == ks[i] || Below(t, x, ks[i]))
      {
        if x == k {
          assert NodeOk(t.nodes, k);
        } else if x in Descendants(t, k) {
          BelowParent(t, x, k, f);
        } else {
          assert x in DescendantsOf(t, f, ks[1..]);
          var i :| 0 <= i < |ks[1..]| && (x == ks[1..][i] || Below(t, x, ks[1..][i]));
          assert ks[1..][i] == ks[i + 1];
        }
      }
    }
  }

  /** Below a folder means below its parent too. */
  lemma {:induction false} BelowParent(t: Tree, x: nat, a: nat, p: nat)
    requires Wf(t) && x < |t.nodes| && a < |t.nodes|
    requires Below(t, x, a) && t.nodes[a].parent == Some(p)
    ensures Below(t, x, p)
    decreases x
  {
    assert NodeOk(t.nodes, x) && NodeOk(t.nodes, a);
    var q := t.nodes[x].parent.value;
    if q != a {
      BelowParent(t, q, a, p);
    }
  }

  /** The parent chain of `x` is one chain: of two folders above `x`, the lower lies below the higher. */
  lemma {:induction false} BelowChain(t: Tree, x: nat, a: nat, b: nat)
    requires Wf(t) && x < |t.nodes| && a < b < |t.nodes|
    requires Below(t, x, a) && Below(t, x, b)
    ensures Below(t, b, a)
    decreases x
  {
    assert NodeOk(t.nodes, x);
    var q := t.nodes[x].parent.value;
    if q != b {
      BelowChain(t, q, a, b);
    }
  }

  /** Nothing lies below two different children of the same folder. */
  lemma SiblingsDisjoint(t: Tree, x: nat, c: nat, d: nat, f: nat)
    requires Wf(t) && x < |t.nodes| && c < |t.nodes| && d < |t.nodes| && c != d
    requires t.nodes[c].parent == Some(f) && t.nodes[d].parent == Some(f)
    ensures !((x == c || Below(t, x, c)) && (x == d || Below(t, x, d)))
  {
    assert NodeOk(t.nodes, c) && NodeOk(t.nodes, d);
    assert !Below(t, c, d) && !Below(t, d, c);
    if x != c && x != d && Below(t, x, c) && Below(t, x, d) {
      if c < d {
        BelowChain(t, x, c, d);
      } else {
        BelowChain(t, x, d, c);
      }
    }
  }

  predicate NoDup<T(==)>(s: seq<T>) {
    forall i, j :: 0 <= i < j < |s| ==> s[i] != s[j]
  }

  lemma NoDupAppend<T>(a: seq<T>, b: seq<T>)
    requires NoDup(a) && NoDup(b) && forall x :: x in a ==> x !in b
    ensures NoDup(a + b)
  {
    forall i, j | 0 <= i < j < |a + b| ensures (a + b)[i] != (a + b)[j] {
      if i < |a| && j >= |a| {
        assert (a + b)[i] in a && (a + b)[j] == b[j - |a|];
      }
    }
  }

  /** The enumeration lists each folder of the subtree once. */
  lemma {:induction false} DescendantsDistinct(t: Tree, f: nat)
    requires Wf(t) && f < |t.nodes|
    ensures NoDup(Descendants(t, f))
    decreases |t.nodes| - f, 1
  {
    DescendantsOfDistinct(t, f, Kids(t, f));
  }

  lemma {:induction false} DescendantsOfDistinct(t: Tree, f: nat, ks: seq<nat>)
    requires Wf(t) && f < |t.nodes| && ChildIds(t, f, ks) && NoDup(ks)
    requires forall i :: 0 <= i < |ks| ==> t.nodes[ks[i]].parent == Some(f)
    ensures NoDup(DescendantsOf(t, f, ks))
    decreases |t.nodes| - f, 0, |ks|
  {
    if ks != [] {
      var k := ks[0];
      var rest := ks[1..];
      DescendantsDistinct(t, k);
      DescendantsBelow(t, k);
      DescendantsOfDistinct(t, f, rest);
      DescendantsOfBelow(t, f, rest);
      assert NodeOk(t.nodes, k);
      forall x | x in [k] + Descendants(t, k) ensures x !in DescendantsOf(t, f, rest) {
        if x in DescendantsOf(t, f, rest) {
          var i :| 0 <= i < |rest| && (x == rest[i] || Below(t, x, rest[i]));
          assert rest[i] == ks[i + 1];
          SiblingsDisjoint(t, x, k, rest[i], f);
          assert false;
        }
      }
      forall x | x in Descendants(t, k) ensures x != k {
        assert Below(t, x, k);
      }
      NoDupAppend([k], Descendants(t, k));
      NoDupAppend([k] + Descendants(t, k), DescendantsOf(t, f, rest));
    }
  }

  // ---------------------------------------------------------------------------
  // Names and equality

  /** `Base.name`: class name, base name and the size as `format_size` writes it. */
  datatype Name = Name(className: string, basename: string, size: Shown)

  /** A folder's name; the root directory's base name is its path. */
  function FolderName(t: Tree, f: nat): (n: Name)
    requires Wf(t) && f < |t.nodes|
    ensures n.size == FormatShown(FullSize(t, f))
  {
    if f == 0 then Name("Root_Directory", t.nodes[0].path, FormatShown(FullSize(t, 0)))
    else Name("Folder", Basename(t.nodes[f].path), FormatShown(FullSize(t, f)))
  }

  function FileName(x: FileNode): Name {
    Name("File", Basename(x.path), FormatShown(x.fullSize))
  }

  /**
   * `Base.__eq__` between two folders of one tree: equal names and equal parents.
   * Both roots have the same device as parent; a root and a plain folder already
   * differ in class name.
   */
  function FolderEq(t: Tree, a: nat, b: nat): bool
    requires Wf(t) && a < |t.nodes| && b < |t.nodes|
    decreases a + b
  {
    assert NodeOk(t.nodes, a) && NodeOk(t.nodes, b);
    FolderName(t, a) == FolderName(t, b) &&
    match (t.nodes[a].parent, t.nodes[b].parent)
    case (None, None) => true
    case (Some(pa), Some(pb)) => FolderEq(t, pa, pb)
    case _ => false
  }

  /** `Base.__eq__` between two entries of one tree. */
  function EntryEq(t: Tree, x: Child, y: Child): bool
    requires Wf(t)
    requires x.SubFolder? ==> x.id < |t.nodes|
    requires x.SubFile? ==> x.file.parent < |t.nodes|
    requires y.SubFolder? ==> y.id < |t.nodes|
    requires y.SubFile? ==> y.file.parent < |t.nodes|
  {
    match (x, y)
    case (SubFolder(a), SubFolder(b)) => FolderEq(t, a, b)
    case (SubFile(p), SubFile(q)) => FileName(p) == FileName(q) && FolderEq(t, p.parent, q.parent)
    case _ => false
  }

  /** Every folder equals itself. */
  lemma {:induction false} FolderEqReflexive(t: Tree, a: nat)
    requires Wf(t) && a < |t.nodes|
    ensures FolderEq(t, a, a)
    decreases a
  {
    assert NodeOk(t.nodes, a);
    if a != 0 {
      FolderEqReflexive(t, t.nodes[a].parent.value);
    }
  }

  /** Equality between folders is symmetric. */
  lemma {:induction false} FolderEqSymmetric(t: Tree, a: nat, b: nat)
    requires Wf(t) && a < |t.nodes| && b < |t.nodes|
    ensures FolderEq(t, a, b) == FolderEq(t, b, a)
    decreases a + b
  {
    assert NodeOk(t.nodes, a) && NodeOk(t.nodes, b);
    if a != 0 && b != 0 {
      FolderEqSymmetric(t, t.nodes[a].parent.value, t.nodes[b].parent.value);
    }
  }

  /**
   * Two files are equal when their base names, sizes and parents are; equal
   * files have equal base names and equal parents, and sizes shown alike: in the
   * same unit and at most a hundredth of it apart.
   */
  lemma FileEqClose(t: Tree, p: FileNode, q: FileNode)
    requires Wf(t) && p.parent < |t.nodes| && q.parent < |t.nodes|
    ensures Basename(p.path) == Basename(q.path) && p.fullSize == q.fullSize && FolderEq(t, p.parent, q.parent) ==>
              EntryEq(t, SubFile(p), SubFile(q))
    ensures EntryEq(t, SubFile(p), SubFile(q)) ==>
              && Basename(p.path) == Basename(q.path) && FolderEq(t, p.parent, q.parent)
              && FormatSize(p.fullSize).unit == FormatSize(q.fullSize).unit
              && (p.fullSize - q.fullSize) * 100.0 <= Scale(FormatSize(p.fullSize).unit) as real
              && (q.fullSize - p.fullSize) * 100.0 <= Scale(FormatSize(p.fullSize).unit) as real
  {
    if EntryEq(t, SubFile(p), SubFile(q)) {
      ShownClose(p.fullSize, q.fullSize);
    }
  }

  /**
   * Equal folders have full sizes shown alike: in the same unit and at most a
   * hundredth of it apart. Folders whose sizes are further apart are different.
   */
  lemma FolderEqSizesClose(t: Tree, a: nat, b: nat)
    requires Wf(t) && a < |t.nodes| && b < |t.nodes|
    ensures FolderEq(t, a, b) ==>
              && FormatSize(FullSize(t, a)).unit == FormatSize(FullSize(t, b)).unit
              && (FullSize(t, a) - FullSize(t, b)) * 100.0 <= Scale(FormatSize(FullSize(t, a)).unit) as real
              && (FullSize(t, b) - FullSize(t, a)) * 100.0 <= Scale(FormatSize(FullSize(t, a)).unit) as real
  {
    if FolderEq(t, a, b) {
      ShownClose(FullSize(t, a), FullSize(t, b));
    }
  }

  /** The names of a folder and of its ancestors, ending with the root directory's. */
  function NameChain(t: Tree, a: nat): (s: seq<Name>)
    requires Wf(t) && a < |t.nodes|
    ensures |s| >= 1 && s[0] == FolderName(t, a)
    ensures a == 0 <==> |s| == 1
    decreases a
  {
    assert NodeOk(t.nodes, a);
    if a == 0 then [FolderName(t, 0)] else [FolderName(t, a)] + NameChain(t, t.nodes[a].parent.value)
  }

  /**
   * `__eq__` between folders compares the names along the two parent chains: two
   * folders are equal exactly when they are at the same depth and have equal
   * names at every level up to the root.
   */
  lemma {:induction false} FolderEqNameChain(t: Tree, a: nat, b: nat)
    requires Wf(t) && a < |t.nodes| && b < |t.nodes|
    ensures FolderEq(t, a, b) <==> NameChain(t, a) == NameChain(t, b)
    decreases a + b
  {
    assert NodeOk(t.nodes, a) && NodeOk(t.nodes, b);
    if a != 0 && b != 0 {
      var pa, pb := t.nodes[a].parent.value, t.nodes[b].parent.value;
      FolderEqNameChain(t, pa, pb);
      ConsEq(FolderName(t, a), FolderName(t, b), NameChain(t, pa), NameChain(t, pb));
    } else if a != 0 || b != 0 {
      assert |NameChain(t, a)| != |NameChain(t, b)|;
    }
  }

  lemma ConsEq<T>(x: T, y: T, s: seq<T>, r: seq<T>)
    ensures [x] + s == [y] + r <==> x == y && s == r
  {
    if [x] + s == [y] + r {
      assert x == ([x] + s)[0] && y == ([y] + r)[0];
      assert s == ([x] + s)[1..] && r == ([y] + r)[1..];
    }
  }

  /** Equality between folders is transitive. */
  lemma FolderEqTransitive(t: Tree, a: nat, b: nat, c: nat)
    requires Wf(t) && a < |t.nodes| && b < |t.nodes| && c < |t.nodes|
    requires FolderEq(t, a, b) && FolderEq(t, b, c)
    ensures FolderEq(t, a, c)
  {
    FolderEqNameChain(t, a, b);
    FolderEqNameChain(t, b, c);
    FolderEqNameChain(t, a, c);
  }
}
