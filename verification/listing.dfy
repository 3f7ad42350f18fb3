/**
 * `Root_Directory.load`: reading the output of `ls <path> -pRhs` into the tree.
 *
 * The listing is a parameter (the text the device would print). Lines ending in
 * `:` open a folder and make it current; lines with `total ` or ending in `/` add
 * nothing; every other non-empty line is `<size> <name>` and adds the file
 * `<current>/<name>`. The first size that does not parse stops the load, keeping
 * what was added before it.
 */
module Listing {
  import opened Errors
  import opened Seqs
  import opened Text
  import opened Sizes
  import opened Folders

  /** The mount point `/storage/emulated`, which the device lists as `/sdcard`. */
  const DefaultPath: string := "/storage/emulated"
  const Sdcard: string := "/sdcard"

  /** The directory `load` actually lists for `path`. */
  function ListedPath(path: string): (p: string)
    ensures p == Sdcard || p == path
    ensures p == Sdcard <==> path == DefaultPath || path == Sdcard
  {
    if path == DefaultPath then Sdcard else path
  }

  /**
   * `line.split(' ', 1)` reversed: the name after the first space and the size
   * before it; a line without a space is all name, with size "0".
   */
  function SplitEntry(line: string): (r: (string, string))
    ensures ' ' !in r.0 || r.0 == "0"
    ensures Find(line, " ", 0).None? ==> r == ("0", line)
    ensures Find(line, " ", 0).Some? ==> r.0 + " " + r.1 == line
  {
    match Find(line, " ", 0)
    case None => ("0", line)
    case Some(i) =>
      assert line[i..i + 1] == " ";
      assert forall j :: 0 <= j < i ==> line[j] != ' ' by {
        forall j | 0 <= j < i ensures line[j] != ' ' {
          assert !OccursAt(line, " ", j);
          assert line[j..j + 1][0] == line[j];
        }
      }
      assert line[..i] + " " + line[i + 1..] == line;
      (line[..i], line[i + 1..])
  }

  /** A line `load` skips after its folder check: a `total ` line, a folder entry, a folder header. */
  predicate Skipped(line: string) {
    Contains(line, "total ") || EndsWith(line, '/') || EndsWith(line, ':')
  }

  /** The folder check of the loop: a header `<dir>:` creates `<dir>` from the root and makes it current. */
  function Enter(t: Tree, last: string, line: string): (r: (Tree, string))
    requires Wf(t)
    ensures Wf(r.0)
    ensures !EndsWith(line, ':') ==> r == (t, last)
  {
    if EndsWith(line, ':') then (RootCreateFolder(t, line[..|line| - 1]).0, line[..|line| - 1])
    else (t, last)
  }

  /** The file part of the loop: `<size> <name>` becomes `create_file(<current>/<name>, <size>)`. */
  function AddEntry(t: Tree, last: string, line: string): (r: Result<(Tree, string)>)
    requires Wf(t)
    ensures r.Ok? ==> Wf(r.value.0) && r.value.1 == last
    ensures r.Err? <==> FloatSize(SplitEntry(LStripSpaces(line)).0).Err?
  {
    var (size, name) := SplitEntry(LStripSpaces(line));
    match RootCreateFile(t, last + "/" + name, size)
    case Err(e) => Err(e)
    case Ok((t', _)) => Ok((t', last))
  }

  /**
   * One line of the loop in `load`, from the tree and the current folder path.
   * Fails only when a file's size does not parse, and then changes nothing.
   */
  function LoadLine(t: Tree, last: string, line: string): (r: Result<(Tree, string)>)
    requires Wf(t)
    ensures r.Ok? ==> Wf(r.value.0)
    ensures r.Err? ==> line != [] && !Skipped(line) && FloatSize(SplitEntry(LStripSpaces(line)).0).Err?
  {
    if line == [] then Ok((t, last))
    else
      var (t1, last1) := Enter(t, last, line);
      if Skipped(line) then Ok((t1, last1)) else AddEntry(t1, last1, line)
  }

  /** Where a load stands: the tree, the current folder path, and the error that stopped it, if any. */
  datatype Outcome = Outcome(tree: Tree, last: string, error: Option<Error>)

  /** The loop of `load` over `lines`; after an error the remaining lines are not read. */
  function Replay(t: Tree, last: string, lines: seq<string>): (o: Outcome)
    requires Wf(t)
    ensures Wf(o.tree)
  {
    if lines == [] then Outcome(t, last, None)
    else Step(Replay(t, last, lines[..|lines| - 1]), lines[|lines| - 1])
  }

  /** One turn of the loop from an outcome: nothing once an error was raised. */
  function Step(o: Outcome, line: string): (o': Outcome)
    requires Wf(o.tree)
    ensures Wf(o'.tree)
    ensures o.error.Some? ==> o' == o
  {
    if o.error.Some? then o
    else
      match LoadLine(o.tree, o.last, line)
      case Err(e) => Outcome(o.tree, o.last, Some(e))
      case Ok((t', last')) => Outcome(t', last', None)
  }

  /** `load` on a listing text: empty output is an error; otherwise its lines, from no current folder. */
  function LoadListing(t: Tree, listing: string): (o: Outcome)
    requires Wf(t)
    ensures Wf(o.tree)
    ensures listing == [] ==> o == Outcome(t, "", Some(NoListing))
  {
    if listing == [] then Outcome(t, "", Some(NoListing))
    else Replay(t, "", SplitLines(listing))
  }

  // ---------------------------------------------------------------------------
  // Lemmas

  /** A header line `<dir>:` creates the folder `<dir>` from the root and makes it current. */
  lemma HeaderLine(t: Tree, last: string, dir: string)
    requires Wf(t)
    ensures LoadLine(t, last, dir + ":") == Ok((RootCreateFolder(t, dir).0, dir))
  {
    var line := dir + ":";
    assert line[..|line| - 1] == dir;
  }

  /** Empty lines, `total ` lines and folder entries ending in `/` change nothing. */
  lemma IgnoredLine(t: Tree, last: string, line: string)
    requires Wf(t)
    requires line == [] || ((Contains(line, "total ") || EndsWith(line, '/')) && !EndsWith(line, ':'))
    ensures LoadLine(t, last, line) == Ok((t, last))
  {
  }

  lemma SplitEntryOf(size: string, name: string)
    requires ' ' !in size
    ensures SplitEntry(size + " " + name) == (size, name)
  {
    var line := size + " " + name;
    assert OccursAt(line, " ", |size|);
    forall j | 0 <= j < |size| ensures !OccursAt(line, " ", j) {
      assert line[j..j + 1][0] == size[j];
    }
    assert Find(line, " ", 0) == Some(|size|);
    assert line[..|size|] == size;
    assert line[|size| + 1..] == name;
  }

  /**
   * A file line `<size> <name>` adds the file `<current>/<name>` with that size
   * from the root, and keeps the current folder.
   */
  lemma FileLine(t: Tree, last: string, size: string, name: string)
    requires Wf(t)
    requires size != [] && ' ' !in size
    requires !Skipped(size + " " + name)
    ensures LoadLine(t, last, size + " " + name) ==
            match RootCreateFile(t, last + "/" + name, size)
            case Err(e) => Err(e)
            case Ok((t', _)) => Ok((t', last))
  {
    var line := size + " " + name;
    assert line[0] == size[0];
    assert LStripSpaces(line) == line;
    SplitEntryOf(size, name);
  }

  /** Loading keeps the whole-tree indexes consistent, line by line. */
  lemma LoadLineIndexed(t: Tree, last: string, line: string)
    requires Wf(t) && Indexed(t)
    ensures LoadLine(t, last, line).Ok? ==> Indexed(LoadLine(t, last, line).value.0)
  {
    if line != [] {
      var (t1, last1) := Enter(t, last, line);
      if EndsWith(line, ':') {
        RootCreateFolderPlaces(t, line[..|line| - 1]);
      }
      assert Indexed(t1);
      if !Skipped(line) {
        var (size, name) := SplitEntry(LStripSpaces(line));
        RootCreateFilePlaces(t1, last1 + "/" + name, size);
      }
    }
  }

  lemma {:induction false} ReplayIndexed(t: Tree, last: string, lines: seq<string>)
    requires Wf(t) && Indexed(t)
    ensures Indexed(Replay(t, last, lines).tree)
  {
    if lines != [] {
      var o := Replay(t, last, lines[..|lines| - 1]);
      ReplayIndexed(t, last, lines[..|lines| - 1]);
      if o.error.None? {
        LoadLineIndexed(o.tree, o.last, lines[|lines| - 1]);
      }
    }
  }

  /** Once a load has failed, further lines change nothing. */
  lemma {:induction false} ReplayStops(t: Tree, last: string, lines: seq<string>, more: seq<string>)
    requires Wf(t) && Replay(t, last, lines).error.Some?
    ensures Replay(t, last, lines + more) == Replay(t, last, lines)
  {
    if more == [] {
      AppendEmpty(lines);
    } else {
      ReplayStops(t, last, lines, more[..|more| - 1]);
      ReplayStopsAt(t, last, lines, more);
    }
  }

  /** The inductive step of `ReplayStops`: the last of the further lines changes nothing either. */
  lemma ReplayStopsAt(t: Tree, last: string, lines: seq<string>, more: seq<string>)
    requires Wf(t) && more != []
    requires Replay(t, last, lines).error.Some?
    requires Replay(t, last, lines + more[..|more| - 1]) == Replay(t, last, lines)
    ensures Replay(t, last, lines + more) == Replay(t, last, lines)
  {
    AppendSnoc(lines, more);
    ReplaySnoc(t, last, lines + more[..|more| - 1], more[|more| - 1]);
  }

  /** Replaying one more line continues from where the shorter listing stopped. */
  lemma ReplaySnoc(t: Tree, last: string, lines: seq<string>, line: string)
    requires Wf(t)
    ensures Replay(t, last, lines + [line]) == Step(Replay(t, last, lines), line)
  {
    assert (lines + [line])[..|lines|] == lines;
  }
}
