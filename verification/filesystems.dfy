/**
 * The mount table a device reports with `df`: `FileSystem.__init__`, the header
 * check and row filter of `Device.df`, and the choice of mount points the root
 * directory loads.
 */
module FileSystems {
  import opened Errors
  import opened Text
  import opened Sizes

  /** `type` 1 (six columns, ending in the mount point) or 2 (the older four-column table). */
  datatype Layout = Type1 | Type2

  /** A `FileSystem` row with its sizes read by `float_size`; type-2 rows have no use% and no mount point. */
  datatype FileSystem = FileSystem(
    layout: Layout,
    path: string,
    total: real,
    used: real,
    available: real,
    percentageUse: Option<string>,
    mountedOn: Option<string>)

  function Fields(l: Layout): nat {
    match l
    case Type1 => 6
    case Type2 => 4
  }

  /** `FileSystem.__init__`: unpack the whitespace-separated fields, then read used, available and total. */
  function ParseFileSystem(row: string, l: Layout): (r: Result<FileSystem>)
    ensures r.Err? <==> |SplitWs(row)| != Fields(l) ||
                        FloatSize(SplitWs(row)[2]).Err? ||
                        FloatSize(SplitWs(row)[3]).Err? ||
                        FloatSize(SplitWs(row)[1]).Err?
    ensures r.Ok? ==> var ts := SplitWs(row);
              && r.value.layout == l && r.value.path == ts[0]
              && r.value.total == FloatSize(ts[1]).value
              && r.value.used == FloatSize(ts[2]).value
              && r.value.available == FloatSize(ts[3]).value
              && r.value.percentageUse == (if l == Type1 then Some(ts[4]) else None)
              && r.value.mountedOn == (if l == Type1 then Some(ts[5]) else None)
  {
    var ts := SplitWs(row);
    if |ts| != Fields(l) then Err(FieldCount(Fields(l), |ts|))
    else
      match FloatSize(ts[2])
      case Err(e) => Err(e)
      case Ok(used) =>
        match FloatSize(ts[3])
        case Err(e) => Err(e)
        case Ok(available) =>
          match FloatSize(ts[1])
          case Err(e) => Err(e)
          case Ok(total) =>
            Ok(FileSystem(l, ts[0], total, used, available,
                          if l == Type1 then Some(ts[4]) else None,
                          if l == Type1 then Some(ts[5]) else None))
  }

  const Type1Header: seq<string> := ["Filesystem", "1K-blocks", "Used", "Available", "Use%", "Mounted", "on"]
  const Type2Header: seq<string> := ["Filesystem", "Size", "Used", "Free", "Blksize"]

  /** The header check of `df`; None where the source leaves `type` unbound. */
  function DetectLayout(header: string): (r: Option<Layout>)
    ensures r == Some(Type1) <==> SplitWs(header) == Type1Header
    ensures r == Some(Type2) <==> SplitWs(header) == Type2Header
  {
    var ts := SplitWs(header);
    if ts == Type1Header then Some(Type1)
    else if ts == Type2Header then Some(Type2)
    else None
  }

  /** A row `df` reads: non-empty and without `Permission denied`. */
  predicate IsDataRow(row: string) {
    row != [] && !Contains(row, "Permission denied")
  }

  /** The rows the loop reads, in order. */
  function DataRows(rows: seq<string>): (r: seq<string>)
    ensures forall k :: 0 <= k < |r| ==> IsDataRow(r[k])
    ensures |r| <= |rows|
  {
    if rows == [] then []
    else DataRows(rows[..|rows| - 1]) + (if IsDataRow(rows[|rows| - 1]) then [rows[|rows| - 1]] else [])
  }

  /** The file systems appended so far and the error that stopped the loop, if any. */
  datatype Scan = Scan(found: seq<FileSystem>, error: Option<Error>)

  /** The loop of `df` over the rows after the header. */
  function DfScan(layout: Option<Layout>, rows: seq<string>): Scan {
    if rows == [] then Scan([], None)
    else DfStep(layout, DfScan(layout, rows[..|rows| - 1]), rows[|rows| - 1])
  }

  /** One turn of that loop. */
  function DfStep(layout: Option<Layout>, s: Scan, row: string): (s': Scan)
    ensures s.error.Some? || !IsDataRow(row) ==> s' == s
  {
    if s.error.Some? || !IsDataRow(row) then s
    else
      match layout
      case None => Scan(s.found, Some(UnknownLayout))
      case Some(l) =>
        match ParseFileSystem(row, l)
        case Err(e) => Scan(s.found, Some(e))
        case Ok(fs) => Scan(s.found + [fs], None)
  }

  /** `Device.df` on the text `df` printed: a header line, then rows; no line at all is an error. */
  function DfOutput(text: string): (s: Scan)
    ensures SplitLines(text) == [] ==> s == Scan([], Some(NoOutput))
  {
    var lines := SplitLines(text);
    if lines == [] then Scan([], Some(NoOutput))
    else DfScan(DetectLayout(lines[0]), lines[1..])
  }

  // ---------------------------------------------------------------------------
  // Choosing the mount points to load

  /** The default mount point `/storage/emulated`. */
  const DefaultPath: string := "/storage/emulated"

  /**
   * `Root_Directory.__init__`: the mount points of the last two file systems, or
   * just `/sdcard` when the first of them is not the default one. A file system
   * without a mount point (type 2) fails.
   */
  function MountsToLoad(fss: seq<FileSystem>): (r: Result<seq<string>>)
    requires fss != []
  {
    var lastTwo := if |fss| >= 2 then fss[|fss| - 2..] else fss;
    if lastTwo[0].mountedOn.None? || lastTwo[|lastTwo| - 1].mountedOn.None? then Err(NoMountPoint)
    else
      var mounts := if |lastTwo| == 2 then [lastTwo[0].mountedOn.value, lastTwo[1].mountedOn.value]
                    else [lastTwo[0].mountedOn.value];
      if mounts[0] != DefaultPath then Ok(["/sdcard"]) else Ok(mounts)
  }

  // ---------------------------------------------------------------------------
  // Lemmas

  /**
   * With a known layout and no failing row, `df` appends exactly the parsed data
   * rows, in input order.
   */
  lemma {:induction false} DfScanParsesDataRows(l: Layout, rows: seq<string>)
    ensures var s := DfScan(Some(l), rows);
            s.error.None? ==>
              |s.found| == |DataRows(rows)| &&
              forall k :: 0 <= k < |s.found| ==> ParseFileSystem(DataRows(rows)[k], l) == Ok(s.found[k])
  {
    if rows != [] {
      DfScanParsesDataRows(l, rows[..|rows| - 1]);
    }
  }

  /** The error `df` stops with is that of its first data row that fails to parse. */
  lemma {:induction false} DfScanFirstError(l: Layout, rows: seq<string>)
    ensures var s := DfScan(Some(l), rows);
            s.error.Some? ==>
              |s.found| < |DataRows(rows)| &&
              ParseFileSystem(DataRows(rows)[|s.found|], l) == Err(s.error.value) &&
              forall k :: 0 <= k < |s.found| ==> ParseFileSystem(DataRows(rows)[k], l) == Ok(s.found[k])
  {
    if rows != [] {
      var pre := rows[..|rows| - 1];
      DfScanFirstError(l, pre);
      DfScanParsesDataRows(l, pre);
      DataRowsPrefix(pre, rows[|rows| - 1]);
    }
  }

  lemma DataRowsPrefix(pre: seq<string>, row: string)
    ensures DataRows(pre + [row]) == DataRows(pre) + (if IsDataRow(row) then [row] else [])
  {
    assert (pre + [row])[..|pre|] == pre;
  }

  /** With an unrecognised header, `df` fails exactly when there is a data row. */
  lemma {:induction false} DfScanUnknownLayout(rows: seq<string>)
    ensures DfScan(None, rows) == if DataRows(rows) == [] then Scan([], None) else Scan([], Some(UnknownLayout))
  {
    if rows != [] {
      DfScanUnknownLayout(rows[..|rows| - 1]);
    }
  }

  /**
   * `df` pads its columns: a row with leading whitespace and runs of whitespace
   * between its fields parses as the same fields joined by single spaces.
   */
  lemma ParseAlignedRow(l: Layout, lead: string, ts: seq<string>, gaps: seq<string>)
    requires AllSpace(lead) && |gaps| == |ts|
    requires forall i :: 0 <= i < |ts| ==> ts[i] != [] && NoSpace(ts[i]) && AllSpace(gaps[i])
    requires forall i :: 0 <= i < |ts| - 1 ==> gaps[i] != []
    ensures ParseFileSystem(lead + Columns(ts, gaps), l) == ParseFileSystem(JoinSpaced(ts), l)
  {
    SplitWsColumns(lead, ts, gaps);
    SplitWsJoin(ts);
  }

  /** A type-1 row written field by field reads back as those fields and their sizes. */
  lemma ParseType1Row(path: string, total: string, used: string, available: string, pct: string, mount: string)
    requires forall f :: f in [path, total, used, available, pct, mount] ==> f != [] && NoSpace(f)
    requires FloatSize(total).Ok? && FloatSize(used).Ok? && FloatSize(available).Ok?
    ensures ParseFileSystem(JoinSpaced([path, total, used, available, pct, mount]), Type1) ==
            Ok(FileSystem(Type1, path, FloatSize(total).value, FloatSize(used).value, FloatSize(available).value,
                          Some(pct), Some(mount)))
  {
    var ts := [path, total, used, available, pct, mount];
    assert forall i :: 0 <= i < |ts| ==> ts[i] in ts;
    SplitWsJoin(ts);
  }

  /**
   * A type-2 row that carries the `Blksize` column its header announces has five
   * fields, and the four-field unpacking rejects it.
   */
  lemma Type2RowWithBlockSize(path: string, size: string, used: string, free: string, blksize: string)
    requires forall f :: f in [path, size, used, free, blksize] ==> f != [] && NoSpace(f)
    ensures ParseFileSystem(JoinSpaced([path, size, used, free, blksize]), Type2) == Err(FieldCount(4, 5))
  {
    var ts := [path, size, used, free, blksize];
    assert forall i :: 0 <= i < |ts| ==> ts[i] in ts;
    SplitWsJoin(ts);
  }

  /**
   * The root directory loads one or two mount points. When the first of the last
   * two file systems is mounted on the default path, they are the mount points
   * of the last two file systems (of the only one, if there is one); otherwise
   * just `/sdcard`. A missing mount point among them fails.
   */
  lemma MountsListed(fss: seq<FileSystem>)
    requires fss != []
    ensures MountsToLoad(fss).Err? <==>
              fss[|fss| - 1].mountedOn.None? || (|fss| >= 2 && fss[|fss| - 2].mountedOn.None?)
    ensures var first := if |fss| >= 2 then fss[|fss| - 2] else fss[0];
            MountsToLoad(fss).Ok? ==>
              && (first.mountedOn.value != DefaultPath ==> MountsToLoad(fss).value == ["/sdcard"])
              && (first.mountedOn.value == DefaultPath && |fss| >= 2 ==>
                    MountsToLoad(fss).value == [DefaultPath, fss[|fss| - 1].mountedOn.value])
              && (first.mountedOn.value == DefaultPath && |fss| == 1 ==> MountsToLoad(fss).value == [DefaultPath])
  {
    if |fss| >= 2 {
      var lastTwo := fss[|fss| - 2..];
      assert lastTwo[0] == fss[|fss| - 2] && lastTwo[1] == fss[|fss| - 1];
    }
  }

  /** A four-field row of a type-2 table reads back as its path and sizes, with no use% and no mount point. */
  lemma ParseType2Row(path: string, total: string, used: string, available: string)
    requires forall f :: f in [path, total, used, available] ==> f != [] && NoSpace(f)
    requires FloatSize(total).Ok? && FloatSize(used).Ok? && FloatSize(available).Ok?
    ensures ParseFileSystem(JoinSpaced([path, total, used, available]), Type2) ==
            Ok(FileSystem(Type2, path, FloatSize(total).value, FloatSize(used).value, FloatSize(available).value,
                          None, None))
  {
    var ts := [path, total, used, available];
    assert forall i :: 0 <= i < |ts| ==> ts[i] in ts;
    SplitWsJoin(ts);
  }
}
