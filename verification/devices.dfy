/**
 * Android devices as the bridge reports them: one line of `adb devices -l`
 * becomes a `Device`, which reads its properties (`getprop`), its mount table
 * (`df`) and its storage tree; `Devices` keeps the devices by serial number.
 *
 * What the device prints for each command is a parameter: a `Bridge` gives the
 * text of `getprop`, of `df` and of `ls <path> -pRhs` for a device's serial.
 */
module Devices {
  import opened Errors
  import opened Seqs
  import opened Text
  import opened Dicts
  import opened FileSystems
  import opened RootDirectories

  /** The identity fields of a `devices -l` line, after `_split`. */
  datatype DeviceInfo = DeviceInfo(unique: string, product: string, model: string, name: string, transportId: string)

  /** The text each command prints on the device with a given serial number. */
  datatype Bridge = Bridge(getprop: string -> string, df: string -> string, ls: (string, string) -> string)

  /** The listing of `ls <path> -pRhs` on the device `unique`. */
  function Ls(b: Bridge, unique: string): string -> string {
    p => b.ls(unique, p)
  }

  // ---------------------------------------------------------------------------
  // Parsing a `devices -l` line

  /** `Device._split`: the text after the first `:` (up to a second one). */
  function AfterColon(field: string): (r: Result<string>)
    ensures r.Err? ==> r.error == MissingSeparator(field)
  {
    match SecondField(field, ":")
    case None => Err(MissingSeparator(field))
    case Some(v) => Ok(v)
  }

  /**
   * `Device.__init__` up to the properties: six whitespace-separated fields
   * (serial, state, `product:`, `model:`, `device:`, `transport_id:`), and the
   * value part of the last four, read in the order product, name, model,
   * transport id.
   */
  function ParseDeviceLine(line: string): (r: Result<DeviceInfo>)
    ensures |SplitWs(line)| != 6 ==> r == Err(FieldCount(6, |SplitWs(line)|))
    ensures r.Ok? ==> |SplitWs(line)| == 6 && r.value.unique == SplitWs(line)[0]
    ensures r.Ok? ==> AfterColon(SplitWs(line)[2]) == Ok(r.value.product) &&
                      AfterColon(SplitWs(line)[3]) == Ok(r.value.model) &&
                      AfterColon(SplitWs(line)[4]) == Ok(r.value.name) &&
                      AfterColon(SplitWs(line)[5]) == Ok(r.value.transportId)
  {
    var ts := SplitWs(line);
    if |ts| != 6 then Err(FieldCount(6, |ts|))
    else
      match AfterColon(ts[2])
      case Err(e) => Err(e)
      case Ok(product) =>
        match AfterColon(ts[4])
        case Err(e) => Err(e)
        case Ok(name) =>
          match AfterColon(ts[3])
          case Err(e) => Err(e)
          case Ok(model) =>
            match AfterColon(ts[5])
            case Err(e) => Err(e)
            case Ok(transportId) => Ok(DeviceInfo(ts[0], product, model, name, transportId))
  }

  /** A `key:value` field whose value has no colon gives back that value. */
  lemma AfterColonOf(key: string, v: string)
    requires key != [] && NoSpace(key) && ':' !in key
    requires NoSpace(v) && ':' !in v
    ensures key + ":" + v != [] && NoSpace(key + ":" + v)
    ensures AfterColon(key + ":" + v) == Ok(v)
  {
    var f := key + ":" + v;
    forall k | 0 <= k < |f| ensures !IsSpace(f[k]) {
      if k < |key| {
        assert f[k] == key[k];
      } else if k > |key| {
        assert f[k] == v[k - |key| - 1];
      }
    }
    SecondFieldOfPair(key, ":", v);
  }

  /** Six fields joined by spaces, whose last four carry `key:value` pairs, give the identity they spell. */
  lemma ParseOfFields(f0: string, f1: string, f2: string, f3: string, f4: string, f5: string, info: DeviceInfo)
    requires f0 != [] && NoSpace(f0) && f1 != [] && NoSpace(f1) && f2 != [] && NoSpace(f2)
    requires f3 != [] && NoSpace(f3) && f4 != [] && NoSpace(f4) && f5 != [] && NoSpace(f5)
    requires f0 == info.unique
    requires AfterColon(f2) == Ok(info.product)
    requires AfterColon(f3) == Ok(info.model)
    requires AfterColon(f4) == Ok(info.name)
    requires AfterColon(f5) == Ok(info.transportId)
    ensures ParseDeviceLine(JoinSpaced([f0, f1, f2, f3, f4, f5])) == Ok(info)
  {
    var fields := [f0, f1, f2, f3, f4, f5];
    forall i | 0 <= i < |fields| ensures fields[i] != [] && NoSpace(fields[i]) {
      if i < 3 {
        assert fields[i] == [f0, f1, f2][i];
      } else {
        assert fields[i] == [f3, f4, f5][i - 3];
      }
    }
    SplitWsJoin(fields);
  }

  /**
   * `adb devices -l` pads its columns: a line with leading whitespace and runs
   * of whitespace between its fields reads as the same fields joined by single
   * spaces.
   */
  lemma ParseAlignedDeviceLine(lead: string, ts: seq<string>, gaps: seq<string>)
    requires AllSpace(lead) && |gaps| == |ts|
    requires forall i :: 0 <= i < |ts| ==> ts[i] != [] && NoSpace(ts[i]) && AllSpace(gaps[i])
    requires forall i :: 0 <= i < |ts| - 1 ==> gaps[i] != []
    ensures ParseDeviceLine(lead + Columns(ts, gaps)) == ParseDeviceLine(JoinSpaced(ts))
  {
    SplitWsColumns(lead, ts, gaps);
    SplitWsJoin(ts);
  }

  /** A field `<key>:<v>` that `split()` keeps whole. */
  function Tagged(key: string, v: string): string {
    key + ":" + v
  }

  /**
   * A line written from a device's identity reads back as that identity,
   * whatever the state and the keys in front of the values (such as
   * `product`, `model`, `device`, `transport_id`).
   */
  lemma DeviceLineRoundTrip(info: DeviceInfo, state: string, keys: seq<string>)
    requires info.unique != [] && NoSpace(info.unique) && state != [] && NoSpace(state)
    requires |keys| == 4 && forall k :: 0 <= k < 4 ==> keys[k] != [] && NoSpace(keys[k]) && ':' !in keys[k]
    requires NoSpace(info.product) && ':' !in info.product
    requires NoSpace(info.model) && ':' !in info.model
    requires NoSpace(info.name) && ':' !in info.name
    requires NoSpace(info.transportId) && ':' !in info.transportId
    ensures ParseDeviceLine(JoinSpaced([info.unique, state, Tagged(keys[0], info.product), Tagged(keys[1], info.model),
                                        Tagged(keys[2], info.name), Tagged(keys[3], info.transportId)])) == Ok(info)
  {
    AfterColonOf(keys[0], info.product);
    AfterColonOf(keys[1], info.model);
    AfterColonOf(keys[2], info.name);
    AfterColonOf(keys[3], info.transportId);
    ParseOfFields(info.unique, state, Tagged(keys[0], info.product), Tagged(keys[1], info.model),
                  Tagged(keys[2], info.name), Tagged(keys[3], info.transportId), info);
  }

  // ---------------------------------------------------------------------------
  // Properties (`getprop`)

  /** `Device._split2`: the text after the first `: [`, less its last character. */
  function PropValue(line: string): (r: Result<string>)
    ensures r.Err? ==> r.error == MissingSeparator(line)
  {
    match SecondField(line, ": [")
    case None => Err(MissingSeparator(line))
    case Some(v) => Ok(if v == [] then [] else v[..|v| - 1])
  }

  /** A `getprop` line `[key]: [value]` gives back the value. */
  lemma PropLine(key: string, v: string)
    requires ':' !in key && ':' !in v
    ensures PropValue("[" + key + "]: [" + v + "]") == Ok(v)
  {
    var a := "[" + key + "]";
    assert ':' !in a by {
      forall k | 0 <= k < |a| ensures a[k] != ':' {
        if 0 < k < |a| - 1 {
          assert a[k] == key[k - 1];
        }
      }
    }
    assert ':' !in v + "]" by {
      forall k | 0 <= k < |v| + 1 ensures (v + "]")[k] != ':' {
        if k < |v| {
          assert (v + "]")[k] == v[k];
        }
      }
    }
    assert ": ["[1..] == " [";
    SecondFieldOfPair(a, ": [", v + "]");
    assert "[" + key + "]: [" + v + "]" == a + ": [" + (v + "]");
    assert (v + "]")[..|v|] == v;
  }

  /** A line that sets the brand. */
  predicate IsBrandLine(line: string) {
    Contains(line, "ro.product.brand")
  }

  /** A line that sets the manufacturer (a brand line never does). */
  predicate IsManufacturerLine(line: string) {
    !IsBrandLine(line) && Contains(line, "ro.product.manufacturer")
  }

  /** The brand and manufacturer read so far, and the error that stopped the reading. */
  datatype Props = Props(brand: string, manufacturer: string, error: Option<Error>)

  /** One line of the `getprop` loop. */
  function PropStep(p: Props, line: string): (p': Props)
    ensures p.error.Some? || !(IsBrandLine(line) || IsManufacturerLine(line)) ==> p' == p
  {
    if p.error.Some? then p
    else if IsBrandLine(line) then
      match PropValue(line)
      case Err(e) => Props(p.brand, p.manufacturer, Some(e))
      case Ok(v) => Props(v, p.manufacturer, None)
    else if IsManufacturerLine(line) then
      match PropValue(line)
      case Err(e) => Props(p.brand, p.manufacturer, Some(e))
      case Ok(v) => Props(p.brand, v, None)
    else p
  }

  /** The `getprop` loop over `lines`. */
  function PropScan(p: Props, lines: seq<string>): Props {
    if lines == [] then p
    else PropStep(PropScan(p, lines[..|lines| - 1]), lines[|lines| - 1])
  }

  /** The index of the last line `p` holds of, if any. */
  function LastWhere(lines: seq<string>, p: string -> bool): (r: Option<nat>)
    ensures r.Some? ==> r.value < |lines| && p(lines[r.value]) &&
                        forall k :: r.value < k < |lines| ==> !p(lines[k])
    ensures r.None? ==> forall k :: 0 <= k < |lines| ==> !p(lines[k])
  {
    if lines == [] then None
    else if p(lines[|lines| - 1]) then Some(|lines| - 1)
    else LastWhere(lines[..|lines| - 1], p)
  }

  /**
   * When the properties read without error, the brand is the value of the last
   * brand line and the manufacturer that of the last manufacturer line; a
   * property no line mentions keeps its earlier value.
   */
  lemma PropScanLastWins(b: string, m: string, lines: seq<string>)
    ensures var p := PropScan(Props(b, m, None), lines);
            p.error.None? ==>
              (match LastWhere(lines, IsBrandLine)
               case None => p.brand == b
               case Some(k) => PropValue(lines[k]) == Ok(p.brand)) &&
              (match LastWhere(lines, IsManufacturerLine)
               case None => p.manufacturer == m
               case Some(k) => PropValue(lines[k]) == Ok(p.manufacturer))
  {
    BrandLastWins(b, m, lines);
    ManufacturerLastWins(b, m, lines);
  }

  /** The brand half of `PropScanLastWins`. */
  lemma {:induction false} BrandLastWins(b: string, m: string, lines: seq<string>)
    ensures var p := PropScan(Props(b, m, None), lines);
            p.error.None? ==>
              match LastWhere(lines, IsBrandLine)
              case None => p.brand == b
              case Some(k) => PropValue(lines[k]) == Ok(p.brand)
  {
    if lines != [] {
      var pre := lines[..|lines| - 1];
      var last := lines[|lines| - 1];
      BrandLastWins(b, m, pre);
      if !IsBrandLine(last) {
        var w := LastWhere(pre, IsBrandLine);
        if w.Some? {
          assert pre[w.value] == lines[w.value];
        }
      }
    }
  }

  /** The manufacturer half of `PropScanLastWins`. */
  lemma {:induction false} ManufacturerLastWins(b: string, m: string, lines: seq<string>)
    ensures var p := PropScan(Props(b, m, None), lines);
            p.error.None? ==>
              match LastWhere(lines, IsManufacturerLine)
              case None => p.manufacturer == m
              case Some(k) => PropValue(lines[k]) == Ok(p.manufacturer)
  {
    if lines != [] {
      var pre := lines[..|lines| - 1];
      var last := lines[|lines| - 1];
      ManufacturerLastWins(b, m, pre);
      if !IsManufacturerLine(last) {
        var w := LastWhere(pre, IsManufacturerLine);
        if w.Some? {
          assert pre[w.value] == lines[w.value];
        }
      }
    }
  }

  lemma PropScanStops(b: string, m: string, pre: seq<string>, line: string)
    ensures PropScan(Props(b, m, None), pre).error.Some? ==>
              PropScan(Props(b, m, None), pre + [line]) == PropScan(Props(b, m, None), pre)
    ensures PropScan(Props(b, m, None), pre + [line]) == PropStep(PropScan(Props(b, m, None), pre), line)
  {
    assert (pre + [line])[..|pre|] == pre;
  }

  /** A brand or manufacturer line whose value cannot be read. */
  predicate BadPropLine(line: string) {
    (IsBrandLine(line) || IsManufacturerLine(line)) && PropValue(line).Err?
  }

  /** Reading fails exactly when some brand or manufacturer line has no `: [`. */
  lemma {:induction false} PropScanFails(b: string, m: string, lines: seq<string>)
    ensures PropScan(Props(b, m, None), lines).error.Some? <==>
              exists k :: 0 <= k < |lines| && BadPropLine(lines[k])
  {
    if lines != [] {
      var pre := lines[..|lines| - 1];
      var last := lines[|lines| - 1];
      PropScanFails(b, m, pre);
      var p0 := PropScan(Props(b, m, None), pre);
      assert PropScan(Props(b, m, None), lines) == PropStep(p0, last);
      assert PropStep(p0, last).error.Some? <==> p0.error.Some? || BadPropLine(last);
      BadLineSnoc(lines, pre);
    }
  }

  lemma BadLineSnoc(lines: seq<string>, pre: seq<string>)
    requires lines != [] && pre == lines[..|lines| - 1]
    ensures (exists k :: 0 <= k < |lines| && BadPropLine(lines[k])) <==>
            (exists k :: 0 <= k < |pre| && BadPropLine(pre[k])) || BadPropLine(lines[|lines| - 1])
  {
    if exists k :: 0 <= k < |pre| && BadPropLine(pre[k]) {
      var k :| 0 <= k < |pre| && BadPropLine(pre[k]);
      assert pre[k] == lines[k];
    }
    if exists k :: 0 <= k < |lines| && BadPropLine(lines[k]) {
      var k :| 0 <= k < |lines| && BadPropLine(lines[k]);
      if k < |lines| - 1 {
        assert pre[k] == lines[k];
      }
    }
  }

  // ---------------------------------------------------------------------------
  // Loading a device

  /**
   * `Device.load` on a device that is not a placeholder: the error it raises, if
   * any, given the file systems the device already had.
   */
  function LoadError(unique: string, fss: seq<FileSystem>, b: Bridge): (r: Option<Error>)
    ensures PropScan(Props("", "", None), SplitLines(b.getprop(unique))).error.Some? ==>
              r == PropScan(Props("", "", None), SplitLines(b.getprop(unique))).error
  {
    var p := PropScan(Props("", "", None), SplitLines(b.getprop(unique)));
    if p.error.Some? then p.error
    else
      var s := DfOutput(b.df(unique));
      if s.error.Some? then s.error
      else LoadRoot(fss + s.found, Ls(b, unique)).error
  }

  /** The error of `PropScan` does not depend on the values read before. */
  lemma {:induction false} PropScanErrorOnly(b: string, m: string, b': string, m': string, lines: seq<string>)
    ensures PropScan(Props(b, m, None), lines).error == PropScan(Props(b', m', None), lines).error
  {
    if lines != [] {
      PropScanErrorOnly(b, m, b', m', lines[..|lines| - 1]);
    }
  }

  /** `Device(data, dummy)`: the error its construction raises, if any. */
  function DeviceError(line: string, dummy: bool, b: Bridge): (r: Option<Error>)
    ensures ParseDeviceLine(line).Err? ==> r == Some(ParseDeviceLine(line).error)
    ensures dummy ==> (r.None? <==> ParseDeviceLine(line).Ok?)
  {
    match ParseDeviceLine(line)
    case Err(e) => Some(e)
    case Ok(info) => if dummy then None else LoadError(info.unique, [], b)
  }

  /**
   * What `Device.load` leaves in a real device that held `brand0`,
   * `manufacturer0`, `fss0` and `root0` before, when it ends with `err`: the
   * properties read line by line, the file systems of `df` appended unless
   * `getprop` failed, and, unless it failed, a root directory over them.
   */
  ghost predicate LoadedFrom(d: Device, b: Bridge, brand0: string, manufacturer0: string,
                             fss0: seq<FileSystem>, root0: Option<RootDirectory>, err: Option<Error>)
    reads d, if d.rootDirectory.Some? then {d.rootDirectory.value} else {}
  {
    var props := PropScan(Props(brand0, manufacturer0, None), SplitLines(b.getprop(d.unique)));
    && err == LoadError(d.unique, fss0, b)
    && d.brand == props.brand && d.manufacturer == props.manufacturer
    && d.filesystems == (if props.error.Some? then fss0 else fss0 + DfOutput(b.df(d.unique)).found)
    && (if err.None? then d.rootDirectory.Some? && d.rootDirectory.value.Snapshot() == LoadRoot(d.filesystems, Ls(b, d.unique)).tree
        else d.rootDirectory == root0)
  }

  class Device {
    const unique: string
    const product: string
    const model: string
    const name: string
    const transportId: string
    var dummy: bool
    var brand: string
    var manufacturer: string
    var filesystems: seq<FileSystem>
    var rootDirectory: Option<RootDirectory>

    function Info(): DeviceInfo {
      DeviceInfo(unique, product, model, name, transportId)
    }

    /** The fields `Device.__init__` sets before it loads. */
    constructor (info: DeviceInfo, dummy: bool)
      ensures Info() == info && this.dummy == dummy
      ensures brand == "" && manufacturer == "" && filesystems == [] && rootDirectory == None
    {
      unique := info.unique;
      product := info.product;
      model := info.model;
      name := info.name;
      transportId := info.transportId;
      this.dummy := dummy;
      brand := "";
      manufacturer := "";
      filesystems := [];
      rootDirectory := None;
    }

    /** `Device.getprop` on the text `getprop` printed. */
    method GetProp(text: string) returns (err: Option<Error>)
      modifies this
      ensures Props(brand, manufacturer, err) == PropScan(Props(old(brand), old(manufacturer), None), SplitLines(text))
      ensures dummy == old(dummy) && filesystems == old(filesystems) && rootDirectory == old(rootDirectory)
    {
      var lines := SplitLines(text);
      ghost var p0 := Props(brand, manufacturer, None);
      var i := 0;
      while i < |lines|
        invariant 0 <= i <= |lines|
        invariant PropScan(p0, lines[..i]) == Props(brand, manufacturer, None)
        invariant dummy == old(dummy) && filesystems == old(filesystems) && rootDirectory == old(rootDirectory)
      {
        var line := lines[i];
        PropScanNext(p0, lines, i);
        if IsBrandLine(line) {
          var v := PropValue(line);
          if v.Err? {
            return Some(v.error);
          }
          brand := v.value;
        } else if Contains(line, "ro.product.manufacturer") {
          var v := PropValue(line);
          if v.Err? {
            return Some(v.error);
          }
          manufacturer := v.value;
        }
        i := i + 1;
      }
      TakeAll(lines);
      err := None;
    }

    /**
     * `Device.df` on the text `df` printed: the file systems of its rows are
     * appended, up to the first row that fails.
     */
    method Df(text: string) returns (err: Option<Error>)
      modifies this
      ensures filesystems == old(filesystems) + DfOutput(text).found && err == DfOutput(text).error
      ensures dummy == old(dummy) && brand == old(brand) && manufacturer == old(manufacturer)
      ensures rootDirectory == old(rootDirectory)
    {
      var lines := SplitLines(text);
      if lines == [] {
        return Some(NoOutput);
      }
      var layout := DetectLayout(lines[0]);
      var rows := lines[1..];
      ghost var fs0 := filesystems;
      var i := 0;
      while i < |rows|
        invariant 0 <= i <= |rows|
        invariant DfScan(layout, rows[..i]).error.None?
        invariant filesystems == fs0 + DfScan(layout, rows[..i]).found
        invariant dummy == old(dummy) && brand == old(brand) && manufacturer == old(manufacturer)
        invariant rootDirectory == old(rootDirectory)
      {
        var row := rows[i];
        DfScanNext(layout, rows, i);
        if IsDataRow(row) {
          if layout.None? {
            return Some(UnknownLayout);
          }
          var parsed := ParseFileSystem(row, layout.value);
          if parsed.Err? {
            return Some(parsed.error);
          }
          filesystems := filesystems + [parsed.value];
        }
        i := i + 1;
      }
      TakeAll(rows);
      err := None;
    }

    /**
     * `Device.load`: a placeholder device does nothing; otherwise its properties,
     * its file systems and a new root directory over them, stopping at the first
     * error.
     */
    method Load(b: Bridge) returns (err: Option<Error>)
      modifies this
      ensures old(dummy) ==> err == None && unchanged(this)
      ensures !old(dummy) ==> LoadedFrom(this, b, old(brand), old(manufacturer), old(filesystems), old(rootDirectory), err)
      ensures !old(dummy) && err.None? ==> rootDirectory.Some? && fresh(rootDirectory.value)
      ensures dummy == old(dummy)
    {
      if dummy {
        return None;
      }
      err := GetProp(b.getprop(unique));
      PropScanErrorOnly(old(brand), old(manufacturer), "", "", SplitLines(b.getprop(unique)));
      if err.Some? {
        return;
      }
      err := Df(b.df(unique));
      if err.Some? {
        return;
      }
      var root, e := NewRootDirectory(filesystems, Ls(b, unique));
      if e.Some? {
        return e;
      }
      rootDirectory := Some(root);
      err := None;
    }
  }

  /** Once reading the properties failed, further lines change nothing. */
  lemma {:induction false} PropScanStopsFrom(p: Props, lines: seq<string>, more: seq<string>)
    requires PropScan(p, lines).error.Some?
    ensures PropScan(p, lines + more) == PropScan(p, lines)
  {
    if more == [] {
      AppendEmpty(lines);
    } else {
      PropScanStopsFrom(p, lines, more[..|more| - 1]);
      AppendSnoc(lines, more);
      PropScanSnoc(p, lines + more[..|more| - 1], more[|more| - 1]);
    }
  }

  lemma PropScanSnoc(p: Props, pre: seq<string>, line: string)
    ensures PropScan(p, pre + [line]) == PropStep(PropScan(p, pre), line)
  {
    assert (pre + [line])[..|pre|] == pre;
  }

  /** The `getprop` loop over one more line; a failing line is the last one read. */
  lemma PropScanNext(p: Props, lines: seq<string>, i: nat)
    requires i < |lines|
    ensures PropScan(p, lines[..i + 1]) == PropStep(PropScan(p, lines[..i]), lines[i])
    ensures PropScan(p, lines[..i + 1]).error.Some? ==> PropScan(p, lines) == PropScan(p, lines[..i + 1])
  {
    TakeTake(lines, i, i + 1);
    if PropScan(p, lines[..i + 1]).error.Some? {
      PropScanStopsFrom(p, lines[..i + 1], lines[i + 1..]);
      TakeDrop(lines, i + 1);
    }
  }

  /** The `df` loop over one more row; a failing row is the last one read. */
  lemma DfScanNext(layout: Option<Layout>, rows: seq<string>, i: nat)
    requires i < |rows|
    ensures DfScan(layout, rows[..i + 1]) == DfStep(layout, DfScan(layout, rows[..i]), rows[i])
    ensures DfScan(layout, rows[..i + 1]).error.Some? ==> DfScan(layout, rows) == DfScan(layout, rows[..i + 1])
  {
    TakeTake(rows, i, i + 1);
    if DfScan(layout, rows[..i + 1]).error.Some? {
      DfScanStops(layout, rows[..i + 1], rows[i + 1..]);
      TakeDrop(rows, i + 1);
    }
  }

  /** Once `df` failed, further rows change nothing. */
  lemma {:induction false} DfScanStops(layout: Option<Layout>, rows: seq<string>, more: seq<string>)
    requires DfScan(layout, rows).error.Some?
    ensures DfScan(layout, rows + more) == DfScan(layout, rows)
  {
    if more == [] {
      AppendEmpty(rows);
    } else {
      DfScanStops(layout, rows, more[..|more| - 1]);
      AppendSnoc(rows, more);
      DfScanSnoc(layout, rows + more[..|more| - 1], more[|more| - 1]);
    }
  }

  lemma DfScanSnoc(layout: Option<Layout>, pre: seq<string>, row: string)
    ensures DfScan(layout, pre + [row]) == DfStep(layout, DfScan(layout, pre), row)
  {
    assert (pre + [row])[..|pre|] == pre;
  }

  /**
   * `Device(data, dummy)`: the line parsed, the fields set, and the device
   * loaded unless it is a placeholder.
   */
  method NewDevice(line: string, dummy: bool, b: Bridge) returns (r: Result<Device>)
    ensures r.Err? <==> DeviceError(line, dummy, b).Some?
    ensures r.Err? ==> r.error == DeviceError(line, dummy, b).value
    ensures r.Ok? ==> fresh(r.value) && r.value.Info() == ParseDeviceLine(line).value && r.value.dummy == dummy
    ensures r.Ok? && !dummy ==> LoadedFrom(r.value, b, "", "", [], None, None)
    ensures r.Ok? && dummy ==> Unloaded(r.value)
  {
    var info := ParseDeviceLine(line);
    if info.Err? {
      return Err(info.error);
    }
    var d := new Device(info.value, dummy);
    var err := d.Load(b);
    if err.Some? {
      return Err(err.value);
    }
    r := Ok(d);
  }

  // ---------------------------------------------------------------------------
  // The device registry

  /** The serial numbers of `infos`, in order. */
  function Uniques(infos: seq<DeviceInfo>): (us: seq<string>)
    ensures |us| == |infos| && forall k :: 0 <= k < |infos| ==> us[k] == infos[k].unique
  {
    seq(|infos|, k requires 0 <= k < |infos| => infos[k].unique)
  }

  /** The devices `create_devices` made so far, and the error that stopped it, if any. */
  datatype Created = Created(infos: seq<DeviceInfo>, error: Option<Error>)

  /** A line that `create_devices` rejects before parsing it. */
  function Refusal(line: string): (r: Option<Error>)
    ensures r == Some(Unauthorized) <==> Contains(line, "unauthorized")
    ensures r.None? <==> !Contains(line, "unauthorized") && !Contains(line, "offline")
  {
    if Contains(line, "unauthorized") then Some(Unauthorized)
    else if Contains(line, "offline") then Some(Offline)
    else None
  }

  /** The error `create_devices` raises on one device line, if any. */
  function LineError(line: string, dummy: bool, b: Bridge): (r: Option<Error>)
    ensures Refusal(line).Some? ==> r == Refusal(line)
    ensures r.None? ==> ParseDeviceLine(line).Ok?
  {
    if Refusal(line).Some? then Refusal(line) else DeviceError(line, dummy, b)
  }

  /** One line of the `create_devices` loop. */
  function CreateStep(c: Created, line: string, dummy: bool, b: Bridge): (c': Created)
    ensures c.error.Some? ==> c' == c
  {
    if c.error.Some? then c
    else match LineError(line, dummy, b)
      case Some(e) => Created(c.infos, Some(e))
      case None => Created(c.infos + [ParseDeviceLine(line).value], None)
  }

  /** The `create_devices` loop over the device lines. */
  function CreateScan(lines: seq<string>, dummy: bool, b: Bridge): Created {
    if lines == [] then Created([], None)
    else CreateStep(CreateScan(lines[..|lines| - 1], dummy, b), lines[|lines| - 1], dummy, b)
  }

  /**
   * `Devices.create_devices` on the text `devices -l` printed: its first line is
   * a title; no line at all, or no line after it, is an error.
   */
  function CreateOutcome(text: string, dummy: bool, b: Bridge): (c: Created)
    ensures SplitLines(Strip(text)) == [] ==> c == Created([], Some(NoOutput))
    ensures |SplitLines(Strip(text))| == 1 ==> c == Created([], Some(NoDevice))
  {
    var lines := SplitLines(Strip(text));
    if lines == [] then Created([], Some(NoOutput))
    else if |lines| == 1 then Created([], Some(NoDevice))
    else CreateScan(lines[1..], dummy, b)
  }

  lemma CreateScanSnoc(lines: seq<string>, line: string, dummy: bool, b: Bridge)
    ensures CreateScan(lines + [line], dummy, b) == CreateStep(CreateScan(lines, dummy, b), line, dummy, b)
  {
    assert (lines + [line])[..|lines|] == lines;
  }

  /** Once `create_devices` failed, further lines change nothing. */
  lemma {:induction false} CreateScanStops(lines: seq<string>, more: seq<string>, dummy: bool, b: Bridge)
    requires CreateScan(lines, dummy, b).error.Some?
    ensures CreateScan(lines + more, dummy, b) == CreateScan(lines, dummy, b)
  {
    if more == [] {
      AppendEmpty(lines);
    } else {
      CreateScanStops(lines, more[..|more| - 1], dummy, b);
      AppendSnoc(lines, more);
      CreateScanSnoc(lines + more[..|more| - 1], more[|more| - 1], dummy, b);
    }
  }

  /** What the `create_devices` loop knows after a line, given what it knew before it. */
  lemma CreateScanNext(lines: seq<string>, i: nat, infos: seq<DeviceInfo>, dummy: bool, b: Bridge)
    requires i < |lines| && CreateScan(lines[..i], dummy, b) == Created(infos, None)
    ensures LineError(lines[i], dummy, b).Some? ==> CreateScan(lines, dummy, b) == Created(infos, LineError(lines[i], dummy, b))
    ensures LineError(lines[i], dummy, b).None? ==>
              CreateScan(lines[..i + 1], dummy, b) == Created(infos + [ParseDeviceLine(lines[i]).value], None)
  {
    CreateScanSnoc(lines[..i], lines[i], dummy, b);
    TakeSnoc(lines, i);
    if LineError(lines[i], dummy, b).Some? {
      CreateScanStops(lines[..i + 1], lines[i + 1..], dummy, b);
      TakeDrop(lines, i + 1);
    }
  }

  /** `infos` were made from the leading lines of `lines`, one per line, in order. */
  ghost predicate MadeFrom(infos: seq<DeviceInfo>, lines: seq<string>, dummy: bool, b: Bridge) {
    |infos| <= |lines| &&
    forall k :: 0 <= k < |infos| ==> LineError(lines[k], dummy, b).None? && ParseDeviceLine(lines[k]) == Ok(infos[k])
  }

  /**
   * The devices made are those of the leading lines, one per line, in order;
   * the error, if any, is that of the next line: an unauthorized or offline
   * device, or a line that does not make a device.
   */
  lemma {:induction false} CreateScanPrefix(lines: seq<string>, dummy: bool, b: Bridge)
    ensures var c := CreateScan(lines, dummy, b);
            && MadeFrom(c.infos, lines, dummy, b)
            && (c.error.None? ==> |c.infos| == |lines|)
            && (c.error.Some? ==> |c.infos| < |lines| && c.error == LineError(lines[|c.infos|], dummy, b))
  {
    if lines != [] {
      var pre := lines[..|lines| - 1];
      var last := lines[|lines| - 1];
      CreateScanPrefix(pre, dummy, b);
      var c := CreateScan(pre, dummy, b);
      assert CreateScan(lines, dummy, b) == CreateStep(c, last, dummy, b);
      MadeFromLonger(c.infos, pre, last, dummy, b);
      DropLast(lines);
      if c.error.None? && LineError(last, dummy, b).None? {
        MadeFromSnoc(c.infos, pre, last, dummy, b);
      }
    }
  }

  lemma MadeFromLonger(infos: seq<DeviceInfo>, lines: seq<string>, line: string, dummy: bool, b: Bridge)
    requires MadeFrom(infos, lines, dummy, b)
    ensures MadeFrom(infos, lines + [line], dummy, b)
  {
    assert forall k :: 0 <= k < |lines| ==> (lines + [line])[k] == lines[k];
  }

  lemma MadeFromSnoc(infos: seq<DeviceInfo>, lines: seq<string>, line: string, dummy: bool, b: Bridge)
    requires MadeFrom(infos, lines, dummy, b) && |infos| == |lines| && LineError(line, dummy, b).None?
    ensures MadeFrom(infos + [ParseDeviceLine(line).value], lines + [line], dummy, b)
  {
    var infos' := infos + [ParseDeviceLine(line).value];
    var lines' := lines + [line];
    forall k | 0 <= k < |infos'|
      ensures LineError(lines'[k], dummy, b).None? && ParseDeviceLine(lines'[k]) == Ok(infos'[k])
    {
      if k < |infos| {
        assert lines'[k] == lines[k] && infos'[k] == infos[k];
      }
    }
  }

  /** A line reporting an unauthorized or offline device makes the whole call fail. */
  lemma {:induction false} CreateScanRefused(lines: seq<string>, dummy: bool, b: Bridge, k: nat)
    requires k < |lines| && Refusal(lines[k]).Some?
    ensures CreateScan(lines, dummy, b).error.Some?
  {
    CreateScanPrefix(lines, dummy, b);
  }

  class Registry {
    /** `Devices.devices`: the loaded devices by serial number. */
    var devices: Dict<Device>

    ghost predicate Valid()
      reads this
    {
      devices.Valid() && forall u :: u in devices.entries ==> devices.entries[u].unique == u
    }

    constructor ()
      ensures devices == EmptyDict() && Valid()
    {
      devices := EmptyDict();
    }

    /** `Devices.list`: the devices in the order they were first registered. */
    function List(): (ds: seq<Device>)
      reads this
      requires Valid()
      ensures |ds| == |devices.keys| && forall k :: 0 <= k < |ds| ==> ds[k].unique == devices.keys[k]
      ensures forall k :: 0 <= k < |ds| ==> ds[k] == devices.entries[devices.keys[k]]
      ensures forall u :: u in devices.entries ==> exists k :: 0 <= k < |ds| && ds[k] == devices.entries[u]
    {
      devices.Values()
    }

    /**
     * `Devices.add_device`: a placeholder device is first loaded (and stops
     * being a placeholder even when loading fails); a device that loaded is
     * registered under its serial number.
     */
    method AddDevice(d: Device, b: Bridge) returns (err: Option<Error>)
      requires Valid()
      modifies this, d
      ensures Valid() && !d.dummy
      ensures err == (if old(d.dummy) then LoadError(d.unique, old(d.filesystems), b) else None)
      ensures err.None? ==> devices == old(devices).Put(d.unique, d)
      ensures err.Some? ==> devices == old(devices)
      ensures old(d.dummy) ==>
                LoadedFrom(d, b, old(d.brand), old(d.manufacturer), old(d.filesystems), old(d.rootDirectory), err)
      ensures !old(d.dummy) ==> unchanged(d)
    {
      if d.dummy {
        d.dummy := false;
        err := d.Load(b);
        if err.Some? {
          return;
        }
      }
      devices := devices.Put(d.unique, d);
      err := None;
    }

    /**
     * `Devices.create_devices`: a device for each line after the title, stopping
     * at the first unauthorized or offline device or failing line. Devices are
     * registered as they are made (so those made before an error stay
     * registered); placeholder devices are returned instead, if there are any.
     */
    method CreateDevices(text: string, dummy: bool, b: Bridge) returns (dummies: Option<seq<Device>>, err: Option<Error>)
      requires Valid()
      modifies this
      ensures Valid()
      ensures err == CreateOutcome(text, dummy, b).error
      ensures dummy ==> devices == old(devices)
      ensures !dummy ==> Grown(old(devices), devices, Uniques(CreateOutcome(text, dummy, b).infos))
      ensures !dummy ==> forall u :: u in devices.entries && u in Uniques(CreateOutcome(text, dummy, b).infos) ==>
                                      fresh(devices.entries[u])
      ensures !dummy ==> Holds(devices, CreateOutcome(text, dummy, b).infos, b)
      ensures !dummy ==> devices.keys == PutKeys(old(devices.keys), Uniques(CreateOutcome(text, dummy, b).infos))
      ensures !dummy || err.Some? ==> dummies == None
      ensures dummy && err.None? ==>
                var infos := CreateOutcome(text, dummy, b).infos;
                (dummies.Some? <==> infos != []) &&
                (dummies.Some? ==> Placeholders(dummies.value, infos))
      ensures dummy && err.None? && dummies.Some? ==> forall k :: 0 <= k < |dummies.value| ==> fresh(dummies.value[k])
    {
      var lines := SplitLines(Strip(text));
      if lines == [] {
        return None, Some(NoOutput);
      }
      if |lines| == 1 {
        return None, Some(NoDevice);
      }
      dummies, err := CreateEach(lines[1..], dummy, b);
    }

    /**
     * The loop of `create_devices` over the device lines. Whether devices are
     * placeholders does not change during the loop, so the two ways through its
     * body are two loops here.
     */
    method CreateEach(datas: seq<string>, dummy: bool, b: Bridge) returns (dummies: Option<seq<Device>>, err: Option<Error>)
      requires Valid()
      modifies this
      ensures Valid()
      ensures err == CreateScan(datas, dummy, b).error
      ensures dummy ==> devices == old(devices)
      ensures !dummy ==> Grown(old(devices), devices, Uniques(CreateScan(datas, dummy, b).infos))
      ensures !dummy ==> forall u :: u in devices.entries && u in Uniques(CreateScan(datas, dummy, b).infos) ==>
                                      fresh(devices.entries[u])
      ensures !dummy ==> Holds(devices, CreateScan(datas, dummy, b).infos, b)
      ensures !dummy ==> devices.keys == PutKeys(old(devices.keys), Uniques(CreateScan(datas, dummy, b).infos))
      ensures !dummy || err.Some? ==> dummies == None
      ensures dummy && err.None? ==>
                var infos := CreateScan(datas, dummy, b).infos;
                (dummies.Some? <==> infos != []) &&
                (dummies.Some? ==> Placeholders(dummies.value, infos))
      ensures dummy && err.None? && dummies.Some? ==> forall k :: 0 <= k < |dummies.value| ==> fresh(dummies.value[k])
    {
      if dummy {
        var list;
        list, err := MakePlaceholders(datas, b);
        dummies := if err.None? && list != [] then Some(list) else None;
      } else {
        err := RegisterEach(datas, b);
        dummies := None;
      }
    }

    /** The loop of `create_devices` for devices that are not placeholders: each is registered as it is made. */
    method RegisterEach(datas: seq<string>, b: Bridge) returns (err: Option<Error>)
      requires Valid()
      modifies this
      ensures Valid()
      ensures err == CreateScan(datas, false, b).error
      ensures Grown(old(devices), devices, Uniques(CreateScan(datas, false, b).infos))
      ensures forall u :: u in devices.entries && u in Uniques(CreateScan(datas, false, b).infos) ==>
                            fresh(devices.entries[u])
      ensures Holds(devices, CreateScan(datas, false, b).infos, b)
      ensures devices.keys == PutKeys(old(devices.keys), Uniques(CreateScan(datas, false, b).infos))
    {
      ghost var d0 := devices;
      ghost var infos: seq<DeviceInfo> := [];
      err := None;
      var i := 0;
      while i < |datas| && err.None?
        invariant 0 <= i <= |datas|
        invariant Valid()
        invariant err.None? ==> CreateScan(datas[..i], false, b) == Created(infos, None)
        invariant err.Some? ==> CreateScan(datas, false, b) == Created(infos, err)
        invariant Registered(d0, devices, infos, b)
        invariant forall u :: u in devices.entries && u in Uniques(infos) ==> fresh(devices.entries[u])
        decreases |datas| - i, if err.None? then 1 else 0
      {
        CreateScanNext(datas, i, infos, false, b);
        ghost var info;
        err, info := RegisterLine(datas[i], b, d0, infos);
        if err.None? {
          UniquesSnoc(infos, info);
          infos := infos + [info];
          i := i + 1;
        }
      }
      if err.None? {
        TakeAll(datas);
      }
    }

    /** One turn of that loop: the device of `line` is made, loaded and stored under its serial number. */
    method RegisterLine(line: string, b: Bridge, ghost d0: Dict<Device>, ghost infos: seq<DeviceInfo>)
        returns (err: Option<Error>, ghost info: DeviceInfo)
      requires Valid() && Registered(d0, devices, infos, b)
      modifies this
      ensures Valid()
      ensures err == LineError(line, false, b)
      ensures err.Some? ==> devices == old(devices)
      ensures err.None? ==> info == ParseDeviceLine(line).value && Registered(d0, devices, infos + [info], b)
      ensures err.None? ==> info.unique in devices.entries && fresh(devices.entries[info.unique]) &&
                            devices == old(devices).Put(info.unique, devices.entries[info.unique])
    {
      info := DeviceInfo("", "", "", "", "");
      var made := NewLineDevice(line, false, b);
      if made.Err? {
        return Some(made.error), info;
      }
      var d := made.value;
      Store(d, b, d0, infos);
      err, info := None, d.Info();
    }

    /** `cls.devices[device.unique] = device` for a device loaded from a fresh start. */
    method Store(d: Device, b: Bridge, ghost d0: Dict<Device>, ghost infos: seq<DeviceInfo>)
      requires Valid() && Registered(d0, devices, infos, b)
      requires !d.dummy && LoadedFrom(d, b, "", "", [], None, None)
      modifies this
      ensures Valid()
      ensures devices == old(devices).Put(d.unique, d)
      ensures Registered(d0, devices, infos + [d.Info()], b)
    {
      RegisteredPut(d0, devices, infos, b, d);
      devices := devices.Put(d.unique, d);
    }
  }

  /** The loop of `create_devices` for placeholder devices: they are kept aside, in order. */
  method MakePlaceholders(datas: seq<string>, b: Bridge) returns (list: seq<Device>, err: Option<Error>)
    ensures err == CreateScan(datas, true, b).error
    ensures err.None? ==> Placeholders(list, CreateScan(datas, true, b).infos)
    ensures forall k :: 0 <= k < |list| ==> fresh(list[k])
  {
    ghost var infos: seq<DeviceInfo> := [];
    list := [];
    var i := 0;
    while i < |datas|
      invariant 0 <= i <= |datas|
      invariant CreateScan(datas[..i], true, b) == Created(infos, None)
      invariant Placeholders(list, infos)
      invariant forall k :: 0 <= k < |list| ==> fresh(list[k])
    {
      CreateScanNext(datas, i, infos, true, b);
      var made := NewLineDevice(datas[i], true, b);
      if made.Err? {
        return list, Some(made.error);
      }
      PlaceholdersSnoc(list, infos, made.value);
      list := list + [made.value];
      infos := infos + [made.value.Info()];
      i := i + 1;
    }
    TakeAll(datas);
    err := None;
  }

  /** No later entry of `infos` has the serial number of entry `k`. */
  predicate LastOf(infos: seq<DeviceInfo>, k: nat)
    requires k < |infos|
  {
    forall j :: k < j < |infos| ==> infos[j].unique != infos[k].unique
  }

  /**
   * Under each serial number of `infos`, `d` holds the device made from the last
   * entry with that serial, loaded.
   */
  ghost predicate Holds(d: Dict<Device>, infos: seq<DeviceInfo>, b: Bridge)
    reads set u | u in d.entries :: d.entries[u]
    reads set u | u in d.entries && d.entries[u].rootDirectory.Some? :: d.entries[u].rootDirectory.value
  {
    forall k {:trigger LastOf(infos, k)} :: 0 <= k < |infos| && LastOf(infos, k) ==> HoldsAt(d, infos[k], b)
  }

  /** `d` holds, under the serial number of `info`, the device made from `info`, loaded. */
  ghost predicate HoldsAt(d: Dict<Device>, info: DeviceInfo, b: Bridge)
    reads set u | u in d.entries :: d.entries[u]
    reads set u | u in d.entries && d.entries[u].rootDirectory.Some? :: d.entries[u].rootDirectory.value
  {
    && info.unique in d.entries
    && d.entries[info.unique].Info() == info
    && !d.entries[info.unique].dummy
    && LoadedFrom(d.entries[info.unique], b, "", "", [], None, None)
  }

  lemma HoldsPut(d: Dict<Device>, infos: seq<DeviceInfo>, b: Bridge, x: Device)
    requires Holds(d, infos, b)
    requires !x.dummy && LoadedFrom(x, b, "", "", [], None, None)
    ensures Holds(d.Put(x.unique, x), infos + [x.Info()], b)
  {
    var d', infos' := d.Put(x.unique, x), infos + [x.Info()];
    forall k | 0 <= k < |infos'| && LastOf(infos', k)
      ensures HoldsAt(d', infos'[k], b)
    {
      if k < |infos| {
        assert infos'[|infos|].unique != infos'[k].unique;
        assert infos'[k] == infos[k];
        assert LastOf(infos, k) by {
          forall j | k < j < |infos| ensures infos[j].unique != infos[k].unique {
            assert infos'[j] == infos[j];
          }
        }
      }
    }
  }

  /**
   * The keys of a dict with keys `keys` after storing the serial numbers `us` in
   * turn: a serial number not yet present goes last.
   */
  function PutKeys(keys: seq<string>, us: seq<string>): seq<string> {
    if us == [] then keys
    else
      var ks := PutKeys(keys, us[..|us| - 1]);
      if us[|us| - 1] in ks then ks else ks + [us[|us| - 1]]
  }

  /** The old keys keep their order and come first; exactly the stored serial numbers are added. */
  lemma {:induction false} PutKeysShape(keys: seq<string>, us: seq<string>)
    ensures |keys| <= |PutKeys(keys, us)| && PutKeys(keys, us)[..|keys|] == keys
    ensures forall x :: x in PutKeys(keys, us) <==> x in keys || x in us
  {
    if us != [] {
      var pre := us[..|us| - 1];
      PutKeysShape(keys, pre);
      DropLast(us);
      assert forall x :: x in us <==> x in pre || x == us[|us| - 1];
    }
  }

  lemma PutKeysSnoc(keys: seq<string>, us: seq<string>, u: string)
    ensures PutKeys(keys, us + [u]) == if u in PutKeys(keys, us) then PutKeys(keys, us) else PutKeys(keys, us) + [u]
  {
    assert (us + [u])[..|us|] == us;
  }

  /** The devices `d` holds are those of `d0` and those with the serial numbers `us`; the others are kept. */
  ghost predicate Grown(d0: Dict<Device>, d: Dict<Device>, us: seq<string>) {
    && (forall u :: u in d.entries <==> u in d0.entries || u in us)
    && (forall u :: u in d.entries && u !in us ==> d.entries[u] == d0.entries[u])
  }

  /** What the registry `d` holds after starting from `d0` and storing the devices made from `infos`. */
  ghost predicate Registered(d0: Dict<Device>, d: Dict<Device>, infos: seq<DeviceInfo>, b: Bridge)
    reads set u | u in d.entries :: d.entries[u]
    reads set u | u in d.entries && d.entries[u].rootDirectory.Some? :: d.entries[u].rootDirectory.value
  {
    && Grown(d0, d, Uniques(infos))
    && Holds(d, infos, b)
    && d.keys == PutKeys(d0.keys, Uniques(infos))
  }

  lemma RegisteredPut(d0: Dict<Device>, d: Dict<Device>, infos: seq<DeviceInfo>, b: Bridge, x: Device)
    requires d.Valid() && Registered(d0, d, infos, b)
    requires !x.dummy && LoadedFrom(x, b, "", "", [], None, None)
    ensures Registered(d0, d.Put(x.unique, x), infos + [x.Info()], b)
  {
    var d', infos' := d.Put(x.unique, x), infos + [x.Info()];
    assert Holds(d', infos', b) by {
      HoldsPut(d, infos, b, x);
    }
    assert Grown(d0, d', Uniques(infos')) && d'.keys == PutKeys(d0.keys, Uniques(infos')) by {
      UniquesSnoc(infos, x.Info());
      GrownPut(d0, d, Uniques(infos), x);
      PutKeysSnoc(d0.keys, Uniques(infos), x.unique);
    }
  }

  lemma GrownPut(d0: Dict<Device>, d: Dict<Device>, us: seq<string>, x: Device)
    requires Grown(d0, d, us)
    ensures Grown(d0, d.Put(x.unique, x), us + [x.unique])
  {
  }

  lemma UniquesSnoc(infos: seq<DeviceInfo>, info: DeviceInfo)
    ensures Uniques(infos + [info]) == Uniques(infos) + [info.unique]
  {
  }

  /** `ds` are placeholder devices made from `infos`, in order. */
  ghost predicate Placeholders(ds: seq<Device>, infos: seq<DeviceInfo>)
    reads set k | 0 <= k < |ds| :: ds[k]
  {
    |ds| == |infos| && forall k :: 0 <= k < |infos| ==> ds[k].Info() == infos[k] && ds[k].dummy && Unloaded(ds[k])
  }

  lemma PlaceholdersSnoc(ds: seq<Device>, infos: seq<DeviceInfo>, x: Device)
    requires Placeholders(ds, infos) && x.dummy && Unloaded(x)
    ensures Placeholders(ds + [x], infos + [x.Info()])
  {
  }

  /** A device as `Device.__init__` leaves it before any load: no properties, no file systems, no root directory. */
  ghost predicate Unloaded(d: Device)
    reads d
  {
    d.brand == "" && d.manufacturer == "" && d.filesystems == [] && d.rootDirectory == None
  }

  /**
   * The body of the `create_devices` loop for one line: a refusal for an
   * unauthorized or offline device, else `Device(data, dummy)`.
   */
  method NewLineDevice(line: string, dummy: bool, b: Bridge) returns (r: Result<Device>)
    ensures r.Err? <==> LineError(line, dummy, b).Some?
    ensures r.Err? ==> r.error == LineError(line, dummy, b).value
    ensures r.Ok? ==> fresh(r.value) && r.value.Info() == ParseDeviceLine(line).value && r.value.dummy == dummy
    ensures r.Ok? && !dummy ==> LoadedFrom(r.value, b, "", "", [], None, None)
    ensures r.Ok? && dummy ==> Unloaded(r.value)
  {
    if Refusal(line).Some? {
      return Err(Refusal(line).value);
    }
    r := NewDevice(line, dummy, b);
  }
}
