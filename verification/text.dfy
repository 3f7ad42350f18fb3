/**
 * The handful of Python `str` operations the parsers rely on, written out over
 * `seq<char>`: lower-casing, searching, `split`, `strip` and `splitlines`.
 */
module Text {
  import opened Errors

  /** `str.isspace()` for ASCII characters: space, \t \n \v \f \r and \x1c-\x1f. */
  predicate IsSpace(c: char) {
    c == ' ' || 9 <= c as int <= 13 || 28 <= c as int <= 31
  }

  predicate IsUpper(c: char) { 'A' <= c <= 'Z' }

  function LowerChar(c: char): char {
    if IsUpper(c) then (c as int + 32) as char else c
  }

  /** `str.lower()` on ASCII letters. */
  function Lower(s: string): string {
    seq(|s|, i requires 0 <= i < |s| => LowerChar(s[i]))
  }

  predicate NoSpace(s: string) { forall k :: 0 <= k < |s| ==> !IsSpace(s[k]) }

  predicate EndsWith(s: string, c: char) { |s| > 0 && s[|s| - 1] == c }

  /** `pat` occurs in `s` starting at index `j`. */
  predicate OccursAt(s: string, pat: string, j: nat) {
    j + |pat| <= |s| && s[j..j + |pat|] == pat
  }

  /**
   * `s.find(pat, from)`: the first index at or after `from` where `pat` occurs.
   */
  function Find(s: string, pat: string, from: nat): (r: Option<nat>)
    ensures r.Some? ==> from <= r.value && OccursAt(s, pat, r.value)
    ensures r.Some? ==> forall j :: from <= j < r.value ==> !OccursAt(s, pat, j)
    ensures r.None? ==> forall j :: from <= j ==> !OccursAt(s, pat, j)
    decreases |s| - from
  {
    if from + |pat| > |s| then None
    else if s[from..from + |pat|] == pat then Some(from)
    else Find(s, pat, from + 1)
  }

  /** `pat in s` */
  predicate Contains(s: string, pat: string) {
    Find(s, pat, 0).Some?
  }

  /**
   * `s.split(sep)[1]`: the text between the first and the second occurrence of
   * `sep` (or the end); None where Python raises IndexError.
   */
  function SecondField(s: string, sep: string): Option<string>
    requires |sep| > 0
  {
    match Find(s, sep, 0)
    case None => None
    case Some(i) =>
      match Find(s, sep, i + |sep|)
      case None => Some(s[i + |sep|..])
      case Some(j) => Some(s[i + |sep|..j])
  }

  /** `s.lstrip(' ')` */
  function LStripSpaces(s: string): (r: string)
    ensures |r| <= |s| && r == s[|s| - |r|..]
    ensures r == [] || r[0] != ' '
    ensures forall k :: 0 <= k < |s| - |r| ==> s[k] == ' '
  {
    if s != [] && s[0] == ' ' then LStripSpaces(s[1..]) else s
  }

  /**
   * `s.strip()`: drops leading and trailing whitespace. The result is a slice of
   * `s` that starts and ends with a non-whitespace character, and everything
   * around it is whitespace.
   */
  function Strip(s: string): (r: string)
    ensures r == [] || (!IsSpace(r[0]) && !IsSpace(r[|r| - 1]))
    ensures exists i :: SliceAmidSpace(s, r, i)
  {
    StripSlice(s);
    TrimEnd(TrimStart(s))
  }

  lemma StripSlice(s: string)
    ensures SliceAmidSpace(s, TrimEnd(TrimStart(s)), |s| - |TrimStart(s)|)
  {
    var m := TrimStart(s);
    SliceOfSuffix(s, m, TrimEnd(m));
  }

  /** A prefix `r` of a suffix `m` of `s`, with whitespace around each cut, lies amid whitespace in `s`. */
  lemma SliceOfSuffix(s: string, m: string, r: string)
    requires |m| <= |s| && m == s[|s| - |m|..] && forall k :: 0 <= k < |s| - |m| ==> IsSpace(s[k])
    requires |r| <= |m| && r == m[..|r|] && forall k :: |r| <= k < |m| ==> IsSpace(m[k])
    ensures SliceAmidSpace(s, r, |s| - |m|)
  {
    var i := |s| - |m|;
    assert s[i..][..|r|] == s[i..i + |r|];
    forall k | i + |r| <= k < |s| ensures IsSpace(s[k]) {
      assert s[k] == m[k - i];
    }
  }

  /** `r` is `s[i..i + |r|]`, and every character of `s` outside that slice is whitespace. */
  predicate SliceAmidSpace(s: string, r: string, i: int) {
    && 0 <= i <= |s| - |r| && r == s[i..i + |r|]
    && (forall k :: 0 <= k < i ==> IsSpace(s[k]))
    && (forall k :: i + |r| <= k < |s| ==> IsSpace(s[k]))
  }

  function TrimStart(s: string): (r: string)
    ensures r == [] || !IsSpace(r[0])
    ensures |r| <= |s| && r == s[|s| - |r|..]
    ensures forall k :: 0 <= k < |s| - |r| ==> IsSpace(s[k])
  {
    if s != [] && IsSpace(s[0]) then TrimStart(s[1..]) else s
  }

  function TrimEnd(s: string): (r: string)
    ensures r == [] || !IsSpace(r[|r| - 1])
    ensures |r| <= |s| && r == s[..|r|]
    ensures forall k :: |r| <= k < |s| ==> IsSpace(s[k])
    ensures s != [] && !IsSpace(s[0]) ==> r != [] && r[0] == s[0]
  {
    if s != [] && IsSpace(s[|s| - 1]) then TrimEnd(s[..|s| - 1]) else s
  }

  /** Length of the run of non-whitespace characters that starts `s`. */
  function SpanNonSpace(s: string): (n: nat)
    ensures n <= |s|
    ensures forall k :: 0 <= k < n ==> !IsSpace(s[k])
    ensures n < |s| ==> IsSpace(s[n])
  {
    if s == [] || IsSpace(s[0]) then 0 else 1 + SpanNonSpace(s[1..])
  }

  /** `s.split()`: the maximal runs of non-whitespace characters, in order. */
  function SplitWs(s: string): (r: seq<string>)
    ensures forall i :: 0 <= i < |r| ==> r[i] != [] && NoSpace(r[i])
    decreases |s|
  {
    if s == [] then []
    else if IsSpace(s[0]) then SplitWs(s[1..])
    else
      var n := SpanNonSpace(s);
      [s[..n]] + SplitWs(s[n..])
  }

  /** The tokens joined by single spaces (`' '.join(ts)`). */
  function JoinSpaced(ts: seq<string>): string {
    if ts == [] then ""
    else if |ts| == 1 then ts[0]
    else ts[0] + " " + JoinSpaced(ts[1..])
  }

  /**
   * The characters `str.splitlines` breaks at: "\n", "\r", vertical tab, form
   * feed, the file, group and record separators (0x1C-0x1E), next line (0x85),
   * and the line and paragraph separators (U+2028, U+2029).
   */
  predicate IsLineBreak(c: char) {
    10 <= c as int <= 13 || 28 <= c as int <= 30 || c as int == 0x85 || c as int == 0x2028 || c as int == 0x2029
  }

  predicate NoBreak(s: string) { forall k :: 0 <= k < |s| ==> !IsLineBreak(s[k]) }

  /** Length of the text before the first line break of `s`. */
  function LineEnd(s: string): (n: nat)
    ensures n <= |s|
    ensures forall k :: 0 <= k < n ==> !IsLineBreak(s[k])
    ensures n < |s| ==> IsLineBreak(s[n])
  {
    if s == [] || IsLineBreak(s[0]) then 0 else 1 + LineEnd(s[1..])
  }

  /**
   * `s.splitlines()`: the lines without their breaks ("\r\n" counts as one break,
   * any other `IsLineBreak` character as one), and no empty line after a final break.
   */
  function SplitLines(s: string): (r: seq<string>)
    ensures forall i :: 0 <= i < |r| ==> NoBreak(r[i])
    ensures s != [] <==> r != []
    decreases |s|
  {
    if s == [] then []
    else
      var n := LineEnd(s);
      if n == |s| then [s]
      else
        var skip := if s[n] == '\r' && n + 1 < |s| && s[n + 1] == '\n' then 2 else 1;
        [s[..n]] + SplitLines(s[n + skip..])
  }

  /** Each line followed by "\n", as a program writes its output. */
  function JoinLines(ls: seq<string>): string {
    if ls == [] then "" else ls[0] + "\n" + JoinLines(ls[1..])
  }

  // ---------------------------------------------------------------------------
  // Lemmas

  lemma {:induction false} SpanOfToken(t: string, rest: string)
    requires NoSpace(t)
    requires rest == [] || IsSpace(rest[0])
    ensures SpanNonSpace(t + rest) == |t|
  {
    if t != [] {
      assert (t + rest)[1..] == t[1..] + rest;
      SpanOfToken(t[1..], rest);
    }
  }

  /** `split()` recovers the tokens that `' '.join` put together. */
  lemma {:induction false} SplitWsJoin(ts: seq<string>)
    requires forall i :: 0 <= i < |ts| ==> ts[i] != [] && NoSpace(ts[i])
    ensures SplitWs(JoinSpaced(ts)) == ts
  {
    if ts != [] {
      var t := ts[0];
      var rest := if |ts| == 1 then "" else " " + JoinSpaced(ts[1..]);
      var s := t + rest;
      assert JoinSpaced(ts) == s;
      SpanOfToken(t, rest);
      assert s[..|t|] == t;
      assert s[|t|..] == rest;
      if |ts| > 1 {
        assert rest[1..] == JoinSpaced(ts[1..]);
        SplitWsJoin(ts[1..]);
        assert SplitWs(rest) == ts[1..];
        assert [t] + ts[1..] == ts;
      }
    }
  }

  /** `w` is whitespace only (possibly empty). */
  predicate AllSpace(w: string) { forall k :: 0 <= k < |w| ==> IsSpace(w[k]) }

  /** Whitespace before the text is dropped by `split()`. */
  lemma {:induction false} SplitWsSkipsSpace(w: string, s: string)
    requires AllSpace(w)
    ensures SplitWs(w + s) == SplitWs(s)
  {
    if w != [] {
      assert IsSpace((w + s)[0]);
      assert (w + s)[1..] == w[1..] + s;
      assert AllSpace(w[1..]) by {
        forall k | 0 <= k < |w| - 1 ensures IsSpace(w[1..][k]) {
          assert w[1..][k] == w[k + 1];
        }
      }
      SplitWsSkipsSpace(w[1..], s);
      assert SplitWs(w + s) == SplitWs((w + s)[1..]);
    } else {
      assert w + s == s;
    }
  }

  /** A token followed by whitespace is one field, however long the whitespace. */
  lemma SplitWsToken(t: string, w: string, s: string)
    requires t != [] && NoSpace(t)
    requires w != [] && AllSpace(w)
    ensures SplitWs(t + w + s) == [t] + SplitWs(s)
  {
    var x := t + w + s;
    SpanOfToken(t, w + s);
    assert x == t + (w + s);
    assert x[..|t|] == t;
    assert x[|t|..] == w + s;
    SplitWsSkipsSpace(w, s);
  }

  /** Columns `ts`, each followed by its run of whitespace `gaps[i]`. */
  function Columns(ts: seq<string>, gaps: seq<string>): string
    requires |gaps| == |ts|
  {
    if ts == [] then "" else ts[0] + gaps[0] + Columns(ts[1..], gaps[1..])
  }

  /**
   * `split()` of a column-aligned row: leading whitespace, then the columns
   * separated by runs of whitespace (the last run may be empty), gives the columns.
   */
  lemma {:induction false} SplitWsColumns(lead: string, ts: seq<string>, gaps: seq<string>)
    requires AllSpace(lead) && |gaps| == |ts|
    requires forall i :: 0 <= i < |ts| ==> ts[i] != [] && NoSpace(ts[i]) && AllSpace(gaps[i])
    requires forall i :: 0 <= i < |ts| - 1 ==> gaps[i] != []
    ensures SplitWs(lead + Columns(ts, gaps)) == ts
    decreases |ts|
  {
    SplitWsSkipsSpace(lead, Columns(ts, gaps));
    if ts != [] {
      var rest := Columns(ts[1..], gaps[1..]);
      SplitWsColumns("", ts[1..], gaps[1..]);
      assert "" + rest == rest;
      if |ts| == 1 {
        assert rest == "";
        assert Columns(ts, gaps) == ts[0] + gaps[0];
        SplitWsSkipsSpace(gaps[0], "");
        if gaps[0] == [] {
          assert ts[0] + gaps[0] == JoinSpaced([ts[0]]);
          SplitWsJoin([ts[0]]);
        } else {
          SplitWsToken(ts[0], gaps[0], "");
          assert ts[0] + gaps[0] + "" == ts[0] + gaps[0];
        }
        assert [ts[0]] == ts;
      } else {
        SplitWsToken(ts[0], gaps[0], rest);
        assert [ts[0]] + ts[1..] == ts;
      }
    }
  }

  lemma {:induction false} LineEndOfLine(l: string, rest: string)
    requires NoBreak(l)
    ensures LineEnd(l + "\n" + rest) == |l|
  {
    if l != [] {
      assert (l + "\n" + rest)[1..] == l[1..] + "\n" + rest;
      LineEndOfLine(l[1..], rest);
    }
  }

  /** `splitlines()` recovers the lines a program printed one per line. */
  lemma {:induction false} SplitLinesJoin(ls: seq<string>)
    requires forall i :: 0 <= i < |ls| ==> NoBreak(ls[i])
    ensures SplitLines(JoinLines(ls)) == ls
  {
    if ls != [] {
      var s := JoinLines(ls);
      var l := ls[0];
      assert s == l + "\n" + JoinLines(ls[1..]);
      LineEndOfLine(l, JoinLines(ls[1..]));
      assert s[..|l|] == l;
      assert s[|l| + 1..] == JoinLines(ls[1..]);
      SplitLinesJoin(ls[1..]);
      assert [l] + ls[1..] == ls;
    }
  }

  /**
   * Where the first character of `sep` occurs nowhere else in `a + sep + b`, the
   * second field of the split on `sep` is `b`.
   */
  lemma SecondFieldOfPair(a: string, sep: string, b: string)
    requires |sep| > 0
    requires sep[0] !in a && sep[0] !in sep[1..] && sep[0] !in b
    ensures SecondField(a + sep + b, sep) == Some(b)
  {
    var s := a + sep + b;
    assert s[|a|..|a| + |sep|] == sep;
    assert Only: forall j :: 0 <= j < |s| && s[j] == sep[0] ==> j == |a| by {
      forall j | 0 <= j < |s| && j != |a| ensures s[j] != sep[0] {
        if j < |a| {
          assert s[j] == a[j];
        } else if j < |a| + |sep| {
          assert s[j] == sep[1..][j - |a| - 1];
        } else {
          assert s[j] == b[j - |a| - |sep|];
        }
      }
    }
    assert OccursAt(s, sep, |a|);
    var first := Find(s, sep, 0);
    assert first.Some?;
    assert s[first.value..first.value + |sep|][0] == s[first.value];
    assert first.value == |a|;
    forall j | |a| + |sep| <= j ensures !OccursAt(s, sep, j) {
      if j + |sep| <= |s| {
        assert s[j..j + |sep|][0] == s[j];
      }
    }
    assert Find(s, sep, |a| + |sep|).None?;
    assert s[|a| + |sep|..] == b;
  }
}
