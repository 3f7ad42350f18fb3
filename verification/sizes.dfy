/**
 * Human-readable sizes, as `Base.float_size` reads them and `Base.format_size`
 * shows them. Sizes are exact reals: the model has no binary float rounding;
 * the two-decimal rendering rounds the exact value.
 */
module Sizes {
  import opened Errors
  import opened Text

  datatype Unit = B | K | M | G

  /** Bytes per unit: 1, 1024, 1024^2, 1024^3. */
  function Scale(u: Unit): (n: nat)
    ensures n > 0
  {
    match u
    case B => 1
    case K => 1024
    case M => 1024 * 1024
    case G => 1024 * 1024 * 1024
  }

  function Letter(u: Unit): char {
    match u
    case B => 'B'
    case K => 'K'
    case M => 'M'
    case G => 'G'
  }

  /** The suffix table `si_dt` of `float_size`: upper-case K, M and G only. */
  function SuffixUnit(c: char): (r: Option<Unit>)
    ensures r.Some? ==> r.value != B && Letter(r.value) == c
  {
    if c == 'K' then Some(K)
    else if c == 'M' then Some(M)
    else if c == 'G' then Some(G)
    else None
  }

  predicate IsDigit(c: char) { '0' <= c <= '9' }

  predicate AllDigits(s: string) { forall k :: 0 <= k < |s| ==> IsDigit(s[k]) }

  /** The characters a decimal numeral is written with. */
  predicate IsNumeralChar(c: char) { IsDigit(c) || c == '.' || c == '+' || c == '-' }

  function DigitsValue(s: string): nat
    requires AllDigits(s)
  {
    if s == [] then 0 else DigitsValue(s[..|s| - 1]) * 10 + (s[|s| - 1] as int - '0' as int)
  }

  function Pow10(n: nat): (r: nat)
    ensures r > 0
  {
    if n == 0 then 1 else 10 * Pow10(n - 1)
  }

  /** The value of the numeral `whole.frac`. */
  function DecimalValue(whole: string, frac: string): real
    requires AllDigits(whole) && AllDigits(frac)
  {
    DigitsValue(whole) as real + DigitsValue(frac) as real / Pow10(|frac|) as real
  }

  /** A digit string with an optional fractional part: `12`, `4.0`, `7.`, `.5`. */
  function ParseUnsigned(s: string): Option<real> {
    match Find(s, ".", 0)
    case None =>
      if s != [] && AllDigits(s) then Some(DigitsValue(s) as real) else None
    case Some(i) =>
      var whole, frac := s[..i], s[i + 1..];
      if (whole != [] || frac != []) && AllDigits(whole) && AllDigits(frac) then
        Some(DecimalValue(whole, frac))
      else None
  }

  /** Python's `float(s)` on decimal numerals with an optional sign. */
  function ParseNumber(s: string): Option<real> {
    if s != [] && (s[0] == '+' || s[0] == '-') then
      match ParseUnsigned(s[1..])
      case None => None
      case Some(v) => Some(if s[0] == '-' then -v else v)
    else ParseUnsigned(s)
  }

  /**
   * `Base.float_size`: a token ending in K, M or G is its numeric prefix times
   * 1024, 1024^2 or 1024^3; any other token is read as a count of 512-byte blocks
   * (`value / 2 * 1024`); the empty token is "0".
   */
  function FloatSize(token: string): Result<real> {
    var size := if token == [] then "0" else token;
    match SuffixUnit(size[|size| - 1])
    case Some(u) =>
      var prefix := size[..|size| - 1];
      (match ParseNumber(prefix)
       case None => Err(NotANumber(prefix))
       case Some(v) => Ok(v * Scale(u) as real))
    case None =>
      (match ParseNumber(size)
       case None => Err(NotANumber(size))
       case Some(v) => Ok(v / 2.0 * 1024.0))
  }

  /** A size as `format_size` displays it: a number and a unit letter. */
  datatype Display = Display(value: real, unit: Unit)

  /**
   * `Base.format_size`: the largest unit whose threshold the size reaches, and the
   * size expressed in that unit.
   */
  function FormatSize(size: real): (r: Display)
    ensures r.unit == B ==> r.value == size
    ensures r.unit == K ==> 1024.0 * r.value == size
    ensures r.unit == M ==> 1048576.0 * r.value == size
    ensures r.unit == G ==> 1073741824.0 * r.value == size
    ensures r.unit != B ==> r.value >= 1.0
    ensures r.unit != G ==> r.value < 1024.0
  {
    if size >= Scale(G) as real then Display(size / Scale(G) as real, G)
    else if size >= Scale(M) as real then Display(size / Scale(M) as real, M)
    else if size >= Scale(K) as real then Display(size / Scale(K) as real, K)
    else Display(size, B)
  }

  /**
   * The nearest whole number, ties to the even one: how `format(x, '.2f')`
   * rounds `x * 100`.
   */
  function RoundHalfEven(x: real): (n: int)
    ensures (n as real - x) * 2.0 <= 1.0 && (x - n as real) * 2.0 <= 1.0
    ensures (n as real - x) * 2.0 == 1.0 || (x - n as real) * 2.0 == 1.0 ==> n % 2 == 0
    ensures x >= 0.0 ==> n >= 0
  {
    var f := x.Floor;
    var d := x - f as real;
    if d < 0.5 then f
    else if d > 0.5 then f + 1
    else if f % 2 == 0 then f
    else f + 1
  }

  /**
   * The text `f"{value:.02f} {unit}"`, held as the sign written, the number of
   * hundredths shown and the unit letter.
   */
  datatype Shown = Shown(negative: bool, hundredths: nat, unit: Unit)

  function Abs(x: real): real {
    if x < 0.0 then -x else x
  }

  /** `format_size` as text: the display value rounded to two decimals. */
  function FormatShown(size: real): (r: Shown)
    ensures r.unit == FormatSize(size).unit && r.negative == (size < 0.0)
    ensures (r.hundredths as real - Abs(FormatSize(size).value) * 100.0) * 2.0 <= 1.0
    ensures (Abs(FormatSize(size).value) * 100.0 - r.hundredths as real) * 2.0 <= 1.0
  {
    var d := FormatSize(size);
    Shown(d.value < 0.0, RoundHalfEven(Abs(d.value) * 100.0) as nat, d.unit)
  }

  function DigitChar(d: nat): (c: char)
    requires d < 10
    ensures IsDigit(c) && c as int - '0' as int == d
  {
    ('0' as int + d) as char
  }

  /** The decimal digits of `n`, as `str(n)` writes them. */
  function NatToString(n: nat): (s: string)
    ensures s != [] && AllDigits(s)
  {
    if n < 10 then [DigitChar(n)] else NatToString(n / 10) + [DigitChar(n % 10)]
  }

  // ---------------------------------------------------------------------------
  // Lemmas

  lemma {:induction false} DigitsOfNat(n: nat)
    ensures DigitsValue(NatToString(n)) == n
  {
    if n >= 10 {
      var s := NatToString(n / 10);
      assert NatToString(n)[..|s|] == s;
      DigitsOfNat(n / 10);
    }
  }

  lemma NoDot(s: string)
    requires AllDigits(s)
    ensures Find(s, ".", 0).None?
  {
    forall j: nat ensures !OccursAt(s, ".", j) {
      if j + 1 <= |s| {
        assert s[j..j + 1][0] == s[j];
      }
    }
  }

  /** `float(str(n)) == n`. */
  lemma ParseNat(n: nat)
    ensures ParseNumber(NatToString(n)) == Some(n as real)
  {
    var s := NatToString(n);
    NoDot(s);
    DigitsOfNat(n);
  }

  /** `whole.frac` is read as whole plus frac over a power of ten. */
  lemma ParseDecimal(whole: string, frac: string)
    requires whole != [] && AllDigits(whole) && AllDigits(frac)
    ensures ParseNumber(whole + "." + frac) == Some(DecimalValue(whole, frac))
  {
    var s := whole + "." + frac;
    assert OccursAt(s, ".", |whole|);
    forall j: nat | j < |whole| ensures !OccursAt(s, ".", j) {
      assert s[j..j + 1][0] == whole[j];
    }
    assert Find(s, ".", 0) == Some(|whole|);
    assert s[..|whole|] == whole;
    assert s[|whole| + 1..] == frac;
  }

  /** Whatever `float` accepts is written with digits, dots and signs only. */
  lemma ParsedAlphabet(s: string, k: nat)
    requires k < |s| && !IsNumeralChar(s[k])
    ensures ParseNumber(s).None?
  {
    if s[0] == '+' || s[0] == '-' {
      assert s[1..][k - 1] == s[k];
      UnsignedAlphabet(s[1..], k - 1);
    } else {
      UnsignedAlphabet(s, k);
    }
  }

  lemma UnsignedAlphabet(s: string, k: nat)
    requires k < |s| && !IsNumeralChar(s[k])
    ensures ParseUnsigned(s).None?
  {
    match Find(s, ".", 0)
    case None =>
    case Some(i) =>
      if k < i {
        assert s[..i][k] == s[k];
      } else {
        assert s[i..i + 1][0] == s[i];
        assert s[i + 1..][k - i - 1] == s[k];
      }
  }

  /** A whole number with a K, M or G suffix is that many units. */
  lemma FloatSizeSuffixed(n: nat, u: Unit)
    requires u != B
    ensures FloatSize(NatToString(n) + [Letter(u)]) == Ok((n * Scale(u)) as real)
  {
    var t := NatToString(n) + [Letter(u)];
    assert t[..|t| - 1] == NatToString(n);
    assert SuffixUnit(t[|t| - 1]) == Some(u) by {
      assert t[|t| - 1] == Letter(u);
    }
    ParseNat(n);
    RealProduct(n, Scale(u));
  }

  lemma RealProduct(a: nat, b: nat)
    ensures a as real * b as real == (a * b) as real
  {
  }

  /** A decimal with a K, M or G suffix (`4.0K`, `1.5M`) is that fraction of units. */
  lemma FloatSizeSuffixedDecimal(whole: string, frac: string, u: Unit)
    requires u != B && whole != [] && AllDigits(whole) && AllDigits(frac)
    ensures FloatSize(whole + "." + frac + [Letter(u)]) ==
            Ok(DecimalValue(whole, frac) * Scale(u) as real)
  {
    var t := whole + "." + frac + [Letter(u)];
    assert t[..|t| - 1] == whole + "." + frac;
    ParseDecimal(whole, frac);
  }

  /**
   * A bare whole number is a count of 512-byte blocks: `n / 2 * 1024` bytes. The
   * empty token reads as zero.
   */
  lemma FloatSizeBlocks(n: nat)
    ensures FloatSize(NatToString(n)) == Ok((n * 512) as real)
    ensures FloatSize("") == Ok(0.0)
  {
    var s := NatToString(n);
    assert SuffixUnit(s[|s| - 1]).None?;
    ParseNat(n);
    ParseNat(0);
    assert NatToString(0) == "0";
  }

  /** A token with any character other than digits, dots and signs before its last one fails. */
  lemma FloatSizeRejects(token: string, k: nat)
    requires k + 1 < |token| && !IsNumeralChar(token[k])
    ensures FloatSize(token).Err?
  {
    var prefix := token[..|token| - 1];
    assert prefix[k] == token[k];
    ParsedAlphabet(prefix, k);
    ParsedAlphabet(token, k);
  }

  /** The three conditions of `FormatSize`'s contract pick exactly one display. */
  lemma FormatUnique(size: real, d: Display)
    requires Scale(d.unit) as real * d.value == size
    requires d.unit != B ==> d.value >= 1.0
    requires d.unit != G ==> d.value < 1024.0
    ensures FormatSize(size) == d
  {
  }

  /** Reading `nK`, `nM` or `nG` and formatting the bytes shows `n` in the same unit. */
  lemma FormatOfParsed(n: nat, u: Unit)
    requires u != B && 1 <= n
    requires u != G ==> n < 1024
    ensures FloatSize(NatToString(n) + [Letter(u)]).Ok?
    ensures FormatSize(FloatSize(NatToString(n) + [Letter(u)]).value) == Display(n as real, u)
  {
    FloatSizeSuffixed(n, u);
    FormatScaled(n, u);
  }

  /** `n` units, for `n` within the unit's range, are shown as `n` in that unit. */
  lemma FormatScaled(n: nat, u: Unit)
    requires u != B && 1 <= n
    requires u != G ==> n < 1024
    ensures FormatSize((n * Scale(u)) as real) == Display(n as real, u)
  {
    var x := n as real;
    var size := (n * Scale(u)) as real;
    match u
    case K =>
      assert size == 1024.0 * x;
    case M =>
      assert size == 1048576.0 * x;
    case G =>
      assert size == 1073741824.0 * x;
  }

  /** The rounding is the only whole number within one half that breaks ties to even. */
  lemma RoundUnique(x: real, m: int)
    requires (m as real - x) * 2.0 <= 1.0 && (x - m as real) * 2.0 <= 1.0
    requires (m as real - x) * 2.0 == 1.0 || (x - m as real) * 2.0 == 1.0 ==> m % 2 == 0
    ensures m == RoundHalfEven(x)
  {
    var n := RoundHalfEven(x);
    assert m == n;
  }

  /**
   * Sizes shown alike are in the same unit, of the same sign, and at most one
   * hundredth of that unit apart.
   */
  lemma ShownClose(a: real, b: real)
    requires FormatShown(a) == FormatShown(b)
    ensures FormatSize(a).unit == FormatSize(b).unit && (a < 0.0 <==> b < 0.0)
    ensures (a - b) * 100.0 <= Scale(FormatSize(a).unit) as real
    ensures (b - a) * 100.0 <= Scale(FormatSize(a).unit) as real
  {
    var da, db := FormatSize(a), FormatSize(b);
    var sa, sb := FormatShown(a), FormatShown(b);
    UnitClose(da.unit, a, b, da.value, db.value, sa.hundredths);
  }

  lemma UnitClose(u: Unit, a: real, b: real, x: real, y: real, h: nat)
    requires u == B ==> x == a && y == b
    requires u == K ==> 1024.0 * x == a && 1024.0 * y == b
    requires u == M ==> 1048576.0 * x == a && 1048576.0 * y == b
    requires u == G ==> 1073741824.0 * x == a && 1073741824.0 * y == b
    requires (a < 0.0 <==> b < 0.0)
    requires (h as real - Abs(x) * 100.0) * 2.0 <= 1.0 && (Abs(x) * 100.0 - h as real) * 2.0 <= 1.0
    requires (h as real - Abs(y) * 100.0) * 2.0 <= 1.0 && (Abs(y) * 100.0 - h as real) * 2.0 <= 1.0
    ensures (a - b) * 100.0 <= Scale(u) as real && (b - a) * 100.0 <= Scale(u) as real
  {
    match u
    case B =>
      ValuesClose(x, y, h);
    case K =>
      ValuesClose(x, y, h);
    case M =>
      ValuesClose(x, y, h);
    case G =>
      ValuesClose(x, y, h);
  }

  /** Two numbers of one sign shown with the same hundredths are at most one hundredth apart. */
  lemma ValuesClose(x: real, y: real, h: nat)
    requires (x < 0.0 <==> y < 0.0)
    requires (h as real - Abs(x) * 100.0) * 2.0 <= 1.0 && (Abs(x) * 100.0 - h as real) * 2.0 <= 1.0
    requires (h as real - Abs(y) * 100.0) * 2.0 <= 1.0 && (Abs(y) * 100.0 - h as real) * 2.0 <= 1.0
    ensures (x - y) * 100.0 <= 1.0 && (y - x) * 100.0 <= 1.0
  {
  }

  /** 1024 and 1025 bytes are both shown as `1.00 K`. */
  lemma ShownCollides()
    ensures FormatShown(1024.0) == FormatShown(1025.0) == Shown(false, 100, K)
  {
    assert FormatSize(1024.0) == Display(1.0, K);
    assert FormatSize(1025.0) == Display(1025.0 / 1024.0, K);
    assert Abs(1025.0 / 1024.0) * 100.0 == 100.09765625;
    RoundUnique(100.09765625, 100);
    RoundUnique(100.0, 100);
  }
}
