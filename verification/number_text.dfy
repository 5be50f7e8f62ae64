/**
 * Numbers as text.  The exporter turns attribute text into numbers with
 * Python's float(), and renders numbers (the action priority, the action id)
 * with str().  ParseFloat below is the decimal part of float()'s grammar:
 * surrounding whitespace, an optional sign, digits with an optional fraction,
 * and an optional exponent.  IntToString is str() on an int.
 */
module NumberText {
  import opened Ami

  predicate IsDigit(c: char) {
    '0' <= c <= '9'
  }

  /** The ASCII characters Python's float() strips around a number. */
  predicate IsSpace(c: char) {
    c == ' ' || c == '\t' || c == '\n' || c == '\r' || c == '\U{B}' || c == '\U{C}'
  }

  predicate AllDigits(s: string) {
    forall i :: 0 <= i < |s| ==> IsDigit(s[i])
  }

  function DigitValue(c: char): nat
    requires IsDigit(c)
  {
    c as int - '0' as int
  }

  /** The value of a string of decimal digits, most significant first. */
  function DigitsValue(s: string): nat
    requires AllDigits(s)
    decreases |s|
  {
    if |s| == 0 then 0 else DigitsValue(s[..|s| - 1]) * 10 + DigitValue(s[|s| - 1])
  }

  function Pow10(n: nat): (r: nat)
    ensures r >= 1
  {
    if n == 0 then 1 else 10 * Pow10(n - 1)
  }

  /** 10 raised to an exponent of either sign. */
  function Scale(exponent: int): (r: real)
    ensures r > 0.0
  {
    if exponent >= 0 then Pow10(exponent) as real else 1.0 / (Pow10(-exponent) as real)
  }

  /**
   * Where a left-to-right reading of float()'s decimal grammar stands:
   *   [spaces] [sign] (digits ['.' [digits]] | '.' digits) [(e|E) [sign] digits] [spaces]
   */
  datatype Phase =
    | Lead        // only spaces so far
    | Signed      // after the sign
    | Whole       // in the integer digits
    | Point       // just after the '.'
    | Fraction    // in the fraction digits
    | Mark        // just after e or E
    | MarkSigned  // after the exponent's sign
    | Exponent    // in the exponent digits
    | Trail       // in the spaces after a complete number
    | Reject      // the text is not a number

  /**
   * The reading so far: the digits of the mantissa as one integer, how many
   * of them follow the point, whether there was any, and the exponent.
   */
  datatype Scan = Scan(
    phase: Phase, negative: bool, mantissa: nat, places: nat, sawDigit: bool,
    expNegative: bool, exponent: nat)

  const Start := Scan(Lead, false, 0, 0, false, false, 0)

  function Reading(st: Scan, c: char): Scan
    requires IsDigit(c)
  {
    st.(mantissa := st.mantissa * 10 + DigitValue(c), sawDigit := true)
  }

  /** One character read. */
  function Step(st: Scan, c: char): Scan {
    var reject := st.(phase := Reject);
    match st.phase
    case Lead =>
      if IsSpace(c) then st
      else if c == '+' || c == '-' then st.(phase := Signed, negative := c == '-')
      else if IsDigit(c) then Reading(st, c).(phase := Whole)
      else if c == '.' then st.(phase := Point)
      else reject
    case Signed =>
      if IsDigit(c) then Reading(st, c).(phase := Whole)
      else if c == '.' then st.(phase := Point)
      else reject
    case Whole =>
      if IsDigit(c) then Reading(st, c)
      else if c == '.' then st.(phase := Point)
      else if c == 'e' || c == 'E' then st.(phase := Mark)
      else if IsSpace(c) then st.(phase := Trail)
      else reject
    case Point =>
      if IsDigit(c) then Reading(st, c).(phase := Fraction, places := st.places + 1)
      else if st.sawDigit && (c == 'e' || c == 'E') then st.(phase := Mark)
      else if st.sawDigit && IsSpace(c) then st.(phase := Trail)
      else reject
    case Fraction =>
      if IsDigit(c) then Reading(st, c).(places := st.places + 1)
      else if c == 'e' || c == 'E' then st.(phase := Mark)
      else if IsSpace(c) then st.(phase := Trail)
      else reject
    case Mark =>
      if c == '+' || c == '-' then st.(phase := MarkSigned, expNegative := c == '-')
      else if IsDigit(c) then st.(phase := Exponent, exponent := DigitValue(c))
      else reject
    case MarkSigned =>
      if IsDigit(c) then st.(phase := Exponent, exponent := DigitValue(c)) else reject
    case Exponent =>
      if IsDigit(c) then st.(exponent := st.exponent * 10 + DigitValue(c))
      else if IsSpace(c) then st.(phase := Trail)
      else reject
    case Trail =>
      if IsSpace(c) then st else reject
    case Reject => st
  }

  /** The text read from left to right, starting from st. */
  function ScanFrom(st: Scan, s: string): Scan
    decreases |s|
  {
    if |s| == 0 then st else Step(ScanFrom(st, s[..|s| - 1]), s[|s| - 1])
  }

  /** Whether the reading ends on a complete number, and which. */
  function Finish(st: Scan): Option<real> {
    var complete := match st.phase
      case Whole | Fraction | Exponent | Trail => true
      case Point => st.sawDigit
      case _ => false;
    if !complete then None
    else
      var magnitude := st.mantissa as real *
        Scale((if st.expNegative then -(st.exponent as int) else st.exponent as int) - st.places);
      Some(if st.negative then -magnitude else magnitude)
  }

  /** Python's float() on decimal text; None where float() raises ValueError. */
  function ParseFloat(s: string): Option<real> {
    Finish(ScanFrom(Start, s))
  }

  /** Reading a concatenation reads the first part, then the second. */
  lemma {:induction false} ScanFromAppend(st: Scan, a: string, b: string)
    ensures ScanFrom(st, a + b) == ScanFrom(ScanFrom(st, a), b)
    decreases |b|
  {
    if |b| == 0 {
      assert a + b == a;
    } else {
      assert (a + b)[..|a + b| - 1] == a + b[..|b| - 1];
      ScanFromAppend(st, a, b[..|b| - 1]);
    }
  }

  /** Once rejected, the text stays rejected. */
  lemma {:induction false} RejectAbsorbs(st: Scan, s: string)
    requires st.phase == Reject
    ensures ScanFrom(st, s).phase == Reject
    decreases |s|
  {
    if |s| > 0 {
      RejectAbsorbs(st, s[..|s| - 1]);
    }
  }

  /** A run of digits read at the start (after an optional sign) is the integer it spells. */
  lemma {:induction false} ScanNumeral(st: Scan, d: string)
    requires st.phase == Lead || st.phase == Signed
    requires st.mantissa == 0 && st.places == 0 && !st.expNegative && st.exponent == 0
    requires |d| > 0 && AllDigits(d)
    ensures ScanFrom(st, d) == st.(phase := Whole, mantissa := DigitsValue(d), sawDigit := true)
    decreases |d|
  {
    var init := d[..|d| - 1];
    if |init| > 0 {
      ScanNumeral(st, init);
    }
  }

  function DigitChar(d: nat): (c: char)
    requires d < 10
    ensures IsDigit(c) && DigitValue(c) == d
  {
    ('0' as int + d) as char
  }

  /** str() of a non-negative int. */
  function NatToString(n: nat): (s: string)
    ensures |s| > 0 && AllDigits(s)
    decreases n
  {
    if n < 10 then [DigitChar(n)] else NatToString(n / 10) + [DigitChar(n % 10)]
  }

  /** str() of an int. */
  function IntToString(n: int): string {
    if n < 0 then "-" + NatToString(-n) else NatToString(n)
  }

  lemma {:induction false} DigitsOfNatToString(n: nat)
    ensures DigitsValue(NatToString(n)) == n
    decreases n
  {
    var s := NatToString(n);
    if n >= 10 {
      var p := NatToString(n / 10);
      assert s == p + [DigitChar(n % 10)];
      assert s[..|s| - 1] == p;
      DigitsOfNatToString(n / 10);
    }
  }

  /** A plain run of integer digits is the number it spells, with its sign. */
  lemma FinishInteger(st: Scan)
    requires st.phase == Whole && st.places == 0 && !st.expNegative && st.exponent == 0
    ensures Finish(st) == Some(if st.negative then -(st.mantissa as real) else st.mantissa as real)
  {
    assert Scale(0) == 1.0;
  }

  /** The text str() gives an int is read back by float() as the same number. */
  lemma ParseFloatOfIntToString(n: int)
    ensures ParseFloat(IntToString(n)) == Some(n as real)
  {
    var t := IntToString(n);
    if n < 0 {
      var d := NatToString(-n);
      assert t == "-" + d;
      ScanFromAppend(Start, "-", d);
      assert ScanFrom(Start, "-") == Start.(phase := Signed, negative := true);
      ScanNumeral(Start.(phase := Signed, negative := true), d);
      FinishInteger(ScanFrom(Start, t));
      DigitsOfNatToString(-n);
    } else {
      ScanNumeral(Start, t);
      FinishInteger(ScanFrom(Start, t));
      DigitsOfNatToString(n);
    }
  }

  /** Distinct ints render as distinct text, so rendered ids never collide. */
  lemma IntToStringInjective(a: int, b: int)
    requires IntToString(a) == IntToString(b)
    ensures a == b
  {
    ParseFloatOfIntToString(a);
    ParseFloatOfIntToString(b);
  }

  /** Text starting with '$' (an attribute reference left unresolved) is never a number. */
  lemma ReferenceIsNotNumber(s: string)
    requires |s| > 0 && s[0] == '$'
    ensures ParseFloat(s) == None
  {
    assert s == [s[0]] + s[1..];
    ScanFromAppend(Start, [s[0]], s[1..]);
    assert ScanFrom(Start, [s[0]]).phase == Reject;
    RejectAbsorbs(ScanFrom(Start, [s[0]]), s[1..]);
  }
}
