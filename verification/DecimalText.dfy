// Printing and parsing of fixed-point values.
module DecimalText {
  import opened Common
  import opened Decimals

  const SCALE_DIGITS: nat := 18

  datatype ParseError = EmptyString | InvalidSign | NoDigits | BadInteger | OutOfRange

  // ── Digits ────────────────────────────────────────────────────────────

  predicate IsDigit(c: char) {
    '0' <= c <= '9'
  }

  predicate AllDigits(s: string) {
    forall i :: 0 <= i < |s| ==> IsDigit(s[i])
  }

  function DigitOf(c: char): (d: nat)
    requires IsDigit(c)
    ensures d < 10
  {
    (c as int) - ('0' as int)
  }

  function CharOf(d: nat): (c: char)
    requires d < 10
    ensures IsDigit(c) && DigitOf(c) == d
  {
    (d + '0' as int) as char
  }

  function Digits(n: nat): (s: string)
    ensures s != [] && AllDigits(s)
  {
    if n < 10 then [CharOf(n)] else Digits(n / 10) + [CharOf(n % 10)]
  }

  function ValueOf(s: string): nat
    requires AllDigits(s)
  {
    if s == [] then 0 else 10 * ValueOf(s[..|s| - 1]) + DigitOf(s[|s| - 1])
  }

  function Zeros(n: nat): (s: string)
    ensures |s| == n && AllDigits(s) && forall i :: 0 <= i < n ==> s[i] == '0'
  {
    seq(n, i => '0')
  }

  // ── Printing ──────────────────────────────────────────────────────────

  function PadLeft(s: string, width: nat): string {
    if |s| >= width then s else Zeros(width - |s|) + s
  }

  function TrimZeros(s: string): string {
    if s != [] && s[|s| - 1] == '0' then TrimZeros(s[..|s| - 1]) else s
  }

  function Shown(raw: I128): string {
    if raw == 0 then "0"
    else
      var abs := Abs(raw);
      var integer, frac := abs / SCALE, abs % SCALE;
      (if raw < 0 then "-" else "") + Digits(integer)
      + if frac != 0 then "." + TrimZeros(PadLeft(Digits(frac), SCALE_DIGITS)) else ""
  }

  method PrintNat(n: nat) returns (s: string)
    ensures s == Digits(n)
  {
    s := "";
    var left := n;
    while left >= 10
      invariant Digits(n) == Digits(left) + s
    {
      s := [CharOf(left % 10)] + s;
      left := left / 10;
    }
    s := [CharOf(left)] + s;
  }

  method Display(raw: I128) returns (s: string)
    ensures s == Shown(raw)
  {
    hide Digits, PadLeft, TrimZeros;
    if raw == 0 { return "0"; }
    var abs := Abs(raw);
    s := "";
    if raw < 0 { s := "-"; }
    var integer := PrintNat(abs / SCALE);
    s := s + integer;
    var frac := abs % SCALE;
    if frac != 0 {
      var fracStr := PrintNat(frac);
      fracStr := PadLeftWith(fracStr, SCALE_DIGITS);
      var trimmed := TrimEnd(fracStr);
      s := s + "." + trimmed;
    }
  }

  method PadLeftWith(s: string, width: nat) returns (r: string)
    ensures r == PadLeft(s, width)
  {
    r := s;
    while |r| < width
      invariant |r| <= Max(width, |s|) && |r| >= |s| && r == Zeros(|r| - |s|) + s
    {
      r := "0" + r;
      assert Zeros(|r| - |s|) == "0" + Zeros(|r| - 1 - |s|);
    }
  }

  method TrimEnd(s: string) returns (r: string)
    ensures r == TrimZeros(s)
  {
    r := s;
    while |r| > 0 && r[|r| - 1] == '0'
      invariant TrimZeros(r) == TrimZeros(s)
    {
      r := r[..|r| - 1];
    }
  }

  // ── Parsing ───────────────────────────────────────────────────────────

  predicate IsBlank(c: char) {
    c == ' ' || '\t' <= c <= '\r'
  }

  function TrimBlanks(s: string): string
    decreases |s|
  {
    if s != [] && IsBlank(s[0]) then TrimBlanks(s[1..])
    else if s != [] && IsBlank(s[|s| - 1]) then TrimBlanks(s[..|s| - 1])
    else s
  }

  // The library's integer parser: an optional sign, then at least one digit,
  // within range.
  function ParseI128(s: string): Option<I128> {
    if s == [] then None
    else
      var digits := if s[0] == '-' || s[0] == '+' then s[1..] else s;
      if digits == [] || !AllDigits(digits) then None
      else
        var magnitude: int := ValueOf(digits);
        var v := if s[0] == '-' then -magnitude else magnitude;
        if Fits(v) then Some(v) else None
  }

  function IndexOf(s: string, c: char): (i: nat)
    ensures i <= |s| && forall j :: 0 <= j < i ==> s[j] != c
    ensures i < |s| ==> s[i] == c
  {
    if s == [] || s[0] == c then 0 else 1 + IndexOf(s[1..], c)
  }

  // The fraction padded or cut to 18 digits.
  function Fraction(frac: string): string {
    if |frac| > SCALE_DIGITS then frac[..SCALE_DIGITS] else frac + Zeros(SCALE_DIGITS - |frac|)
  }

  // What the sign rules leave: negative or not, and the rest.
  function Signed(s: string): Result<(bool, string), ParseError> {
    if s == [] then Err(EmptyString)
    else if s[0] == '-' || s[0] == '+' then
      if |s| > 1 && (s[1] == '+' || s[1] == '-') then Err(InvalidSign) else Ok((s[0] == '-', s[1..]))
    else Ok((false, s))
  }

  function Unsigned(s: string): Result<int, ParseError> {
    var dot := IndexOf(s, '.');
    var integer, frac := s[..dot], if dot < |s| then s[dot + 1..] else "";
    var intVal := if integer == [] then Some(0) else ParseI128(integer);
    var fracVal := if frac == [] then Some(0) else ParseI128(Fraction(frac));
    if intVal.None? || fracVal.None? then Err(BadInteger)
    else
      var raw := intVal.value * SCALE + fracVal.value;
      if Fits(intVal.value * SCALE) && Fits(raw) then Ok(raw) else Err(OutOfRange)
  }

  function Parsed(text: string): Result<int, ParseError> {
    match Signed(TrimBlanks(text))
    case Err(e) => Err(e)
    case Ok((negative, s)) =>
      if s == [] then Err(NoDigits)
      else
        match Unsigned(s)
        case Err(e) => Err(e)
        case Ok(raw) => Ok(if negative then -raw else raw)
  }

  method FromStr(text: string) returns (r: Result<int, ParseError>)
    ensures r == Parsed(text)
  {
    hide TrimBlanks, ParseI128, IndexOf, Fraction;
    var s := Trim(text);
    if s == [] { return Err(EmptyString); }
    var negative := false;
    if s[0] == '-' {
      s := s[1..];
      if s != [] && (s[0] == '+' || s[0] == '-') { return Err(InvalidSign); }
      negative := true;
    } else if s[0] == '+' {
      s := s[1..];
      if s != [] && (s[0] == '+' || s[0] == '-') { return Err(InvalidSign); }
    }
    if s == [] { return Err(NoDigits); }
    var pos := Find(s, '.');
    var intStr, fracStr := s[..pos], "";
    if pos < |s| { fracStr := s[pos + 1..]; }
    var intVal: I128 := 0;
    if intStr != [] {
      var parsed := ParseI128(intStr);
      if parsed.None? { return Err(BadInteger); }
      intVal := parsed.value;
    }
    var fracVal: I128 := 0;
    if fracStr != [] {
      var padded := ToEighteen(fracStr);
      var parsed := ParseI128(padded);
      if parsed.None? { return Err(BadInteger); }
      fracVal := parsed.value;
    }
    if !Fits(intVal * SCALE) || !Fits(intVal * SCALE + fracVal) { return Err(OutOfRange); }
    var raw := intVal * SCALE + fracVal;
    return Ok(if negative then -raw else raw);
  }

  method Trim(text: string) returns (s: string)
    ensures s == TrimBlanks(text)
  {
    s := text;
    while s != [] && IsBlank(s[0])
      invariant TrimBlanks(s) == TrimBlanks(text)
      decreases |s|
    {
      s := s[1..];
    }
    while s != [] && IsBlank(s[|s| - 1])
      invariant TrimBlanks(s) == TrimBlanks(text)
      invariant s == [] || !IsBlank(s[0])
      decreases |s|
    {
      s := s[..|s| - 1];
    }
  }

  method Find(s: string, c: char) returns (i: nat)
    ensures i == IndexOf(s, c)
  {
    i := 0;
    while i < |s| && s[i] != c
      invariant i <= |s| && IndexOf(s, c) == i + IndexOf(s[i..], c)
    {
      assert s[i..][1..] == s[i + 1..];
      i := i + 1;
    }
  }

  // Cut to 18 characters, or padded on the right with zeros.
  method ToEighteen(frac: string) returns (padded: string)
    ensures padded == Fraction(frac)
  {
    if |frac| > SCALE_DIGITS { return frac[..SCALE_DIGITS]; }
    padded := frac;
    for i := 0 to SCALE_DIGITS - |frac|
      invariant padded == frac + Zeros(i)
    {
      padded := padded + "0";
      assert Zeros(i + 1) == Zeros(i) + "0";
    }
  }

  // ── Round trip ────────────────────────────────────────────────────────

  lemma {:induction false} ValueOfDigits(n: nat)
    ensures ValueOf(Digits(n)) == n
  {
    var s := Digits(n);
    if n < 10 {
      assert s[..0] == [];
    } else {
      ValueOfDigits(n / 10);
      assert s[..|s| - 1] == Digits(n / 10);
    }
  }

  function Pow10(k: nat): (r: nat)
    ensures r > 0
  {
    if k == 0 then 1 else 10 * Pow10(k - 1)
  }

  lemma {:induction false} DigitsBound(n: nat, k: nat)
    requires k > 0 && n < Pow10(k)
    ensures |Digits(n)| <= k
    decreases k
  {
    if n >= 10 {
      DigitsBound(n / 10, k - 1);
    }
  }

  lemma ScaleIsPower()
    ensures Pow10(SCALE_DIGITS) == SCALE
  {
    assert Pow10(6) == 1_000_000;
    assert Pow10(12) == 1_000_000 * Pow10(6);
    assert Pow10(18) == 1_000_000 * Pow10(12);
  }

  lemma {:induction false} LeadingZeros(n: nat, s: string)
    requires AllDigits(s)
    ensures AllDigits(Zeros(n) + s) && ValueOf(Zeros(n) + s) == ValueOf(s)
    decreases |s|, n
  {
    var z := Zeros(n) + s;
    if s != [] {
      assert z[..|z| - 1] == Zeros(n) + s[..|s| - 1];
      LeadingZeros(n, s[..|s| - 1]);
    } else if n > 0 {
      assert z[..n - 1] == Zeros(n - 1) + [];
      LeadingZeros(n - 1, []);
    }
  }

  // The printed fraction before trimming: 18 digits with the fraction's value.
  lemma PaddedFraction(frac: nat)
    requires 0 < frac < SCALE
    ensures var p := PadLeft(Digits(frac), SCALE_DIGITS);
      |p| == SCALE_DIGITS && AllDigits(p) && ValueOf(p) == frac
  {
    ScaleIsPower();
    DigitsBound(frac, SCALE_DIGITS);
    ValueOfDigits(frac);
    LeadingZeros(SCALE_DIGITS - |Digits(frac)|, Digits(frac));
    assert Zeros(0) + Digits(frac) == Digits(frac);
  }

  // Trimming zeros and padding them back undo each other.
  lemma {:induction false} TrimThenPad(p: string)
    requires |p| <= SCALE_DIGITS && AllDigits(p)
    ensures var t := TrimZeros(p);
      AllDigits(t) && |t| <= |p| && t + Zeros(|p| - |t|) == p
    decreases |p|
  {
    if p != [] && p[|p| - 1] == '0' {
      var init := p[..|p| - 1];
      TrimThenPad(init);
      var t := TrimZeros(p);
      assert Zeros(|p| - |t|) == Zeros(|init| - |t|) + ['0'];
      assert p == init + ['0'];
    } else {
      assert p + Zeros(0) == p;
    }
  }

  lemma {:induction false} ZeroValue(n: nat)
    ensures ValueOf(Zeros(n)) == 0
  {
    if n > 0 {
      assert Zeros(n)[..n - 1] == Zeros(n - 1);
      ZeroValue(n - 1);
    }
  }

  lemma ParseDigits(s: string)
    requires s != [] && AllDigits(s)
    ensures ParseI128(s) == if Fits(ValueOf(s)) then Some(ValueOf(s)) else None
  {
    assert IsDigit(s[0]);
  }

  // Parsing a printed fraction gives it back.
  lemma FractionRoundTrip(frac: nat)
    requires 0 < frac < SCALE
    ensures var t := TrimZeros(PadLeft(Digits(frac), SCALE_DIGITS));
      t != [] && AllDigits(t) && ParseI128(Fraction(t)) == Some(frac)
  {
    hide Digits, PadLeft, ParseI128, ValueOf;
    var p := PadLeft(Digits(frac), SCALE_DIGITS);
    PaddedFraction(frac);
    TrimThenPad(p);
    var t := TrimZeros(p);
    ZeroValue(SCALE_DIGITS);
    assert t == [] ==> p == Zeros(SCALE_DIGITS);
    assert Fraction(t) == p;
    ParseDigits(p);
  }

  lemma {:induction false} NoDot(a: string, b: string)
    requires AllDigits(a)
    ensures b == [] ==> IndexOf(a + b, '.') == |a|
    ensures b != [] && b[0] == '.' ==> IndexOf(a + b, '.') == |a|
    decreases |a|
  {
    if a == [] {
      assert a + b == b;
    } else {
      assert (a + b)[1..] == a[1..] + b;
      assert IsDigit(a[0]);
      NoDot(a[1..], b);
    }
  }

  // The unsigned text of a magnitude parses to it, if it fits.
  function Magnitude(abs: nat): string {
    Digits(abs / SCALE)
    + if abs % SCALE != 0 then "." + TrimZeros(PadLeft(Digits(abs % SCALE), SCALE_DIGITS)) else ""
  }

  lemma MagnitudeParses(abs: nat)
    requires abs <= -I128_MIN
    ensures Unsigned(Magnitude(abs)) == if Fits(abs) then Ok(abs) else Err(OutOfRange)
  {
    hide Digits, PadLeft, TrimZeros, ParseI128, Fraction, ValueOf, IndexOf;
    var integer, frac := abs / SCALE, abs % SCALE;
    var whole := Digits(integer);
    var tail := if frac != 0 then "." + TrimZeros(PadLeft(Digits(frac), SCALE_DIGITS)) else "";
    var s := whole + tail;
    NoDot(whole, tail);
    ValueOfDigits(integer);
    ParseDigits(whole);
    assert s[..|whole|] == whole;
    if frac != 0 {
      FractionRoundTrip(frac);
      assert s[|whole| + 1..] == TrimZeros(PadLeft(Digits(frac), SCALE_DIGITS));
    }
    assert integer * SCALE + frac == abs;
  }

  lemma {:induction false} NothingToTrim(s: string)
    requires s != [] && !IsBlank(s[0]) && !IsBlank(s[|s| - 1])
    ensures TrimBlanks(s) == s
  {
  }

  lemma MagnitudeShape(abs: nat)
    ensures var s := Magnitude(abs);
      s != [] && IsDigit(s[0]) && IsDigit(s[|s| - 1])
  {
    hide Digits, PadLeft, TrimZeros;
    if abs % SCALE != 0 { FractionRoundTrip(abs % SCALE); }
  }

  // Printing then parsing is the identity on every value but the smallest, for
  // which the parser, having no room for its magnitude, reports out of range.
  lemma PrintParse(raw: I128)
    ensures Parsed(Shown(raw)) == if raw == I128_MIN then Err(OutOfRange) else Ok(raw)
  {
    hide Digits, PadLeft, TrimZeros, Unsigned, TrimBlanks;
    var m := Magnitude(Abs(raw));
    MagnitudeParses(Abs(raw));
    MagnitudeShape(Abs(raw));
    ShownIs(raw);
    var s := Shown(raw);
    NothingToTrim(s);
    if raw < 0 {
      assert s == "-" + m;
      assert s[1..] == m;
    }
  }

  lemma ShownIs(raw: I128)
    ensures Shown(raw) == if raw < 0 then "-" + Magnitude(Abs(raw)) else Magnitude(Abs(raw))
  {
    if raw == 0 {
      assert Digits(0) == "0";
    }
  }

  lemma {:induction false} ValueBound(s: string)
    requires AllDigits(s)
    ensures ValueOf(s) < Pow10(|s|)
  {
    if s != [] {
      ValueBound(s[..|s| - 1]);
    }
  }

  // A sign inside the fraction is accepted, but cannot reach the integer part.
  lemma UnsignedAbove(s: string)
    requires s != [] && s[0] != '-' && s[0] != '+' && Unsigned(s).Ok?
    ensures -SCALE < Unsigned(s).value <= I128_MAX
  {
    hide IndexOf, ValueOf, Pow10;
    var dot := IndexOf(s, '.');
    var integer, frac := s[..dot], if dot < |s| then s[dot + 1..] else "";
    var f := Fraction(frac);
    assert |f| == SCALE_DIGITS;
    if frac != [] && f[0] == '-' {
      ValueBound(f[1..]);
      Pow10Step(SCALE_DIGITS);
      ScaleIsPower();
    }
  }

  lemma Pow10Step(k: nat)
    requires k > 0
    ensures Pow10(k) == 10 * Pow10(k - 1)
  {
  }

  // Whatever is parsed is a machine word: the final negation cannot overflow.
  lemma ParsedFits(text: string)
    ensures Parsed(text).Ok? ==> Fits(Parsed(text).value)
  {
    hide TrimBlanks, Unsigned;
    var t := TrimBlanks(text);
    if Signed(t).Ok? {
      var s := Signed(t).value.1;
      if s != [] && Unsigned(s).Ok? { UnsignedAbove(s); }
    }
  }
}
