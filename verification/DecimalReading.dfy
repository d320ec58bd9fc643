// What a parsed text means: when the parser returns the number that is written.
module DecimalReading {
  import opened Common
  import opened Decimals
  import opened DecimalText

  predicate IsSign(c: char) {
    c == '-' || c == '+'
  }

  function IntegerPart(s: string): string {
    s[..IndexOf(s, '.')]
  }

  function FractionPart(s: string): string {
    if IndexOf(s, '.') < |s| then s[IndexOf(s, '.') + 1..] else ""
  }

  // Digits around at most one dot.
  predicate IsNumeral(s: string) {
    AllDigits(IntegerPart(s)) && AllDigits(FractionPart(s))
  }

  // The fraction 0.f in raw units, rounded down.
  function CutTo18(f: string): nat
    requires AllDigits(f)
  {
    DivideSmaller(ValueOf(f) * SCALE, Pow10(|f|));
    ValueOf(f) * SCALE / Pow10(|f|)
  }

  // The number a numeral writes, cut to 18 places.
  function Written(s: string): nat
    requires IsNumeral(s)
  {
    ValueOf(IntegerPart(s)) * SCALE + CutTo18(FractionPart(s))
  }

  function WithSign(negative: bool, x: int): int {
    if negative then -x else x
  }

  // ── Digits and places ─────────────────────────────────────────────────

  lemma {:induction false} PowAdds(a: nat, b: nat)
    ensures Pow10(a + b) == Pow10(a) * Pow10(b)
  {
    if a > 0 {
      PowAdds(a - 1, b);
      Pow10Step(a);
      Pow10Step(a + b);
      assert 10 * (Pow10(a - 1) * Pow10(b)) == (10 * Pow10(a - 1)) * Pow10(b);
    }
  }

  lemma {:induction false} ValueConcat(a: string, b: string)
    requires AllDigits(a) && AllDigits(b)
    ensures AllDigits(a + b) && ValueOf(a + b) == ValueOf(a) * Pow10(|b|) + ValueOf(b)
    decreases |b|
  {
    if b == [] {
      assert a + b == a;
    } else {
      var init := b[..|b| - 1];
      ValueConcat(a, init);
      Pow10Step(|b|);
      assert (a + b)[..|a + b| - 1] == a + init;
      Shifted(ValueOf(a), Pow10(|init|), ValueOf(init), DigitOf(b[|b| - 1]));
      hide Pow10;
    }
  }

  lemma Shifted(a: nat, p: nat, v: nat, d: nat)
    ensures 10 * (a * p + v) + d == a * (10 * p) + (10 * v + d)
  {
  }

  lemma DivIs(x: nat, d: nat, q: nat)
    requires d > 0 && q * d <= x < q * d + d
    ensures x / d == q
  {
    var r := x / d;
    assert x == r * d + x % d;
    if r > q {
      NextMultiple(r, q, d);
    } else if r < q {
      NextMultiple(q, r, d);
    }
  }

  // A fraction of up to 18 places is padded, a longer one cut; either way the
  // 18 digits are the fraction in raw units.
  lemma ShortFraction(f: string)
    requires AllDigits(f) && |f| <= SCALE_DIGITS
    ensures AllDigits(f + Zeros(SCALE_DIGITS - |f|))
    ensures ValueOf(f + Zeros(SCALE_DIGITS - |f|)) == CutTo18(f)
  {
    var n := SCALE_DIGITS - |f|;
    ValueConcat(f, Zeros(n));
    ZeroValue(n);
    PowAdds(n, |f|);
    ScaleIsPower();
    hide ValueOf, Pow10;
    ExactDivision(ValueOf(f), Pow10(n), Pow10(|f|));
  }

  lemma ExactDivision(v: nat, p: nat, d: nat)
    requires d > 0 && p * d == SCALE
    ensures v * SCALE / d == v * p
  {
    assert v * SCALE == (v * p) * d;
    DivIs(v * SCALE, d, v * p);
  }

  lemma LongFraction(f: string)
    requires AllDigits(f) && |f| > SCALE_DIGITS
    ensures ValueOf(f[..SCALE_DIGITS]) == CutTo18(f)
  {
    var a, b := f[..SCALE_DIGITS], f[SCALE_DIGITS..];
    assert f == a + b;
    ValueConcat(a, b);
    ValueBound(b);
    PowAdds(SCALE_DIGITS, |b|);
    ScaleIsPower();
    LongDivision(ValueOf(a), ValueOf(b), Pow10(|b|));
  }

  lemma LongDivision(a: nat, b: nat, p: nat)
    requires b < p
    ensures SCALE * p > 0 && (a * p + b) * SCALE / (SCALE * p) == a
  {
    var d, x := SCALE * p, (a * p + b) * SCALE;
    assert x == a * d + b * SCALE;
    assert (b + 1) * SCALE <= p * SCALE;
    DivIs(x, d, a);
  }

  lemma FractionIsCut(f: string)
    requires AllDigits(f)
    ensures AllDigits(Fraction(f)) && ValueOf(Fraction(f)) == CutTo18(f) < SCALE
  {
    if |f| <= SCALE_DIGITS { ShortFraction(f); } else { LongFraction(f); }
    ValueBound(Fraction(f));
    ScaleIsPower();
  }

  // ── Numerals ──────────────────────────────────────────────────────────

  lemma DigitsParse(s: string)
    requires AllDigits(s)
    ensures (if s == [] then Some(0) else ParseI128(s))
         == if Fits(ValueOf(s)) then Some(ValueOf(s)) else None
  {
    if s != [] { ParseDigits(s); }
  }

  lemma NumeralParses(s: string)
    requires IsNumeral(s)
    ensures Unsigned(s) == if !Fits(ValueOf(IntegerPart(s))) then Err(BadInteger)
                           else if Fits(Written(s)) then Ok(Written(s)) else Err(OutOfRange)
  {
    hide ParseI128, ValueOf, Fraction, CutTo18, IndexOf, Pow10;
    var integer, f := IntegerPart(s), FractionPart(s);
    DigitsParse(integer);
    FractionIsCut(f);
    if f == [] {
      EmptyCut();
    } else {
      assert Fraction(f) != [] by { Padded(f); }
      DigitsParse(Fraction(f));
    }
  }

  lemma EmptyCut()
    ensures CutTo18([]) == 0
  {
  }

  lemma Padded(f: string)
    ensures |Fraction(f)| == SCALE_DIGITS
  {
  }

  // Every text that is a numeral behind at most one sign and blanks around:
  // the parser returns what is written, cut to 18 places, and reports a number
  // out of range exactly when it does not fit; an integer part too long for a
  // machine word has an error of its own.
  lemma NumeralIsRead(text: string)
    requires var t := TrimBlanks(text); Signed(t).Ok? && Signed(t).value.1 != [] && IsNumeral(Signed(t).value.1)
    ensures var (negative, s) := Signed(TrimBlanks(text)).value;
      && Parsed(text) == (if !Fits(ValueOf(IntegerPart(s))) then Err(BadInteger)
                          else if Fits(Written(s)) then Ok(WithSign(negative, Written(s))) else Err(OutOfRange))
      && (Parsed(text).Ok? <==> Fits(Written(s)))
  {
    hide TrimBlanks, Unsigned;
    var (negative, s) := Signed(TrimBlanks(text)).value;
    NumeralParses(s);
    LessScaled(ValueOf(IntegerPart(s)));
  }

  // ── Every accepted text ───────────────────────────────────────────────

  predicate SignFirst(f: string) {
    f != [] && IsSign(f[0])
  }

  // The places the parser looks at, without a sign before them.
  function PlacesOf(f: string): string {
    var places := if |f| > SCALE_DIGITS then f[..SCALE_DIGITS] else f;
    if SignFirst(f) then places[1..] else places
  }

  // The integer part and the places, any sign between them passed over.
  function Reading(s: string): nat
    requires AllDigits(IntegerPart(s)) && AllDigits(PlacesOf(FractionPart(s)))
  {
    ValueOf(IntegerPart(s)) * SCALE + CutTo18(PlacesOf(FractionPart(s)))
  }

  lemma PlacesPad(f: string)
    ensures Fraction(f) == (if SignFirst(f) then [f[0]] else []) + PlacesOf(f)
                           + Zeros(SCALE_DIGITS - |PlacesOf(f)| - (if SignFirst(f) then 1 else 0))
  {
  }

  lemma {:induction false} PrefixDigits(a: string, b: string)
    requires AllDigits(a + b)
    ensures AllDigits(a) && AllDigits(b)
  {
    assert forall i :: 0 <= i < |a| ==> (a + b)[i] == a[i];
    assert forall i :: 0 <= i < |b| ==> (a + b)[|a| + i] == b[i];
  }

  // What the integer parser makes of the padded fraction.
  lemma FractionValue(f: string)
    requires f != [] && ParseI128(Fraction(f)).Some?
    ensures AllDigits(PlacesOf(f))
    ensures var cut := CutTo18(PlacesOf(f));
      ParseI128(Fraction(f)).value ==
      if !SignFirst(f) then cut else if f[0] == '+' then cut / 10 else -(cut / 10)
  {
    var places := PlacesOf(f);
    PlacesPad(f);
    Padded(f);
    var padded := Fraction(f);
    if SignFirst(f) {
      var zeros := Zeros(SCALE_DIGITS - 1 - |places|);
      assert padded[1..] == places + zeros;
      PrefixDigits(places, zeros);
      hide ParseI128, ValueOf, CutTo18, PlacesOf, Fraction;
      TenthRead(places);
      SignedParse(padded);
    } else {
      var zeros := Zeros(SCALE_DIGITS - |places|);
      assert padded == places + zeros;
      assert !IsSign(padded[0]);
      UnsignedParse(padded);
      PrefixDigits(places, zeros);
      ShortFraction(places);
    }
  }

  lemma SignedParse(s: string)
    requires s != [] && IsSign(s[0]) && ParseI128(s).Some?
    ensures AllDigits(s[1..]) && ParseI128(s).value == WithSign(s[0] == '-', ValueOf(s[1..]))
  {
  }

  lemma UnsignedParse(s: string)
    requires s != [] && !IsSign(s[0]) && ParseI128(s).Some?
    ensures AllDigits(s) && ParseI128(s).value == ValueOf(s)
  {
  }

  // The sign takes the first place: the digits count for a tenth.
  lemma TenthRead(places: string)
    requires AllDigits(places) && |places| < SCALE_DIGITS
    ensures ValueOf(places + Zeros(SCALE_DIGITS - 1 - |places|)) == CutTo18(places) / 10
    ensures CutTo18(places) % 10 == 0
  {
    hide CutTo18, ValueOf, AllDigits;
    var n := SCALE_DIGITS - 1 - |places|;
    ShortFraction(places);
    OneMoreZero(places, n);
    TenTimes(ValueOf(places + Zeros(n)));
  }

  lemma OneMoreZero(places: string, n: nat)
    requires AllDigits(places)
    ensures AllDigits(places + Zeros(n)) && AllDigits(places + Zeros(n + 1))
    ensures ValueOf(places + Zeros(n + 1)) == 10 * ValueOf(places + Zeros(n))
  {
    var long := places + Zeros(n + 1);
    assert long[..|long| - 1] == places + Zeros(n) && long[|long| - 1] == '0';
  }

  lemma TenTimes(x: nat)
    ensures 10 * x / 10 == x && 10 * x % 10 == 0
  {
  }

  // Of every text the parser accepts: the integer part is all digits, and so
  // are the places behind it. It returns the number they write, if and only if
  // the fraction does not begin with a sign or its digits are all zero; behind
  // a sign they count for a tenth, added or taken away.
  lemma ReadAsWrittenIff(text: string)
    requires Parsed(text).Ok?
    ensures var (negative, s) := Signed(TrimBlanks(text)).value;
      var f := FractionPart(s);
      && AllDigits(IntegerPart(s)) && AllDigits(PlacesOf(f))
      && (Parsed(text).value == WithSign(negative, Reading(s)) <==> !SignFirst(f) || CutTo18(PlacesOf(f)) == 0)
      && (SignFirst(f) ==>
            var tenth := CutTo18(PlacesOf(f)) / 10;
            Parsed(text).value
            == WithSign(negative, ValueOf(IntegerPart(s)) * SCALE + WithSign(f[0] == '-', tenth)))
  {
    hide TrimBlanks, ParseI128, IndexOf, Fraction, ValueOf, CutTo18, PlacesOf;
    var (negative, s) := Signed(TrimBlanks(text)).value;
    var integer, f := IntegerPart(s), FractionPart(s);
    IntegerRead(s);
    if f == [] {
      NoPlaces();
    } else {
      FractionValue(f);
    }
  }

  lemma NoPlaces()
    ensures PlacesOf([]) == [] && CutTo18([]) == 0
  {
  }

  lemma IntegerRead(s: string)
    requires s != [] && !IsSign(s[0]) && Unsigned(s).Ok?
    ensures var integer := IntegerPart(s);
      AllDigits(integer) && (if integer == [] then Some(0) else ParseI128(integer)) == Some(ValueOf(integer))
  {
    hide Fraction;
    var integer := IntegerPart(s);
    if integer != [] { UnsignedParse(integer); }
  }

  // What the fraction adds to the integer part, a sign before it included.
  function FractionReading(f: string): int
    requires AllDigits(PlacesOf(f))
  {
    var cut: int := CutTo18(PlacesOf(f));
    if SignFirst(f) then WithSign(f[0] == '-', cut / 10) else cut
  }

  lemma PlacesParse(f: string)
    requires f != [] && AllDigits(PlacesOf(f))
    ensures ParseI128(Fraction(f)).Some?
  {
    var places := PlacesOf(f);
    PlacesPad(f);
    Padded(f);
    var padded := Fraction(f);
    var digits := if SignFirst(f) then padded[1..] else padded;
    assert digits == places + Zeros(|digits| - |places|);
    assert AllDigits(digits);
    assert !SignFirst(f) ==> !IsSign(padded[0]);
    ValueBound(digits);
    PowersGrow(|digits|);
    hide ValueOf, Pow10, PlacesOf, Fraction;
  }

  lemma PowersGrow(n: nat)
    requires n == SCALE_DIGITS || n == SCALE_DIGITS - 1
    ensures Pow10(n) <= SCALE
  {
    ScaleIsPower();
    Pow10Step(SCALE_DIGITS);
  }

  // Exactly which texts are accepted: behind the outer sign there is something,
  // the integer part and the places are digits, perhaps none, and the number
  // fits. Whatever stands after the eighteenth place is never looked at.
  lemma AcceptedIff(text: string)
    ensures Parsed(text).Ok? <==>
      && Signed(TrimBlanks(text)).Ok?
      && var s := Signed(TrimBlanks(text)).value.1;
         var integer, f := IntegerPart(s), FractionPart(s);
      && s != [] && AllDigits(integer) && AllDigits(PlacesOf(f))
      && Fits(ValueOf(integer) * SCALE) && Fits(ValueOf(integer) * SCALE + FractionReading(f))
  {
    hide TrimBlanks, ParseI128, IndexOf, Fraction, ValueOf, CutTo18, PlacesOf;
    if Signed(TrimBlanks(text)).Ok? && Signed(TrimBlanks(text)).value.1 != [] {
      var s := Signed(TrimBlanks(text)).value.1;
      var integer, f := IntegerPart(s), FractionPart(s);
      NoPlaces();
      if Unsigned(s).Ok? {
        IntegerRead(s);
        if f != [] { FractionValue(f); }
      } else if AllDigits(integer) && AllDigits(PlacesOf(f)) {
        DigitsParse(integer);
        LessScaled(ValueOf(integer));
        if f != [] {
          PlacesParse(f);
          FractionValue(f);
        }
      }
    }
  }

  lemma LessScaled(v: nat)
    ensures Fits(v * SCALE) ==> Fits(v)
  {
    assert v <= v * SCALE;
  }

  // ── Places that are not read ──────────────────────────────────────────

  lemma {:induction false} DotAfter(a: string, b: string)
    requires IndexOf(a, '.') == |a| && b != [] && b[0] == '.'
    ensures IndexOf(a + b, '.') == |a|
    decreases |a|
  {
    if a == [] {
      assert a + b == b;
    } else {
      assert (a + b)[1..] == a[1..] + b;
      DotAfter(a[1..], b);
    }
  }

  // Behind eighteen characters of fraction anything may stand, digits or not:
  // the text parses as if it ended there.
  lemma TailIsIgnored(integer: string, f: string, tail: string)
    requires IndexOf(integer, '.') == |integer| && |f| == SCALE_DIGITS
    ensures Unsigned(integer + "." + f + tail) == Unsigned(integer + "." + f)
  {
    hide *;
    Parts(integer, f);
    Parts(integer, f + tail);
    assert integer + "." + f + tail == integer + "." + (f + tail);
    CutSame(f, tail);
    SameParts(integer + "." + f, integer + "." + (f + tail));
  }

  // Only the integer part and the padded or cut fraction matter.
  lemma SameParts(s: string, s': string)
    requires IntegerPart(s) == IntegerPart(s')
    requires FractionPart(s) != [] && FractionPart(s') != [] && Fraction(FractionPart(s)) == Fraction(FractionPart(s'))
    ensures Unsigned(s) == Unsigned(s')
  {
    hide ParseI128, IndexOf, Fraction;
  }

  // The text around its first dot.
  lemma Parts(integer: string, f: string)
    requires IndexOf(integer, '.') == |integer|
    ensures var s := integer + "." + f;
      && IndexOf(s, '.') == |integer| < |s| && s[..|integer|] == integer && s[|integer| + 1..] == f
      && IntegerPart(s) == integer && FractionPart(s) == f
  {
    hide IndexOf;
    assert integer + "." + f == integer + ("." + f);
    DotAfter(integer, "." + f);
  }

  lemma CutSame(f: string, tail: string)
    requires |f| == SCALE_DIGITS
    ensures Fraction(f + tail) == Fraction(f) && f + tail != [] && f != []
  {
    assert f + Zeros(0) == f && (f + tail)[..SCALE_DIGITS] == f;
    if tail == [] { assert f + tail == f; }
  }

  // ── Inputs that show it ───────────────────────────────────────────────

  lemma SignInFraction()
    ensures Parsed("1.+5") == Ok(1_050_000_000_000_000_000)
    ensures Parsed("1.-5") == Ok(950_000_000_000_000_000)
    ensures Parsed(".") == Ok(0)
  {
    hide Parsed, ParseI128, Fraction;
    assert "1." + "+5" == "1.+5" && "1." + "-5" == "1.-5";
    FivePlus("+5", '+');
    FivePlus("-5", '-');
    LoneDot();
  }

  lemma FivePlus(f: string, sign: char)
    requires f == [sign, '5'] && IsSign(sign)
    ensures Parsed("1." + f) == Ok(SCALE + WithSign(sign == '-', 50_000_000_000_000_000))
  {
    hide Parsed, ParseI128, Fraction;
    FiveHundredths(sign);
    assert f == if sign == '+' then "+5" else "-5";
    OneAnd(f);
  }

  lemma LoneDot()
    ensures Parsed(".") == Ok(0)
  {
    NothingToTrim(".");
    assert IndexOf(".", '.') == 0 && "."[..0] == "" && "."[1..] == "";
  }

  lemma FiveHundredths(sign: char)
    requires IsSign(sign)
    ensures ParseI128(Fraction([sign, '5'])) == Some(WithSign(sign == '-', 50_000_000_000_000_000))
  {
    var f: string := [sign, '5'];
    var places: string := ['5'];
    assert Fraction(f)[1..] == places + Zeros(16);
    FiveTenths(places);
    TenthRead(places);
    hide CutTo18, ValueOf;
    assert AllDigits(Fraction(f)[1..]);
  }

  lemma FiveTenths(places: string)
    requires places == ['5']
    ensures CutTo18(places) == 500_000_000_000_000_000
  {
    assert places[..0] == "" && ValueOf(places) == 5;
    assert Pow10(1) == 10 * Pow10(0);
  }

  lemma OneAnd(f: string)
    requires f == "+5" || f == "-5"
    ensures Parsed("1." + f)
         == if ParseI128(Fraction(f)).None? then Err(BadInteger)
            else var raw := SCALE + ParseI128(Fraction(f)).value; if Fits(raw) then Ok(raw) else Err(OutOfRange)
  {
    var s := "1." + f;
    NothingToTrim(s);
    assert s[1..][0] == '.' && IndexOf(s[1..], '.') == 0 && IndexOf(s, '.') == 1;
    assert s[..1] == "1" && s[2..] == f;
    assert "1"[..0] == "" && ValueOf("1") == 1;
    assert ParseI128("1") == Some(1);
    hide Fraction, ParseI128;
  }

  // A one with eighteen zeros behind its dot and then letters: accepted as one.
  lemma LettersAfterPlaces()
    ensures Parsed("1." + Zeros(SCALE_DIGITS) + "abc") == Ok(SCALE)
  {
    var zeros := Zeros(SCALE_DIGITS);
    var plain, text := "1." + zeros, "1." + zeros + "abc";
    assert IndexOf("1", '.') == 1 by { assert "1"[1..] == ""; }
    TailIsIgnored("1", zeros, "abc");
    assert "1" + "." + zeros == plain && "1" + "." + zeros + "abc" == text;
    NothingToTrim(text);
    OneAndZeros(plain);
    hide Unsigned, TrimBlanks;
  }

  lemma OneAndZeros(plain: string)
    requires plain == "1." + Zeros(SCALE_DIGITS)
    ensures Unsigned(plain) == Ok(SCALE)
  {
    var zeros := Zeros(SCALE_DIGITS);
    assert plain == "1" + "." + zeros && "1"[1..] == "";
    Parts("1", zeros);
    assert "1"[..0] == "" && ValueOf("1") == 1 && ParseI128("1") == Some(1);
    ParseDigits(zeros);
    ZeroValue(SCALE_DIGITS);
    hide ParseI128, IndexOf, ValueOf;
    assert zeros + Zeros(0) == zeros;
    assert Fraction(zeros) == zeros;
  }
}
