// How far truncated products and quotients are from the exact ones.
module Rounding {
  import opened Common

  // Two numbers less than `slack` apart.
  predicate Near(a: int, b: int, slack: int) {
    Abs(a - b) < slack
  }

  lemma TruncError(a: int, b: int)
    requires b != 0
    ensures Near(TruncDiv(a, b) * b, a, Abs(b))
  {
    DivMod(Abs(a), Abs(b));
    var q := Abs(a) / Abs(b);
    assert q * -b == -(q * b) && -q * b == -(q * b);
  }

  lemma DivMod(a: nat, b: int)
    requires b > 0
    ensures 0 <= a - (a / b) * b < b
  {
  }

  lemma MulError(a: int, b: int)
    ensures Near(Mul(a, b) * SCALE, a * b, SCALE)
  {
    TruncError(a * b, SCALE);
  }

  lemma DivError(a: int, b: int)
    requires b != 0
    ensures Near(Div(a, b) * b, a * SCALE, Abs(b))
  {
    TruncError(a * SCALE, b);
  }

  lemma NearAdds(a: int, b: int, s: int, c: int, d: int, t: int)
    requires Near(a, b, s) && Near(c, d, t)
    ensures Near(a + c, b + d, s + t)
  {
  }
}
