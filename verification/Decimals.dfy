/** Decimal `quantize`: rounding half to even at a fixed number of places. */
module Decimals {
  import opened Sums

  function Abs(x: real): real {
    if x < 0.0 then -x else x
  }

  function RoundHalfEven(x: real): int {
    var f := x.Floor;
    var r := x - f as real;
    if r < 0.5 || (r == 0.5 && f % 2 == 0) then f else f + 1
  }

  /** Rounds x to a multiple of 1/scale; scale is 1e8 for eight decimal places. */
  function Quantize(x: real, scale: real): real
    requires scale > 0.0
  {
    RoundHalfEven(x * scale) as real / scale
  }

  lemma RoundError(x: real)
    ensures -0.5 <= RoundHalfEven(x) as real - x <= 0.5
  {
  }

  /** The nearest integer, and of two that are equally near the even one. */
  lemma NearestEven(x: real, r: int)
    ensures RoundHalfEven(x) == r <==> Abs(x - r as real) < 0.5 || (Abs(x - r as real) == 0.5 && r % 2 == 0)
  {
  }

  lemma QuotientTimes(a: real, b: real)
    requires b > 0.0
    ensures Times(a / b, b) == a
  {
  }

  lemma TimesIs(a: real, b: real)
    ensures Times(a, b) == a * b
  {
  }

  lemma Cancel(a: real, b: real, scale: real)
    requires scale > 0.0 && Times(a, scale) <= Times(b, scale)
    ensures a <= b
  {
    DivideMonotone(a * scale, b * scale, scale);
  }

  lemma QuantizeError(x: real, scale: real)
    requires scale > 0.0
    ensures Abs(Quantize(x, scale) - x) <= 0.5 / scale
  {
    hide Times;
    var q, e := Quantize(x, scale), 0.5 / scale;
    RoundError(x * scale);
    QuotientTimes(RoundHalfEven(x * scale) as real, scale);
    QuotientTimes(0.5, scale);
    TimesIs(x, scale);
    TimesDistributes(q, x, scale);
    TimesDistributes(0.0, e, scale);
    TimesZero(scale);
    Cancel(q - x, e, scale);
    Cancel(0.0 - e, q - x, scale);
  }

  lemma DivideMonotone(a: real, b: real, d: real)
    requires a <= b && d > 0.0
    ensures a / d <= b / d
  {
  }

  lemma RoundMonotone(x: real, y: real)
    requires x <= y
    ensures RoundHalfEven(x) <= RoundHalfEven(y)
  {
    assert x.Floor <= y.Floor;
  }

  lemma ScaleMonotone(x: real, y: real, scale: real)
    requires x <= y && scale > 0.0
    ensures x * scale <= y * scale
  {
  }

  lemma QuantizeMonotone(x: real, y: real, scale: real)
    requires scale > 0.0 && x <= y
    ensures Quantize(x, scale) <= Quantize(y, scale)
  {
    ScaleMonotone(x, y, scale);
    RoundMonotone(x * scale, y * scale);
    DivideMonotone(RoundHalfEven(x * scale) as real, RoundHalfEven(y * scale) as real, scale);
  }

  /** A rounded unit price times the quantity misses the total by at most half a unit per unit held. */
  lemma QuotientError(total: real, quantity: real, scale: real)
    requires quantity > 0.0 && scale > 0.0
    ensures Abs(Times(Quantize(total / quantity, scale), quantity) - total) <= Times(0.5 / scale, quantity)
  {
    hide Times;
    var q, u, e := Quantize(total / quantity, scale), total / quantity, 0.5 / scale;
    QuantizeError(u, scale);
    QuotientTimes(total, quantity);
    TimesDistributes(q, u, quantity);
    TimesMonotone(q - u, e, quantity);
    TimesMonotone(u - q, e, quantity);
    TimesDistributes(u, q, quantity);
  }

  lemma TimesMonotone(x: real, y: real, p: real)
    requires x <= y && p >= 0.0
    ensures Times(x, p) <= Times(y, p)
  {
  }
}
