/** Truncation and the few facts about products that several modules need. */
module Arithmetic {

  /** Python's `int` of a number: truncation toward zero. */
  function Trunc(x: real): int {
    if x >= 0.0 then x.Floor else -((-x).Floor)
  }

  function Min(a: int, b: int): int {
    if b < a then b else a
  }

  lemma TruncCap(x: real, n: int)
    requires n > 0
    ensures n <= Trunc(x) <==> n as real <= x
  {
    if x < 0.0 {
      assert (-x).Floor >= 0;
    }
  }

  lemma MulLe(a: real, b: real, p: real)
    requires a <= b && p >= 0.0
    ensures a * p <= b * p
  {
  }

  lemma MulLt(a: real, b: real, p: real)
    requires a < b && p > 0.0
    ensures a * p < b * p
  {
  }

  lemma MulIntLe(a: int, b: int, p: int)
    requires p >= 0
    ensures a <= b ==> a * p <= b * p
  {
  }

  lemma TimesBack(x: real, p: real)
    requires p > 0.0
    ensures x / p * p == x
  {
  }

  lemma CancelLe(a: real, b: real, p: real)
    requires p > 0.0 && a * p <= b * p
    ensures a <= b
  {
  }

  lemma CancelLt(a: real, b: real, p: real)
    requires p > 0.0 && a * p < b * p
    ensures a < b
  {
  }

  lemma MultipleDivides(q: int, w: int)
    requires w > 0
    ensures q * w % w == 0
  {
    var m := q * w / w;
    assert (q - m) * w == q * w % w;
    MulIntLe(1, q - m, w);
    MulIntLe(q - m, -1, w);
  }

  /** A positive multiple of `w` less `w` is a multiple of `w` again. */
  lemma OneLess(n: int, w: int)
    requires n > 0 && w > 0 && n % w == 0
    ensures n >= w && (n - w) % w == 0
  {
    var q := n / w;
    assert n == q * w;
    MulIntLe(q, 0, w);
    MulIntLe(1, q, w);
    assert n - w == (q - 1) * w;
    MultipleDivides(q - 1, w);
  }

  /** What a multiple of `w` divides, `w` divides. */
  lemma DividesThrough(n: int, w: int, k: int)
    requires w > 0 && k > 0 && k * w > 0 && n % (k * w) == 0
    ensures n % w == 0
  {
    var q := n / (k * w);
    assert n == q * (k * w) == q * k * w;
    MultipleDivides(q * k, w);
  }
}
