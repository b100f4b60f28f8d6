/** Products and quotients of unknowns, one step at a time. */
module Arithmetic {
  lemma MulMonotone(a: int, b: int, s: int)
    requires a <= b && 0 <= s
    ensures a * s <= b * s
  {
  }

  lemma MulDistributes(a: int, b: int, s: int)
    ensures (a + b) * s == a * s + b * s
    ensures (a - b) * s == a * s - b * s
  {
  }

  lemma DivideExact(a: int, s: int)
    requires 0 < s
    ensures a / s * s <= a < a / s * s + s
  {
  }

  lemma DivideMultiple(k: int, r: int, s: int)
    requires 0 <= r < s
    ensures (k * s + r) / s == k
  {
    var q := (k * s + r) / s;
    DivideExact(k * s + r, s);
    if q < k {
      MulMonotone(q + 1, k, s);
      MulDistributes(q, 1, s);
    } else if q > k {
      MulMonotone(k + 1, q, s);
      MulDistributes(k, 1, s);
    }
  }
}
