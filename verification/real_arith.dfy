/** Order facts about products and quotients of reals, stated once for the
    zoom proofs that need these nonlinear steps. */
module RealArith {

  /** Multiplying by a positive factor keeps a strict order. */
  lemma MulStrict(a: real, lo: real, hi: real)
    requires a > 0.0 && lo < hi
    ensures a * lo < a * hi
  {
  }

  /** Multiplying by a non-negative factor keeps an order. */
  lemma MulMonotone(a: real, lo: real, hi: real)
    requires a >= 0.0 && lo <= hi
    ensures a * lo <= a * hi
  {
  }

  /** A product of non-negative factors grows with each factor. */
  lemma ProductMonotone(a: real, b: real, a': real, b': real)
    requires 0.0 <= a <= a' && 0.0 <= b <= b'
    ensures a * b <= a' * b'
  {
    MulMonotone(b, a, a');
    MulMonotone(a', b, b');
    assert b * a == a * b && b * a' == a' * b;
  }

  /** A positive factor can be cancelled from both sides of a strict order. */
  lemma MulStrictIff(a: real, x: real, y: real)
    requires a > 0.0
    ensures a * x < a * y <==> x < y
  {
    if x < y {
      MulStrict(a, x, y);
    } else {
      MulMonotone(a, y, x);
    }
  }

  /** `w / z` shrinks as `z` grows, for a non-negative `w`. */
  lemma DivAntitone(w: real, z1: real, z2: real)
    requires w >= 0.0 && 0.0 < z1 <= z2
    ensures w / z2 <= w / z1
  {
    var q1 := w / z1;
    var q2 := w / z2;
    assert q1 * z1 == w && q2 * z2 == w;
    if q2 > q1 {
      MulMonotone(q2, z1, z2);
      MulStrict(z1, q1, q2);
      assert false;
    }
  }
}
