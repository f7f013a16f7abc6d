/**
 * The size estimate of the Symphony overlay and the test that decides when a member
 * must rebuild its long links. The member code stores the estimate in a C++ `int`, so the
 * real quotient is truncated toward zero, and it compares estimates with `int` division,
 * which also truncates toward zero; both are written out here.
 */
module Estimation {
  import opened Wrappers

  /** The C/C++ conversion of a floating-point value to `int`: truncation toward zero. */
  function TruncateToInt(r: real): (n: int)
    ensures r >= 0.0 ==> 0 <= n && n as real <= r < n as real + 1.0
    ensures r < 0.0 ==> n <= 0 && n as real - 1.0 < r <= n as real
  {
    if r >= 0.0 then r.Floor else -((-r).Floor)
  }

  function Abs(a: int): nat {
    if a < 0 then -a else a
  }

  /**
   * The C/C++ quotient of two `int`s: the real quotient truncated toward zero, so the
   * remainder a - q * b is smaller than b in size and never has the opposite sign of a.
   */
  function IntDiv(a: int, b: int): (q: int)
    requires b != 0
    ensures Abs(a - q * b) < Abs(b)
    ensures a - q * b == 0 || ((a - q * b) < 0 <==> a < 0)
  {
    var m := Abs(a) / Abs(b);
    var q := if (a < 0) == (b < 0) then m else -m;
    DivParts(a, b, m, q);
    q
  }

  lemma DivParts(a: int, b: int, m: int, q: int)
    requires b != 0 && m == Abs(a) / Abs(b)
    requires q == if (a < 0) == (b < 0) then m else -m
    ensures Abs(a - q * b) < Abs(b)
    ensures a - q * b == 0 || ((a - q * b) < 0 <==> a < 0)
  {
    var r := Abs(a) - m * Abs(b);
    assert 0 <= r < Abs(b);
    if a >= 0 && b > 0 {
      assert a - q * b == r;
    } else if a >= 0 && b < 0 {
      assert q * b == m * Abs(b);
      assert a - q * b == r;
    } else if a < 0 && b < 0 {
      assert q * b == -(m * Abs(b));
      assert a - q * b == -r;
    } else {
      assert q * b == -(m * Abs(b));
      assert a - q * b == -r;
    }
  }

  /**
   * The estimate of the number of members: three segment lengths (the member's own and its
   * two short-link neighbours') approximate three ring units out of the whole ring. The
   * quotient 3 / (neighbours' total + own) is stored in an `int`, so it is truncated.
   * The source does not guard the denominator; a zero denominator is excluded here.
   */
  function SizeEstimate(neighboursTotal: real, own: real): (n: int)
    requires neighboursTotal + own != 0.0
    ensures var d := neighboursTotal + own;
      d > 0.0 ==> 0 <= n && n as real * d <= 3.0 < (n as real + 1.0) * d
    ensures neighboursTotal + own < 0.0 ==> n <= 0
    ensures 0.0 < neighboursTotal + own <= 3.0 ==> n >= 1
  {
    var d := neighboursTotal + own;
    var n := TruncateToInt(3.0 / d);
    EstimateBounds(d, n);
    n
  }

  lemma EstimateBounds(d: real, n: int)
    requires d != 0.0 && n == TruncateToInt(3.0 / d)
    ensures d > 0.0 ==> 0 <= n && n as real * d <= 3.0 < (n as real + 1.0) * d
    ensures d < 0.0 ==> n <= 0
    ensures 0.0 < d <= 3.0 ==> n >= 1
  {
    var q := 3.0 / d;
    if d > 0.0 {
      assert q * d == 3.0;
      MulMonotone(n as real, q, d);
      MulStrict(q, n as real + 1.0, d);
      if d <= 3.0 {
        if q < 1.0 {
          MulStrict(q, 1.0, d);
          assert false;
        }
      }
    }
  }

  lemma MulMonotone(a: real, b: real, d: real)
    requires a <= b && d > 0.0
    ensures a * d <= b * d
  {
  }

  lemma MulStrict(a: real, b: real, d: real)
    requires a < b && d > 0.0
    ensures a * d < b * d
  {
    assert b * d - a * d == (b - a) * d;
  }

  /** Segments of 0.2 and 0.3 reported by the neighbours and an own segment of 0.1 give 5. */
  lemma EstimateScenario()
    ensures SizeEstimate(0.2 + 0.3, 0.1) == 5
  {
    assert 3.0 / 0.6 == 5.0;
  }

  /**
   * getEstimateRatio: the `int` quotient of the current estimate by the one at the last
   * relink, returned as a double. It is the real quotient truncated toward zero, so for
   * non-negative estimates it is the whole number of times the estimate at linking fits.
   */
  function EstimateRatio(nEstimate: int, nEstimateAtLinking: int): (ratio: real)
    requires nEstimateAtLinking != 0
    ensures ratio == TruncateToInt(nEstimate as real / nEstimateAtLinking as real) as real
    ensures nEstimate >= 0 && nEstimateAtLinking > 0 ==>
      ratio >= 0.0 && ratio * nEstimateAtLinking as real <= nEstimate as real < (ratio + 1.0) * nEstimateAtLinking as real
  {
    IntDivTruncates(nEstimate, nEstimateAtLinking);
    IntDivBounds(nEstimate, nEstimateAtLinking);
    IntDiv(nEstimate, nEstimateAtLinking) as real
  }

  /** C's `int` division agrees with truncating the real quotient. */
  lemma IntDivTruncates(a: int, b: int)
    requires b != 0
    ensures IntDiv(a, b) == TruncateToInt(a as real / b as real)
  {
    var A := Abs(a);
    var B := Abs(b);
    var m: int := A / B;
    var u := A as real / B as real;
    QuotientFloor(A, B);
    var x := a as real / b as real;
    SignedQuotient(a as real, b as real, A as real, B as real);
    if (a < 0) == (b < 0) {
      assert x == u && IntDiv(a, b) == m;
    } else {
      assert x == -u && IntDiv(a, b) == -m;
      if u == 0.0 {
        assert m == 0 && x == 0.0;
      } else {
        assert TruncateToInt(x) == -(u.Floor);
      }
    }
  }

  /** For a non-negative dividend and a positive divisor the quotient fits between a / b - 1 and a / b. */
  lemma IntDivBounds(a: int, b: int)
    requires b != 0
    ensures a >= 0 && b > 0 ==>
      var q := IntDiv(a, b) as real;
      q >= 0.0 && q * b as real <= a as real < (q + 1.0) * b as real
  {
    if a >= 0 && b > 0 {
      assert Abs(a) == a && Abs(b) == b;
      var m := a / b;
      assert IntDiv(a, b) == m;
      EuclidBounds(a, b);
      CastBounds(a, b, m);
    }
  }

  /** Integer bounds m * b <= a < (m + 1) * b carry over to the reals. */
  lemma CastBounds(a: int, b: int, m: int)
    requires m * b <= a < (m + 1) * b
    ensures m as real * b as real <= a as real < (m as real + 1.0) * b as real
  {
    CastMul(m, b);
    CastMul(m + 1, b);
  }

  /** The quotient of two reals through the quotient of their sizes. */
  lemma SignedQuotient(a: real, b: real, A: real, B: real)
    requires b != 0.0
    requires A == (if a < 0.0 then -a else a) && B == (if b < 0.0 then -b else b)
    ensures (a < 0.0) == (b < 0.0) ==> a / b == A / B
    ensures (a < 0.0) != (b < 0.0) ==> a / b == -(A / B)
  {
    NegNumerator(a, b);
    NegDenominator(a, b);
    NegDenominator(-a, b);
  }

  lemma NegNumerator(a: real, b: real)
    requires b != 0.0
    ensures (-a) / b == -(a / b)
  {
    assert (-a) / b * b == -a;
    assert -(a / b) * b == -a;
  }

  lemma NegDenominator(a: real, b: real)
    requires b != 0.0
    ensures a / (-b) == -(a / b)
  {
    assert a / (-b) * (-b) == a;
    assert -(a / b) * (-b) == a;
  }

  /** A whole number m with m <= x < m + 1 is the floor of x. */
  lemma FloorIs(x: real, m: int)
    requires m as real <= x < m as real + 1.0
    ensures x.Floor == m
  {
    var f := x.Floor;
    assert f as real <= x < f as real + 1.0;
    assert f < m + 1 && m < f + 1;
  }

  lemma CastMul(m: int, b: int)
    ensures (m * b) as real == m as real * b as real
  {
  }

  /**
   * The real quotient of two naturals lies between their Euclidean quotient and the next
   * whole number, so its floor is that quotient.
   */
  lemma QuotientFloor(A: nat, B: nat)
    requires B > 0
    ensures (A as real / B as real).Floor == A / B
    ensures A as real / B as real >= (A / B) as real
    ensures A as real / B as real < (A / B) as real + 1.0
  {
    var m := A / B;
    EuclidBounds(A, B);
    CastMul(m, B);
    CastMul(m + 1, B);
    BelowQuotient(A as real, B as real, m as real);
    AboveQuotient(A as real, B as real, m as real + 1.0);
    FloorIs(A as real / B as real, m);
  }

  lemma EuclidBounds(A: nat, B: nat)
    requires B > 0
    ensures (A / B) * B <= A < (A / B + 1) * B
  {
    var m := A / B;
    assert A == m * B + A % B;
    assert (m + 1) * B == m * B + B;
  }

  lemma BelowQuotient(a: real, b: real, c: real)
    requires b > 0.0 && c * b <= a
    ensures c <= a / b
  {
    assert a / b * b == a;
    if a / b < c {
      MulStrict(a / b, c, b);
    }
  }

  lemma AboveQuotient(a: real, b: real, c: real)
    requires b > 0.0 && a < c * b
    ensures a / b < c
  {
    assert a / b * b == a;
    if a / b >= c {
      MulMonotone(c, a / b, b);
    }
  }

  /** needToRelink: the estimate has drifted below half or above twice its value at linking. */
  predicate NeedToRelink(nEstimate: int, nEstimateAtLinking: int)
    requires nEstimateAtLinking != 0
  {
    var ratio := EstimateRatio(nEstimate, nEstimateAtLinking);
    ratio < 0.5 || ratio > 2.0
  }

  /**
   * Because the ratio is an integer quotient, for non-negative estimates and a positive
   * estimate at linking a relink is due exactly when the estimate has dropped below its
   * value at linking at all, or has reached three times it.
   */
  lemma NeedToRelinkIff(nEstimate: int, nEstimateAtLinking: int)
    requires nEstimate >= 0 && nEstimateAtLinking > 0
    ensures NeedToRelink(nEstimate, nEstimateAtLinking) <==>
            (nEstimate < nEstimateAtLinking || nEstimate >= 3 * nEstimateAtLinking)
  {
    var q := IntDiv(nEstimate, nEstimateAtLinking);
    QuotientBounds(nEstimate, nEstimateAtLinking, q);
  }

  /** For a non-negative dividend and a positive divisor, the quotient locates the dividend. */
  lemma QuotientBounds(a: int, b: int, q: int)
    requires a >= 0 && b > 0 && q == IntDiv(a, b)
    ensures q <= 0 <==> a < b
    ensures q >= 3 <==> a >= 3 * b
  {
    var r := a - q * b;
    assert 0 <= r < b;
    if q <= 0 {
      MulBelow(q, 0, b);
    } else {
      MulBelow(1, q, b);
    }
    if q >= 3 {
      MulBelow(3, q, b);
    } else {
      MulBelow(q, 2, b);
    }
  }

  lemma MulBelow(p: int, q: int, b: int)
    requires p <= q && b > 0
    ensures p * b <= q * b
  {
  }

  /**
   * The estimation protocol's accumulator: the partial total of the segment lengths the two
   * short-link neighbours have reported, and how many of them have arrived.
   */
  datatype Accumulator = Accumulator(total: real, received: int)

  const Reset := Accumulator(0.0, 0)

  /** Between events no more than one reply has been counted. */
  predicate Waiting(acc: Accumulator) {
    acc.received == 0 || acc.received == 1
  }

  /** Whether the reply now arriving is the second one and the estimate is computed. */
  predicate Fires(acc: Accumulator) {
    acc.received + 1 == 2
  }

  /**
   * One segment-length reply: it is added to the total and counted; on the second reply the
   * estimate 3 / (total + own segment) is computed and the accumulator starts over.
   */
  function SegmentReply(acc: Accumulator, own: real, reply: real): (r: (Accumulator, Option<int>))
    requires Fires(acc) ==> acc.total + reply + own != 0.0
    ensures Waiting(acc) ==> Waiting(r.0)
    ensures r.1.Some? <==> Fires(acc)
    ensures Fires(acc) ==> r.0 == Reset && r.1 == Some(SizeEstimate(acc.total + reply, own))
    ensures !Fires(acc) ==> r.0.total == acc.total + reply && r.0.received == acc.received + 1
  {
    var total := acc.total + reply;
    var received := acc.received + 1;
    if received == 2 then (Reset, Some(SizeEstimate(total, own)))
    else (Accumulator(total, received), None)
  }

  /**
   * Starting from a reset accumulator, the first reply only records its value and the
   * second produces the estimate from both replies and the member's own segment and resets.
   */
  lemma TwoRepliesFire(own: real, first: real, second: real)
    requires first + second + own != 0.0
    ensures SegmentReply(Reset, own, first) == (Accumulator(first, 1), None)
    ensures SegmentReply(SegmentReply(Reset, own, first).0, own, second) ==
            (Reset, Some(SizeEstimate(first + second, own)))
  {
    assert 0.0 + first == first;
  }
}
