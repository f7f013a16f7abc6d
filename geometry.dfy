/**
 * Ring geometry of the Symphony overlay: every member sits at a position in the unit
 * interval [0,1), read as a ring, and manages the half-open arc that ends at its own
 * position and starts at its predecessor's position.
 * Positions are mathematical reals here; the source uses IEEE doubles.
 */
module Geometry {

  /** A ring position: a point of the unit interval [0,1). */
  predicate InUnit(r: real) {
    0.0 <= r < 1.0
  }

  /**
   * A point the router may be asked to find: the closed interval [0,1]. relink draws
   * exp(log(nEstimate) * (u - 1)) with u in [0,1), which is exactly 1 when the estimate is 1;
   * the member whose arc wraps around 0 manages that point.
   */
  predicate IsPoint(r: real) {
    0.0 <= r <= 1.0
  }

  /**
   * The forward (clockwise) distance on the ring from `from` to `to`: the difference
   * `to - from`, moved into [0,1) by adding 1 when it is negative. This is the distance
   * the greedy router minimises (distanceDeltaToPoint in the member code).
   */
  function CircularDistance(from: real, to: real): (d: real)
    ensures IsPoint(from) && InUnit(to) ==> InUnit(d)
    ensures d == to - from || d == to - from + 1.0
    ensures InUnit(from) && InUnit(to) ==> (d == 0.0 <==> from == to)
  {
    if to - from < 0.0 then to - from + 1.0 else to - from
  }

  /**
   * getSegmentLengthByPreviousNodesIntervalPosition / calculateSegmentLength: the length of
   * the arc a member at `x` manages when its predecessor sits at `prevX`.
   * For positions on the ring, the result is the one value in (0,1] that differs from
   * x - prevX by a whole number, and it is the whole ring exactly when the member is its
   * own predecessor.
   */
  function SegmentLength(prevX: real, x: real): (r: real)
    ensures r == x - prevX || r == x - prevX + 1.0
    ensures InUnit(prevX) && InUnit(x) ==> 0.0 < r <= 1.0
    ensures InUnit(prevX) && InUnit(x) ==> (r == 1.0 <==> prevX == x)
  {
    if prevX < x then x - prevX else x + 1.0 - prevX
  }

  /**
   * amIManagerForPoint / the amIXManager test: with delta = x - segmentLength (the
   * predecessor's position, possibly shifted below zero), the member at `x` manages `p`
   * when delta < p <= x in the non-wrapping case, and when p > 1 + delta or p <= x when
   * its arc wraps around 0.
   */
  predicate IsManager(x: real, segmentLength: real, p: real) {
    var delta := x - segmentLength;
    (delta >= 0.0 && p > delta && p <= x) || (delta < 0.0 && (p > 1.0 + delta || p <= x))
  }

  /**
   * The two-case manager test says one thing: `p` is managed by the member at `x` exactly
   * when `p` is less than one segment length behind `x` on the ring.
   */
  lemma ManagerIffWithinSegment(x: real, segmentLength: real, p: real)
    requires InUnit(x) && IsPoint(p) && 0.0 < segmentLength <= 1.0
    ensures IsManager(x, segmentLength, p) <==> CircularDistance(p, x) < segmentLength
  {
    var delta := x - segmentLength;
    if delta >= 0.0 {
      if p > x {
        assert CircularDistance(p, x) == x - p + 1.0;
      }
    } else {
      if p <= x {
        assert CircularDistance(p, x) == x - p;
      } else {
        assert CircularDistance(p, x) == x - p + 1.0;
      }
    }
  }

  /** A member always manages its own position. */
  lemma ManagesOwnPosition(x: real, segmentLength: real)
    requires InUnit(x) && 0.0 < segmentLength <= 1.0
    ensures IsManager(x, segmentLength, x)
  {
    ManagerIffWithinSegment(x, segmentLength, x);
  }

  /**
   * A member whose segment is shorter than the whole ring does not manage the position of
   * its predecessor, (x - segmentLength) mod 1, whether or not its arc wraps around 0.
   */
  lemma DoesNotManagePredecessor(x: real, segmentLength: real)
    requires InUnit(x) && 0.0 < segmentLength < 1.0
    ensures var pred := CircularDistance(segmentLength, x);
      InUnit(pred) && !IsManager(x, segmentLength, pred)
  {
    var pred := CircularDistance(segmentLength, x);
    if x - segmentLength < 0.0 {
      assert pred == x - segmentLength + 1.0;
    } else {
      assert pred == x - segmentLength;
    }
  }

  /** A segment computed from a predecessor's position comes back as that position. */
  lemma PredecessorFromSegment(prevX: real, x: real)
    requires InUnit(prevX) && InUnit(x) && prevX != x
    ensures CircularDistance(SegmentLength(prevX, x), x) == prevX
  {
  }

  // ---- Ring consisting of members at strictly increasing positions ----

  /** The index of the predecessor of index i in a ring of n >= 1 members. */
  function PredIndex(n: nat, i: nat): (p: nat)
    requires i < n
    ensures p < n
  {
    if i == 0 then n - 1 else i - 1
  }

  ghost predicate StrictlyIncreasing(xs: seq<real>) {
    forall i, j :: 0 <= i < j < |xs| ==> xs[i] < xs[j]
  }

  ghost predicate AllInUnit(xs: seq<real>) {
    forall i :: 0 <= i < |xs| ==> InUnit(xs[i])
  }

  /** The segment length member i computes from its ring predecessor. */
  function RingSegment(xs: seq<real>, i: nat): real
    requires i < |xs|
  {
    SegmentLength(xs[PredIndex(|xs|, i)], xs[i])
  }

  /** Whether member i of the ring manages point p. */
  predicate ManagesInRing(xs: seq<real>, i: nat, p: real)
    requires i < |xs|
  {
    IsManager(xs[i], RingSegment(xs, i), p)
  }

  /** For a member after the first one, the manager test is the plain interval test. */
  lemma InnerManager(xs: seq<real>, i: nat, p: real)
    requires StrictlyIncreasing(xs) && AllInUnit(xs) && 0 < i < |xs| && IsPoint(p)
    ensures ManagesInRing(xs, i, p) <==> xs[i - 1] < p <= xs[i]
  {
    assert xs[i - 1] < xs[i];
    assert RingSegment(xs, i) == xs[i] - xs[i - 1];
  }

  /** The first member manages the wrap-around arc: above the last position or up to its own. */
  lemma FirstManager(xs: seq<real>, p: real)
    requires StrictlyIncreasing(xs) && AllInUnit(xs) && 0 < |xs| && IsPoint(p)
    ensures ManagesInRing(xs, 0, p) <==> (p > xs[|xs| - 1] || p <= xs[0])
  {
    var n := |xs|;
    if n == 1 {
      assert RingSegment(xs, 0) == 1.0;
    } else {
      assert xs[0] < xs[n - 1];
      assert RingSegment(xs, 0) == xs[0] + 1.0 - xs[n - 1];
    }
  }

  /** Scans indices lo.. for the member whose interval holds p. */
  lemma {:induction false} FindInner(xs: seq<real>, p: real, lo: nat) returns (i: nat)
    requires StrictlyIncreasing(xs) && AllInUnit(xs) && IsPoint(p)
    requires 0 < lo < |xs| && xs[lo - 1] < p <= xs[|xs| - 1]
    ensures lo <= i < |xs| && ManagesInRing(xs, i, p)
    decreases |xs| - lo
  {
    if p <= xs[lo] {
      InnerManager(xs, lo, p);
      i := lo;
    } else {
      i := FindInner(xs, p, lo + 1);
    }
  }

  /**
   * Every point is managed by exactly one member: the segments of members at strictly
   * increasing positions, each computed from its ring predecessor, cover [0,1) without
   * overlap, and the point 1 falls to the first member, whose arc wraps around 0.
   */
  lemma ManagerExistsAndIsUnique(xs: seq<real>, p: real)
    requires StrictlyIncreasing(xs) && AllInUnit(xs) && 0 < |xs| && IsPoint(p)
    ensures exists i :: 0 <= i < |xs| && ManagesInRing(xs, i, p)
    ensures forall i, j :: 0 <= i < |xs| && 0 <= j < |xs| && ManagesInRing(xs, i, p) && ManagesInRing(xs, j, p) ==> i == j
  {
    var n := |xs|;
    FirstManager(xs, p);
    if p <= xs[0] || p > xs[n - 1] {
      assert ManagesInRing(xs, 0, p);
    } else {
      var i := FindInner(xs, p, 1);
    }
    forall i, j | 0 <= i < n && 0 <= j < n && ManagesInRing(xs, i, p) && ManagesInRing(xs, j, p)
      ensures i == j
    {
      if i != j {
        ManagersDistinct(xs, p, i, j);
      }
    }
  }

  /**
   * relink's point at an estimate of 1 is the point 1 itself: on a ring of increasing
   * positions only the first member, whose arc wraps around 0, manages it.
   */
  lemma PointOneManagedByFirst(xs: seq<real>)
    requires StrictlyIncreasing(xs) && AllInUnit(xs) && 0 < |xs|
    ensures ManagesInRing(xs, 0, 1.0)
    ensures forall i :: 0 < i < |xs| ==> !ManagesInRing(xs, i, 1.0)
  {
    FirstManager(xs, 1.0);
    forall i | 0 < i < |xs|
      ensures !ManagesInRing(xs, i, 1.0)
    {
      InnerManager(xs, i, 1.0);
    }
  }

  lemma ManagersDistinct(xs: seq<real>, p: real, i: nat, j: nat)
    requires StrictlyIncreasing(xs) && AllInUnit(xs) && IsPoint(p)
    requires i < |xs| && j < |xs| && i != j
    requires ManagesInRing(xs, i, p)
    ensures !ManagesInRing(xs, j, p)
  {
    var n := |xs|;
    FirstManager(xs, p);
    if i > 0 { InnerManager(xs, i, p); }
    if j > 0 { InnerManager(xs, j, p); }
    if i > 0 && j > 0 {
      if i < j { assert xs[i] <= xs[j - 1]; } else { assert xs[j] <= xs[i - 1]; }
    } else if i == 0 {
      assert xs[0] <= xs[j - 1] && xs[j] <= xs[n - 1];
    } else {
      assert xs[0] <= xs[i - 1] && xs[i] <= xs[n - 1];
    }
  }

  /** The scenario of a four-member ring at 0, 0.25, 0.5 and 0.75. */
  lemma FourMemberScenario(p: real)
    requires 0.5 < p <= 0.75
    ensures RingSegment([0.0, 0.25, 0.5, 0.75], 3) == 0.25
    ensures ManagesInRing([0.0, 0.25, 0.5, 0.75], 3, p)
  {
  }
}
