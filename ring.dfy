/**
 * The ring of short links. Member ring[k]'s gate 1 (its successor link) leads to gate 0
 * (the predecessor link) of the next member of the ring, cyclically. The join splice puts
 * a joining member between a manager and the manager's predecessor; the leave splice takes
 * a member out and links its predecessor directly to its successor.
 */
module Ring {
  import opened Wrappers
  import opened Gates

  /** The ring index after index k, wrapping around to 0. */
  function NextIndex(size: nat, k: nat): (n: nat)
    requires k < size
    ensures n < size
  {
    if k + 1 == size then 0 else k + 1
  }

  /** The ring index before index k, wrapping around to the last one. */
  function PrevIndex(size: nat, k: nat): (p: nat)
    requires k < size
    ensures p < size && NextIndex(size, p) == k
  {
    if k == 0 then size - 1 else k - 1
  }

  ghost predicate Distinct(ring: seq<nat>) {
    forall i, j :: 0 <= i < j < |ring| ==> ring[i] != ring[j]
  }

  /** Gate 1 of ring[k] leads to gate 0 of the next member of the ring. */
  ghost predicate LinkedToNext(t: Table, ring: seq<nat>, k: nat)
    requires k < |ring|
  {
    ring[k] < |t| && |t[ring[k]]| >= 2 &&
    t[ring[k]][1] == Some(Endpoint(ring[NextIndex(|ring|, k)], 0))
  }

  /** `ring` lists distinct members whose successor links close a cycle in this order. */
  ghost predicate IsRing(t: Table, ring: seq<nat>) {
    |ring| >= 1 && Distinct(ring) &&
    forall k :: 0 <= k < |ring| ==> LinkedToNext(t, ring, k)
  }

  /** In a table of link pairs, the predecessor link of a ring member leads to the previous member's gate 1. */
  lemma PredecessorLink(t: Table, ring: seq<nat>, k: nat)
    requires IsRing(t, ring) && Symmetric(t) && k < |ring|
    ensures LinkedToNext(t, ring, k) && t[ring[k]][0] == Some(Endpoint(ring[PrevIndex(|ring|, k)], 1))
  {
    var p := PrevIndex(|ring|, k);
    assert LinkedToNext(t, ring, p);
    assert LinkedToNext(t, ring, k);
  }

  // ---- Successor walk ----

  /** The member reached over gate 1; a member without a successor link stays put. */
  function Successor(t: Table, n: nat): nat {
    if n < |t| && |t[n]| >= 2 && t[n][1].Some? then t[n][1].value.node else n
  }

  /** The member reached after `steps` successor hops. */
  function Advance(t: Table, n: nat, steps: nat): nat
    decreases steps
  {
    if steps == 0 then n else Advance(t, Successor(t, n), steps - 1)
  }

  /** The members visited by `steps` successor hops from n, n first. */
  function Walk(t: Table, n: nat, steps: nat): (w: seq<nat>)
    ensures |w| == steps
    decreases steps
  {
    if steps == 0 then [] else [n] + Walk(t, Successor(t, n), steps - 1)
  }

  lemma {:induction false} WalkConcat(t: Table, n: nat, a: nat, b: nat)
    ensures Walk(t, n, a + b) == Walk(t, n, a) + Walk(t, Advance(t, n, a), b)
    ensures Advance(t, n, a + b) == Advance(t, Advance(t, n, a), b)
    decreases a
  {
    if a > 0 {
      WalkConcat(t, Successor(t, n), a - 1, b);
      assert a + b - 1 == (a - 1) + b;
    }
  }

  /** From ring[k], the walk to the end of the sequence lists ring[k..] and lands on ring[0]. */
  lemma {:induction false} WalkToEnd(t: Table, ring: seq<nat>, k: nat)
    requires IsRing(t, ring) && k < |ring|
    ensures Walk(t, ring[k], |ring| - k) == ring[k..]
    ensures Advance(t, ring[k], |ring| - k) == ring[0]
    decreases |ring| - k
  {
    var s := Successor(t, ring[k]);
    assert LinkedToNext(t, ring, k);
    assert s == ring[NextIndex(|ring|, k)];
    assert Walk(t, ring[k], |ring| - k) == [ring[k]] + Walk(t, s, |ring| - k - 1);
    assert Advance(t, ring[k], |ring| - k) == Advance(t, s, |ring| - k - 1);
    if k + 1 < |ring| {
      WalkToEnd(t, ring, k + 1);
      assert ring[k..] == [ring[k]] + ring[k + 1..];
    } else {
      assert s == ring[0];
    }
  }

  /**
   * A walk over successor links from any ring member visits the whole ring, each member
   * once, in ring order from that member, and is back at its start after |ring| hops.
   */
  lemma SuccessorWalk(t: Table, ring: seq<nat>, k: nat)
    requires IsRing(t, ring) && k < |ring|
    ensures Walk(t, ring[k], |ring|) == ring[k..] + ring[..k]
    ensures Advance(t, ring[k], |ring|) == ring[k]
    ensures multiset(Walk(t, ring[k], |ring|)) == multiset(ring)
    ensures Distinct(Walk(t, ring[k], |ring|))
  {
    var size := |ring|;
    WalkToEnd(t, ring, k);
    WalkToEnd(t, ring, 0);
    WalkConcat(t, ring[0], k, size - k);
    assert Walk(t, ring[0], k) == ring[..k] by {
      assert ring == Walk(t, ring[0], k) + Walk(t, Advance(t, ring[0], k), size - k);
    }
    assert Advance(t, ring[0], k) == ring[k] by {
      assert Walk(t, Advance(t, ring[0], k), size - k)[0] == Advance(t, ring[0], k);
      assert ring[k] == (ring[..k] + Walk(t, Advance(t, ring[0], k), size - k))[k];
    }
    WalkConcat(t, ring[k], size - k, k);
    assert size - k + k == size;
    assert ring == ring[..k] + ring[k..];
    var w := ring[k..] + ring[..k];
    forall i, j | 0 <= i < j < |w| ensures w[i] != w[j] {
      var i' := if i < size - k then i + k else i - (size - k);
      var j' := if j < size - k then j + k else j - (size - k);
      assert w[i] == ring[i'] && w[j] == ring[j'] && i' != j';
    }
  }

  // ---- Join splice ----

  /**
   * addNodeWithSpecificIntervalPosition: the manager's predecessor link is cut, the joiner's
   * gate 0 is linked to the predecessor's gate 1 and the joiner's gate 1 to the manager's gate 0.
   */
  function JoinSplice(t: Table, joiner: nat, manager: nat): (r: Table)
    requires Symmetric(t) && manager < |t| && |t[manager]| >= 1 && t[manager][0].Some?
    requires joiner < |t| && |t[joiner]| >= 2
    requires t[manager][0].value.node < |t| && 1 < |t[t[manager][0].value.node]|
  {
    var pred := t[manager][0].value.node;
    var t1 := Disconnect(t, manager, 0);
    var t2 := Connect(t1, joiner, 0, pred, 1);
    Connect(t2, manager, 0, joiner, 1)
  }

  /**
   * The four links of the join splice, and every other gate as before except the two
   * halves of the cut link: the predecessor's successor is the joiner, the joiner's
   * predecessor is the predecessor, the joiner's successor is the manager and the
   * manager's predecessor is the joiner.
   */
  lemma JoinSpliceLinks(t: Table, size: nat, joiner: nat, manager: nat, pred: nat)
    requires Shaped(t, size) && Symmetric(t) && size >= 2
    requires manager < |t| && joiner < |t| && joiner != manager
    requires t[manager][0] == Some(Endpoint(pred, 1)) && pred != joiner
    requires t[joiner][0].None? && t[joiner][1].None?
    ensures var r := JoinSplice(t, joiner, manager);
      Shaped(r, size) && Symmetric(r) && |r| == |t| &&
      r[pred][1] == Some(Endpoint(joiner, 0)) && r[joiner][0] == Some(Endpoint(pred, 1)) &&
      r[joiner][1] == Some(Endpoint(manager, 0)) && r[manager][0] == Some(Endpoint(joiner, 1)) &&
      forall c, k ::
        0 <= c < |t| && 0 <= k < size && (c, k) != (pred, 1) && (c, k) != (manager, 0) && c != joiner
        ==> r[c][k] == t[c][k]
  {
    DisconnectSpec(t, size, manager, 0);
    var t1 := Disconnect(t, manager, 0);
    ConnectSpec(t1, size, joiner, 0, pred, 1);
    var t2 := Connect(t1, joiner, 0, pred, 1);
    ConnectSpec(t2, size, manager, 0, joiner, 1);
  }

  /** The ring after the join splice at index m: the joiner placed just before ring[m]. */
  function Joined(ring: seq<nat>, m: nat, joiner: nat): (r: seq<nat>)
    requires m < |ring|
    ensures |r| == |ring| + 1 && r[m] == joiner
    ensures forall k :: 0 <= k < m ==> r[k] == ring[k]
    ensures forall k :: m < k < |r| ==> r[k] == ring[k - 1]
  {
    ring[..m] + [joiner] + ring[m..]
  }

  lemma JoinedDistinct(ring: seq<nat>, m: nat, joiner: nat)
    requires Distinct(ring) && m < |ring| && joiner !in ring
    ensures Distinct(Joined(ring, m, joiner))
  {
    var R := Joined(ring, m, joiner);
    forall i, j | 0 <= i < j < |R| ensures R[i] != R[j] {
      if i != m && j != m {
        var i' := if i < m then i else i - 1;
        var j' := if j < m then j else j - 1;
        assert R[i] == ring[i'] && R[j] == ring[j'] && i' < j';
      } else if i == m {
        assert R[j] == ring[j - 1];
      } else {
        assert R[i] == ring[i];
      }
    }
  }

  /** Position k of the joined ring is linked to its successor in the spliced table. */
  lemma JoinedLinkedAt(t: Table, r: Table, ring: seq<nat>, m: nat, joiner: nat, k: nat)
    requires IsRing(t, ring) && m < |ring| && joiner !in ring && joiner < |r|
    requires |r| == |t| && forall c :: 0 <= c < |t| ==> |r[c]| == |t[c]|
    requires LinkedToNext(t, ring, PrevIndex(|ring|, m)) && |r[joiner]| >= 2
    requires var pred := ring[PrevIndex(|ring|, m)];
      r[pred][1] == Some(Endpoint(joiner, 0)) && r[joiner][1] == Some(Endpoint(ring[m], 0)) &&
      forall c :: 0 <= c < |t| && c != pred && c != joiner && |t[c]| >= 2 ==> r[c][1] == t[c][1]
    requires k <= |ring|
    ensures LinkedToNext(r, Joined(ring, m, joiner), k)
  {
    var L := |ring|;
    var R := Joined(ring, m, joiner);
    var pm := PrevIndex(L, m);
    if k == m {
      assert NextIndex(|R|, k) == m + 1;
    } else {
      var j := if k < m then k else k - 1;
      assert R[k] == ring[j];
      assert LinkedToNext(t, ring, j);
      if j == pm {
        if m == 0 {
          assert k == L && NextIndex(|R|, k) == 0;
        } else {
          assert k == m - 1 && NextIndex(|R|, k) == m;
        }
      } else {
        assert r[ring[j]][1] == t[ring[j]][1];
        if j + 1 < L {
          assert NextIndex(|R|, k) == k + 1;
          assert R[k + 1] == ring[j + 1];
        } else {
          assert k == L && NextIndex(|R|, k) == 0 && m != 0;
        }
      }
    }
  }

  /** After the join splice the members form the ring with the joiner just before the manager. */
  lemma JoinSpliceKeepsRing(t: Table, size: nat, ring: seq<nat>, m: nat, joiner: nat)
    requires Shaped(t, size) && Symmetric(t) && size >= 2 && IsRing(t, ring)
    requires m < |ring| && joiner < |t| && joiner !in ring
    requires t[joiner][0].None? && t[joiner][1].None?
    ensures LinkedToNext(t, ring, m)
    ensures t[ring[m]][0] == Some(Endpoint(ring[PrevIndex(|ring|, m)], 1))
    ensures IsRing(JoinSplice(t, joiner, ring[m]), Joined(ring, m, joiner))
  {
    var manager := ring[m];
    var pred := ring[PrevIndex(|ring|, m)];
    PredecessorLink(t, ring, m);
    assert LinkedToNext(t, ring, PrevIndex(|ring|, m));
    JoinSpliceLinks(t, size, joiner, manager, pred);
    var r := JoinSplice(t, joiner, manager);
    var R := Joined(ring, m, joiner);
    JoinedDistinct(ring, m, joiner);
    forall k | 0 <= k < |R| ensures LinkedToNext(r, R, k) {
      JoinedLinkedAt(t, r, ring, m, joiner, k);
    }
  }

  // ---- Leave splice ----

  /**
   * The leave branch: both short links of the leaving member n are cut and its predecessor's
   * gate 1 is linked to its successor's gate 0.
   */
  function LeaveSplice(t: Table, n: nat): (r: Option<Table>)
    requires Symmetric(t) && n < |t| && |t[n]| >= 2
    requires forall b, j :: 0 <= b < |t| && 0 <= j < |t[b]| && t[b][j].Some? ==> t[b][j].value.node < |t|
  {
    if t[n][0].None? || t[n][1].None? then None
    else
      var prev := t[n][0].value.node;
      var next := t[n][1].value.node;
      var t1 := Disconnect(t, n, 0);
      DisconnectSpecLite(t, n, 0);
      if t1[n][1].None? || |t1[prev]| < 2 || |t1[next]| < 1 then None
      else
        var t2 := Disconnect(t1, n, 1);
        DisconnectSpecLite(t1, n, 1);
        if t2[prev][1].Some? || t2[next][0].Some? then None
        else Some(Connect(t2, prev, 1, next, 0))
  }

  /** The ring without position k. */
  function Removed(ring: seq<nat>, k: nat): (r: seq<nat>)
    requires k < |ring|
    ensures |r| == |ring| - 1
    ensures forall i :: 0 <= i < k ==> r[i] == ring[i]
    ensures forall i :: k <= i < |r| ==> r[i] == ring[i + 1]
  {
    ring[..k] + ring[k + 1..]
  }

  lemma RemovedDistinct(ring: seq<nat>, k: nat)
    requires Distinct(ring) && k < |ring|
    ensures Distinct(Removed(ring, k))
  {
    var R := Removed(ring, k);
    forall i, j | 0 <= i < j < |R| ensures R[i] != R[j] {
      var i' := if i < k then i else i + 1;
      var j' := if j < k then j else j + 1;
      assert R[i] == ring[i'] && R[j] == ring[j'] && i' < j';
    }
  }

  /** Position i of the shortened ring is linked to its successor in the spliced table. */
  lemma RemovedLinkedAt(t: Table, r: Table, ring: seq<nat>, k: nat, i: nat)
    requires IsRing(t, ring) && 2 <= |ring| && k < |ring|
    requires |r| == |t| && forall c :: 0 <= c < |t| ==> |r[c]| == |t[c]|
    requires LinkedToNext(t, ring, PrevIndex(|ring|, k))
    requires var prev := ring[PrevIndex(|ring|, k)];
      r[prev][1] == Some(Endpoint(ring[NextIndex(|ring|, k)], 0)) &&
      forall c :: 0 <= c < |t| && c != prev && c != ring[k] && |t[c]| >= 2 ==> r[c][1] == t[c][1]
    requires i < |ring| - 1
    ensures LinkedToNext(r, Removed(ring, k), i)
  {
    var L := |ring|;
    var R := Removed(ring, k);
    var j := if i < k then i else i + 1;
    assert R[i] == ring[j] && j != k;
    assert LinkedToNext(t, ring, j);
    if j == PrevIndex(L, k) {
      if k == 0 {
        assert j == L - 1 && i == L - 2 && NextIndex(L - 1, i) == 0 && R[0] == ring[1];
      } else if k + 1 < L {
        assert i == k - 1 && NextIndex(L - 1, i) == k && R[k] == ring[k + 1];
      } else {
        assert i == L - 2 && NextIndex(L - 1, i) == 0 && R[0] == ring[0];
      }
    } else {
      assert ring[j] != ring[PrevIndex(L, k)];
      assert r[ring[j]][1] == t[ring[j]][1];
      if j + 1 < L {
        assert j + 1 != k;
        if j + 1 < k {
          assert NextIndex(L - 1, i) == i + 1 && R[i + 1] == ring[j + 1];
        } else {
          assert NextIndex(L - 1, i) == i + 1 && R[i + 1] == ring[j + 1];
        }
      } else {
        assert k != 0 && i == L - 2 && NextIndex(L - 1, i) == 0 && R[0] == ring[0];
      }
    }
  }

  /**
   * The leave splice of a member n whose gate 0 pairs with gate 1 of `prev` and whose gate 1
   * pairs with gate 0 of `next`: it succeeds, links prev's gate 1 to next's gate 0, and
   * leaves gate 1 of every other member as it was.
   */
  lemma LeaveSpliceAt(t: Table, size: nat, n: nat, prev: nat, next: nat)
    requires Shaped(t, size) && Symmetric(t) && size >= 2 && n < |t| && prev < |t| && next < |t|
    requires t[n][0] == Some(Endpoint(prev, 1)) && t[n][1] == Some(Endpoint(next, 0))
    requires prev != n && next != n
    ensures LeaveSplice(t, n).Some?
    ensures var r := LeaveSplice(t, n).value;
      Shaped(r, size) && Symmetric(r) && |r| == |t| &&
      r[prev][1] == Some(Endpoint(next, 0)) && r[next][0] == Some(Endpoint(prev, 1)) &&
      forall c :: 0 <= c < |t| && c != prev && c != n ==> r[c][1] == t[c][1]
  {
    var t2 := LeaveCut(t, size, n, prev, next);
    ConnectSpec(t2, size, prev, 1, next, 0);
  }

  /** The two cuts of the leave splice, as the table they leave behind. */
  lemma LeaveCut(t: Table, size: nat, n: nat, prev: nat, next: nat) returns (t2: Table)
    requires Shaped(t, size) && Symmetric(t) && size >= 2 && n < |t| && prev < |t| && next < |t|
    requires t[n][0] == Some(Endpoint(prev, 1)) && t[n][1] == Some(Endpoint(next, 0))
    requires prev != n && next != n
    ensures Shaped(t2, size) && Symmetric(t2) && |t2| == |t|
    ensures LeaveSplice(t, n) == Some(Connect(t2, prev, 1, next, 0))
    ensures t2[prev][1].None? && t2[next][0].None?
    ensures forall c :: 0 <= c < |t| && c != prev && c != n ==> t2[c][1] == t[c][1]
  {
    var t1: Table := Disconnect(t, n, 0);
    DisconnectSpecLite(t, n, 0);
    DisconnectAt(t, n, 0, n, 1);
    DisconnectAt(t, n, 0, prev, 1);
    t2 := Disconnect(t1, n, 1);
    DisconnectAt(t1, n, 1, prev, 1);
    DisconnectAt(t1, n, 1, next, 0);
    forall c | 0 <= c < |t| && c != prev && c != n
      ensures t2[c][1] == t[c][1]
    {
      DisconnectAt(t, n, 0, c, 1);
      DisconnectAt(t1, n, 1, c, 1);
    }
    CutTwiceKeepsShape(t, size, n);
  }

  /** Cutting both short links of member n keeps the gate counts and the link pairs. */
  lemma CutTwiceKeepsShape(t: Table, size: nat, n: nat)
    requires Shaped(t, size) && Symmetric(t) && size >= 2 && n < |t| && t[n][0].Some?
    requires t[n][0].value != Endpoint(n, 1)
    requires t[n][1].Some?
    ensures Symmetric(Disconnect(t, n, 0)) && Disconnect(t, n, 0)[n][1].Some?
    ensures var t2 := Disconnect(Disconnect(t, n, 0), n, 1);
      Shaped(t2, size) && Symmetric(t2) && |t2| == |t|
  {
    DisconnectKeepsShape(t, size, n, 0);
    DisconnectSpecLite(t, n, 0);
    DisconnectAt(t, n, 0, n, 1);
    var t1: Table := Disconnect(t, n, 0);
    DisconnectKeepsShape(t1, size, n, 1);
    DisconnectSpecLite(t1, n, 1);
  }

  /**
   * In a ring of at least two members the leave splice succeeds, the predecessor's
   * successor becomes the successor and the successor's predecessor the predecessor, and
   * the remaining members form the ring without the one that left.
   */
  lemma LeaveSpliceKeepsRing(t: Table, size: nat, ring: seq<nat>, k: nat)
    requires Shaped(t, size) && Symmetric(t) && size >= 2 && IsRing(t, ring)
    requires 2 <= |ring| && k < |ring|
    ensures LinkedToNext(t, ring, k) && LinkedToNext(t, ring, PrevIndex(|ring|, k))
    ensures LeaveSplice(t, ring[k]).Some? && |LeaveSplice(t, ring[k]).value| == |t|
    ensures var r := LeaveSplice(t, ring[k]).value;
      var prev := ring[PrevIndex(|ring|, k)];
      var next := ring[NextIndex(|ring|, k)];
      Shaped(r, size) && Symmetric(r) &&
      r[prev][1] == Some(Endpoint(next, 0)) && r[next][0] == Some(Endpoint(prev, 1)) &&
      IsRing(r, Removed(ring, k))
  {
    var L := |ring|;
    var n := ring[k];
    var pk := PrevIndex(L, k);
    var nk := NextIndex(L, k);
    var prev := ring[pk];
    var next := ring[nk];
    PredecessorLink(t, ring, k);
    assert LinkedToNext(t, ring, pk);
    assert pk != k && nk != k;
    assert prev != n && next != n;
    LeaveSpliceAt(t, size, n, prev, next);
    var r := LeaveSplice(t, n).value;
    RemovedDistinct(ring, k);
    forall i | 0 <= i < L - 1 ensures LinkedToNext(r, Removed(ring, k), i) {
      RemovedLinkedAt(t, r, ring, k, i);
    }
  }
}
