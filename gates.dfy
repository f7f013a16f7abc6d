/**
 * The gate wiring of the overlay. Every member owns a vector of inout gates; the table
 * below records, for every member `a` and gate index `i`, where the output half
 * gate$o[i] of `a` is connected: `Some(Endpoint(b, j))` means it feeds the input half
 * gate$i[j] of member `b`. Gate 0 is the short link to the predecessor, gate 1 the short
 * link to the successor, gates 2.. are long links.
 *
 * The simulator keeps the two halves of a link separately. A link made by the member code
 * is always a pair (a.gate$o[i] -> b.gate$i[j] and b.gate$o[j] -> a.gate$i[i]); the
 * predicate Symmetric says that the table consists of such pairs only.
 */
module Gates {
  import opened Wrappers
  import Geometry

  datatype Endpoint = Endpoint(node: nat, slot: nat)

  /** The output gates of one member, by index. */
  type Row = seq<Option<Endpoint>>

  /** The output gates of every member, by member index. */
  type Table = seq<Row>

  /** Every member has `size` gates and every link ends at an existing gate. */
  ghost predicate Shaped(t: Table, size: nat) {
    forall a :: 0 <= a < |t| ==>
      |t[a]| == size &&
      forall i :: 0 <= i < size && t[a][i].Some? ==>
        t[a][i].value.node < |t| && t[a][i].value.slot < size
  }

  /** Whether output gate i of member a is connected to member m. */
  predicate LinksTo(row: Row, i: nat, m: nat)
    requires i < |row|
  {
    row[i].Some? && row[i].value.node == m
  }

  /** Every connected output gate is answered by the output gate it feeds. */
  ghost predicate Symmetric(t: Table) {
    forall a, i :: 0 <= a < |t| && 0 <= i < |t[a]| && t[a][i].Some? ==>
      var e := t[a][i].value;
      e.node < |t| && e.slot < |t[e.node]| && t[e.node][e.slot] == Some(Endpoint(a, i))
  }

  /** Whether the input half gate$i[j] of member b is fed by some output gate. */
  ghost predicate InConnected(t: Table, b: nat, j: nat) {
    exists a, i :: 0 <= a < |t| && 0 <= i < |t[a]| && t[a][i] == Some(Endpoint(b, j))
  }

  /**
   * In a symmetric table an input half is connected exactly when the output half with the
   * same index is, so looking up the first free input gate and the first free output gate
   * (as createLongLinkByFirstUnconnectedGate does) yields the same index.
   */
  lemma InConnectedIff(t: Table, b: nat, j: nat)
    requires Symmetric(t) && b < |t| && j < |t[b]|
    ensures InConnected(t, b, j) <==> t[b][j].Some?
  {
    if t[b][j].Some? {
      var e := t[b][j].value;
      assert t[e.node][e.slot] == Some(Endpoint(b, j));
    }
  }

  /** An input half is fed by at most one output half. */
  lemma FeedIsUnique(t: Table, a: nat, i: nat, c: nat, k: nat, e: Endpoint)
    requires Symmetric(t) && a < |t| && i < |t[a]| && c < |t| && k < |t[c]|
    requires t[a][i] == Some(e) && t[c][k] == Some(e)
    ensures a == c && i == k
  {
  }

  // ---- Queries on one member's gate vector ----

  /** The number of connected gates among the first n. */
  function CountConnected(row: Row, n: nat): (c: nat)
    requires n <= |row|
    ensures c <= n
    ensures c == n <==> forall i :: 0 <= i < n ==> row[i].Some?
  {
    if n == 0 then 0 else CountConnected(row, n - 1) + (if row[n - 1].Some? then 1 else 0)
  }

  /** getNeighboursNumber: the number of connected gates. */
  method NeighboursNumber(row: Row) returns (total: nat)
    ensures total == CountConnected(row, |row|)
  {
    total := 0;
    var i := 0;
    while i < |row|
      invariant 0 <= i <= |row|
      invariant total == CountConnected(row, i)
    {
      if row[i].Some? {
        total := total + 1;
      }
      i := i + 1;
    }
  }

  /** hasAvailableConnections: some gate is unconnected. */
  method HasAvailableConnections(row: Row) returns (b: bool)
    ensures b <==> exists i :: 0 <= i < |row| && row[i].None?
  {
    var i := 0;
    while i < |row|
      invariant 0 <= i <= |row|
      invariant forall k :: 0 <= k < i ==> row[k].Some?
    {
      if row[i].None? {
        return true;
      }
      i := i + 1;
    }
    return false;
  }

  /**
   * A member has fewer connected gates than gates exactly when it has an unconnected
   * one: the neighbour-count test and hasAvailableConnections agree.
   */
  lemma {:induction false} CountBelowIffFree(row: Row)
    ensures CountConnected(row, |row|) < |row| <==> exists i :: 0 <= i < |row| && row[i].None?
  {
    if CountConnected(row, |row|) < |row| {
      var i :| 0 <= i < |row| && !row[i].Some?;
    }
  }

  /** alreadyConnected: some output gate is connected to member m. */
  method AlreadyConnected(row: Row, m: nat) returns (b: bool)
    ensures b <==> exists i :: 0 <= i < |row| && LinksTo(row, i, m)
  {
    var i := 0;
    while i < |row|
      invariant 0 <= i <= |row|
      invariant forall k :: 0 <= k < i ==> !LinksTo(row, k, m)
    {
      if row[i].Some? && row[i].value.node == m {
        assert LinksTo(row, i, m);
        return true;
      }
      i := i + 1;
    }
    return false;
  }

  /** The lowest index at or above lo of a gate connected to member m, or -1. */
  function FirstTo(row: Row, m: nat, lo: nat): (g: int)
    requires lo <= |row|
    ensures g == -1 <==> forall i :: lo <= i < |row| ==> !LinksTo(row, i, m)
    ensures g != -1 ==> lo <= g < |row| && LinksTo(row, g, m) &&
                        forall i :: lo <= i < g ==> !LinksTo(row, i, m)
    decreases |row| - lo
  {
    if lo == |row| then -1
    else if LinksTo(row, lo, m) then lo
    else FirstTo(row, m, lo + 1)
  }

  /** getGateToModule: the lowest index of an output gate connected to m, or -1. */
  method GateToModule(row: Row, m: nat) returns (g: int)
    ensures g == FirstTo(row, m, 0)
    ensures g == -1 <==> forall i :: 0 <= i < |row| ==> !LinksTo(row, i, m)
    ensures g != -1 ==> 0 <= g < |row| && LinksTo(row, g, m) &&
                        forall i :: 0 <= i < g ==> !LinksTo(row, i, m)
  {
    var i := 0;
    while i < |row|
      invariant 0 <= i <= |row|
      invariant forall k :: 0 <= k < i ==> !LinksTo(row, k, m)
    {
      if row[i].Some? && row[i].value.node == m {
        FirstToIs(row, m, i);
        return i;
      }
      i := i + 1;
    }
    return -1;
  }

  /** The first gate to m is determined by its defining property. */
  lemma FirstToIs(row: Row, m: nat, g: nat)
    requires g < |row| && LinksTo(row, g, m) && forall i :: 0 <= i < g ==> !LinksTo(row, i, m)
    ensures FirstTo(row, m, 0) == g
  {
    var f := FirstTo(row, m, 0);
    assert f != -1;
    assert !(f < g) && !(f > g);
  }

  /** The lowest index of an unconnected gate, if there is one. */
  function FirstFree(row: Row): (g: Option<nat>)
    ensures g.None? <==> forall i :: 0 <= i < |row| ==> row[i].Some?
    ensures g.Some? ==> g.value < |row| && row[g.value].None? &&
                        forall i :: 0 <= i < g.value ==> row[i].Some?
  {
    if forall i :: 0 <= i < |row| ==> row[i].Some? then None
    else
      var k :| 0 <= k < |row| && row[k].None?;
      FirstFreeBelow(row, k)
  }

  /** The lowest unconnected index, given that index k is unconnected. */
  function FirstFreeBelow(row: Row, k: nat): (g: Option<nat>)
    requires k < |row| && row[k].None?
    ensures g.Some? && g.value <= k && row[g.value].None? &&
            forall i :: 0 <= i < g.value ==> row[i].Some?
  {
    if forall i :: 0 <= i < k ==> row[i].Some? then Some(k)
    else
      var j :| 0 <= j < k && row[j].None?;
      FirstFreeBelow(row, j)
  }

  /** getFirstUnconnectedGate: the lowest unconnected gate, or none. */
  method FirstUnconnectedGate(row: Row) returns (g: Option<nat>)
    ensures g == FirstFree(row)
  {
    var i := 0;
    while i < |row|
      invariant 0 <= i <= |row|
      invariant forall k :: 0 <= k < i ==> row[k].Some?
    {
      if row[i].None? {
        FirstFreeUnique(row, i);
        return Some(i);
      }
      i := i + 1;
    }
    return None;
  }

  /** The first free index is determined by its defining property. */
  lemma FirstFreeUnique(row: Row, i: nat)
    requires i < |row| && row[i].None? && forall k :: 0 <= k < i ==> row[k].Some?
    ensures FirstFree(row) == Some(i)
  {
    var g := FirstFree(row);
    assert g.Some?;
    assert !(g.value < i) && !(g.value > i);
  }

  /** The highest connected index at or above lo, if there is one. */
  function LastConnectedFrom(row: Row, lo: nat): (g: Option<nat>)
    ensures g.None? <==> forall i :: lo <= i < |row| ==> row[i].None?
    ensures g.Some? ==> lo <= g.value < |row| && row[g.value].Some? &&
                        forall i :: g.value < i < |row| ==> row[i].None?
    decreases |row|
  {
    if |row| <= lo then None
    else if row[|row| - 1].Some? then Some(|row| - 1)
    else LastConnectedFrom(row[..|row| - 1], lo)
  }

  /**
   * getLastConnectedGate as the source writes it: the loop runs from the last index down
   * while the index is greater than 2, so gate 2 is never returned.
   */
  method LastConnectedGateAsWritten(row: Row) returns (g: Option<nat>)
    ensures g == LastConnectedFrom(row, 3)
  {
    var i := |row| - 1;
    while i > 2
      invariant i < |row| || i <= 2
      invariant forall k :: i < k < |row| && k >= 3 ==> row[k].None?
    {
      if row[i].Some? {
        LastConnectedUnique(row, 3, i);
        return Some(i);
      }
      i := i - 1;
    }
    LastConnectedNone(row, 3);
    return None;
  }

  /** getLastConnectedGate with the loop bound the callers need: the highest connected long-link gate. */
  method LastConnectedGate(row: Row) returns (g: Option<nat>)
    ensures g == LastConnectedFrom(row, 2)
  {
    var i := |row| - 1;
    while i >= 2
      invariant i < |row| || i < 2
      invariant forall k :: i < k < |row| && k >= 2 ==> row[k].None?
    {
      if row[i].Some? {
        LastConnectedUnique(row, 2, i);
        return Some(i);
      }
      i := i - 1;
    }
    LastConnectedNone(row, 2);
    return None;
  }

  lemma LastConnectedUnique(row: Row, lo: nat, i: nat)
    requires lo <= i < |row| && row[i].Some? && forall k :: i < k < |row| ==> row[k].None?
    ensures LastConnectedFrom(row, lo) == Some(i)
  {
    var g := LastConnectedFrom(row, lo);
    assert g.Some?;
    assert !(g.value < i) && !(g.value > i);
  }

  lemma LastConnectedNone(row: Row, lo: nat)
    requires forall k :: lo <= k < |row| ==> row[k].None?
    ensures LastConnectedFrom(row, lo) == None
  {
  }

  /**
   * With three gates all connected (one long link, K = 1), the loop as written finds no
   * last connected gate although gate 2 is a connected long link.
   */
  lemma LastConnectedSkipsGateTwo(e0: Endpoint, e1: Endpoint, e2: Endpoint)
    ensures LastConnectedFrom([Some(e0), Some(e1), Some(e2)], 3) == None
    ensures LastConnectedFrom([Some(e0), Some(e1), Some(e2)], 2) == Some(2)
  {
    LastConnectedUnique([Some(e0), Some(e1), Some(e2)], 2, 2);
  }

  // ---- Greedy next hop ----

  /** The forward distance from point y to the member at the end of gate i. */
  function HopDistance(row: Row, xs: seq<real>, y: real, i: nat): real
    requires i < |row| && row[i].Some? && row[i].value.node < |xs|
  {
    Geometry.CircularDistance(y, xs[row[i].value.node])
  }

  /**
   * Every member that a connected gate of the row leads to has a position in [0,1). Members
   * that have not joined yet may sit elsewhere, but no gate leads to them.
   */
  predicate NeighboursPlaced(row: Row, xs: seq<real>) {
    forall i :: 0 <= i < |row| && row[i].Some? ==>
      row[i].value.node < |xs| && Geometry.InUnit(xs[row[i].value.node])
  }

  /** The best-distance sentinel: any value of at least 1 exceeds every forward distance. */
  const Unreached: real := 42.0

  /**
   * `best` is the lowest index among the connected gates whose neighbour has the smallest
   * forward distance to y, and `bestDistance` that distance; -1 and the sentinel when no
   * gate is connected.
   */
  predicate IsBestNeighbour(row: Row, xs: seq<real>, y: real, best: int, bestDistance: real)
    requires forall i :: 0 <= i < |row| && row[i].Some? ==> row[i].value.node < |xs|
  {
    (best == -1 <==> forall i :: 0 <= i < |row| ==> row[i].None?) &&
    (best == -1 ==> bestDistance == Unreached) &&
    (best != -1 ==>
      0 <= best < |row| && row[best].Some? &&
      bestDistance == HopDistance(row, xs, y, best) &&
      (forall i :: 0 <= i < |row| && row[i].Some? ==> bestDistance <= HopDistance(row, xs, y, i)) &&
      (forall i :: 0 <= i < best && row[i].Some? ==> bestDistance < HopDistance(row, xs, y, i)))
  }

  /**
   * getBestNeighbourIndex: over the connected gates, the lowest index whose neighbour has
   * the smallest forward distance to y (the first minimum wins), together with that
   * distance; -1 and the sentinel when no gate is connected.
   */
  method BestNeighbourIndex(row: Row, xs: seq<real>, y: real) returns (best: int, bestDistance: real)
    requires NeighboursPlaced(row, xs) && Geometry.IsPoint(y)
    ensures IsBestNeighbour(row, xs, y, best, bestDistance)
  {
    best, bestDistance := -1, Unreached;
    var i := 0;
    while i < |row|
      invariant 0 <= i <= |row|
      invariant best == -1 <==> forall k :: 0 <= k < i ==> row[k].None?
      invariant best == -1 ==> bestDistance == Unreached
      invariant best != -1 ==>
        0 <= best < i && row[best].Some? &&
        bestDistance == HopDistance(row, xs, y, best) &&
        (forall k :: 0 <= k < i && row[k].Some? ==> bestDistance <= HopDistance(row, xs, y, k)) &&
        (forall k :: 0 <= k < best && row[k].Some? ==> bestDistance < HopDistance(row, xs, y, k))
    {
      if row[i].Some? {
        var d := Geometry.CircularDistance(y, xs[row[i].value.node]);
        if d < bestDistance {
          best, bestDistance := i, d;
        }
      }
      i := i + 1;
    }
  }

  // ---- Rewiring ----

  /** The table with output gate i of member a set to v. */
  function SetSlot(t: Table, a: nat, i: nat, v: Option<Endpoint>): (r: Table)
    requires a < |t| && i < |t[a]|
    ensures |r| == |t| && |r[a]| == |t[a]| && r[a][i] == v
    ensures forall b :: 0 <= b < |t| ==> |r[b]| == |t[b]|
    ensures forall b, j :: 0 <= b < |t| && 0 <= j < |t[b]| && (b != a || j != i) ==> r[b][j] == t[b][j]
  {
    t[a := t[a][i := v]]
  }

  /**
   * disconnectGate, removing both halves of the link on output gate i of member a: the gate
   * itself and the gate at its far end (the reverse gate).
   */
  function Disconnect(t: Table, a: nat, i: nat): (r: Table)
    requires a < |t| && i < |t[a]| && t[a][i].Some?
    requires Symmetric(t)
  {
    var e := t[a][i].value;
    SetSlot(SetSlot(t, e.node, e.slot, None), a, i, None)
  }

  /**
   * After a disconnection the gate and its reverse gate are unconnected, every other gate
   * is as before, and the table still consists of link pairs.
   */
  lemma DisconnectSpec(t: Table, size: nat, a: nat, i: nat)
    requires Shaped(t, size) && Symmetric(t) && a < |t| && i < |t[a]| && t[a][i].Some?
    ensures var r := Disconnect(t, a, i); var e := t[a][i].value;
      Shaped(r, size) && Symmetric(r) && |r| == |t| &&
      r[a][i].None? && r[e.node][e.slot].None? &&
      forall b, j :: 0 <= b < |t| && 0 <= j < size && (b != a || j != i) && (b != e.node || j != e.slot) ==> r[b][j] == t[b][j]
  {
    DisconnectKeepsShape(t, size, a, i);
    DisconnectSpecLite(t, a, i);
  }

  /** A disconnection keeps every gate vector's size and every link inside the table. */
  lemma DisconnectKeepsShape(t: Table, size: nat, a: nat, i: nat)
    requires Shaped(t, size) && Symmetric(t) && a < |t| && i < |t[a]| && t[a][i].Some?
    ensures Shaped(Disconnect(t, a, i), size)
  {
    var r: Table := Disconnect(t, a, i);
    forall c | 0 <= c < |r|
      ensures |r[c]| == size && forall k :: 0 <= k < size && r[c][k].Some? ==> r[c][k].value.node < |r| && r[c][k].value.slot < size
    {
      assert |r[c]| == |t[c]|;
    }
  }

  /** Gate j of member b after disconnecting gate i of member a. */
  lemma DisconnectAt(t: Table, a: nat, i: nat, b: nat, j: nat)
    requires Symmetric(t) && a < |t| && i < |t[a]| && t[a][i].Some? && b < |t| && j < |t[b]|
    ensures var e := t[a][i].value;
      Disconnect(t, a, i)[b][j] == if (b, j) == (a, i) || (b, j) == (e.node, e.slot) then None else t[b][j]
  {
  }

  /** What LeaveSplice needs of Disconnect without a fixed gate count. */
  lemma DisconnectSpecLite(t: Table, a: nat, i: nat)
    requires Symmetric(t) && a < |t| && i < |t[a]| && t[a][i].Some?
    ensures var r := Disconnect(t, a, i);
      |r| == |t| && Symmetric(r) && forall b :: 0 <= b < |t| ==> |r[b]| == |t[b]|
  {
    var r: Table := Disconnect(t, a, i);
    var e := t[a][i].value;
    forall b: nat, j: nat | 0 <= b < |r| && 0 <= j < |r[b]| && r[b][j].Some?
      ensures var f := r[b][j].value; f.node < |r| && f.slot < |r[f.node]| && r[f.node][f.slot] == Some(Endpoint(b, j))
    {
      var f := r[b][j].value;
      assert t[f.node][f.slot] == Some(Endpoint(b, j));
      if f == Endpoint(a, i) {
        FeedIsUnique(t, e.node, e.slot, b, j, Endpoint(a, i));
      }
      if f == e {
        FeedIsUnique(t, a, i, b, j, e);
      }
    }
  }

  /**
   * dropAllLongLinks from gate i on: every connected gate of member a at index i or above
   * is disconnected, in increasing index order.
   */
  function DropFrom(t: Table, a: nat, i: nat): (r: Table)
    requires Symmetric(t) && a < |t|
    ensures |r| == |t| && Symmetric(r) && forall b :: 0 <= b < |t| ==> |r[b]| == |t[b]|
    decreases |t[a]| - i
  {
    if i >= |t[a]| then t
    else if t[a][i].Some? then
      DisconnectSpecLite(t, a, i);
      DropFrom(Disconnect(t, a, i), a, i + 1)
    else DropFrom(t, a, i + 1)
  }

  /** Whether gate value v leads to a gate of member a with index i or above. */
  predicate LeadsIntoFrom(v: Option<Endpoint>, a: nat, i: nat) {
    v.Some? && v.value.node == a && v.value.slot >= i
  }

  /**
   * Dropping from gate i on clears exactly the gates of a at index i or above and the gates
   * at their far ends; every other gate keeps its link.
   */
  lemma {:induction false} DropFromSpec(t: Table, a: nat, i: nat)
    requires Symmetric(t) && a < |t|
    ensures var r := DropFrom(t, a, i);
      forall b, j :: 0 <= b < |t| && 0 <= j < |t[b]| ==>
        r[b][j] == (if (b == a && j >= i) || LeadsIntoFrom(t[b][j], a, i) then None else t[b][j])
    decreases |t[a]| - i
  {
    if i >= |t[a]| {
      assert DropFrom(t, a, i) == t;
      NothingLeadsPast(t, a, i);
    } else if t[a][i].Some? {
      DisconnectSpecLite(t, a, i);
      var t1 := Disconnect(t, a, i);
      DropFromSpec(t1, a, i + 1);
      assert DropFrom(t, a, i) == DropFrom(t1, a, i + 1);
      DropStep(t, a, i, DropFrom(t1, a, i + 1));
    } else {
      DropFromSpec(t, a, i + 1);
      assert DropFrom(t, a, i) == DropFrom(t, a, i + 1);
      DropSkip(t, a, i, DropFrom(t, a, i + 1));
    }
  }

  /**
   * If r is what dropping from gate i + 1 on makes of the wiring with gate i of a cut, then
   * r is what dropping from gate i on makes of the wiring itself.
   */
  lemma DropStep(t: Table, a: nat, i: nat, r: Table)
    requires Symmetric(t) && a < |t| && i < |t[a]| && t[a][i].Some?
    requires var t1 := Disconnect(t, a, i);
      |r| == |t1| && (forall b :: 0 <= b < |t1| ==> |r[b]| == |t1[b]|) &&
      forall b, j :: 0 <= b < |t1| && 0 <= j < |t1[b]| ==>
        r[b][j] == (if (b == a && j >= i + 1) || LeadsIntoFrom(t1[b][j], a, i + 1) then None else t1[b][j])
    ensures forall b, j :: 0 <= b < |t| && 0 <= j < |t[b]| ==>
      r[b][j] == (if (b == a && j >= i) || LeadsIntoFrom(t[b][j], a, i) then None else t[b][j])
  {
    DisconnectSpecLite(t, a, i);
    forall b, j | 0 <= b < |t| && 0 <= j < |t[b]|
      ensures r[b][j] == (if (b == a && j >= i) || LeadsIntoFrom(t[b][j], a, i) then None else t[b][j])
    {
      DropStepAt(t, a, i, b, j);
    }
  }

  /** In a wiring of link pairs no gate leads past the end of a's gate vector, so dropping from there keeps every gate. */
  lemma NothingLeadsPast(t: Table, a: nat, i: nat)
    requires Symmetric(t) && a < |t| && i >= |t[a]|
    ensures forall b, j :: 0 <= b < |t| && 0 <= j < |t[b]| ==>
      t[b][j] == (if (b == a && j >= i) || LeadsIntoFrom(t[b][j], a, i) then None else t[b][j])
  {
    forall b, j | 0 <= b < |t| && 0 <= j < |t[b]| && t[b][j].Some?
      ensures !LeadsIntoFrom(t[b][j], a, i)
    {
      var f := t[b][j].value;
      assert f.slot < |t[f.node]|;
    }
  }

  /**
   * If r is what dropping from gate i + 1 on makes of the wiring, and gate i of a is not
   * connected, then r is what dropping from gate i on makes of it.
   */
  lemma DropSkip(t: Table, a: nat, i: nat, r: Table)
    requires Symmetric(t) && a < |t| && i < |t[a]| && t[a][i].None?
    requires |r| == |t| && (forall b :: 0 <= b < |t| ==> |r[b]| == |t[b]|) &&
      forall b, j :: 0 <= b < |t| && 0 <= j < |t[b]| ==>
        r[b][j] == (if (b == a && j >= i + 1) || LeadsIntoFrom(t[b][j], a, i + 1) then None else t[b][j])
    ensures forall b, j :: 0 <= b < |t| && 0 <= j < |t[b]| ==>
      r[b][j] == (if (b == a && j >= i) || LeadsIntoFrom(t[b][j], a, i) then None else t[b][j])
  {
    NothingLeadsIntoFree(t, a, i);
  }

  /** In a wiring of link pairs no gate leads into an unconnected gate i of a. */
  lemma NothingLeadsIntoFree(t: Table, a: nat, i: nat)
    requires Symmetric(t) && a < |t| && i < |t[a]| && t[a][i].None?
    ensures forall b, j :: 0 <= b < |t| && 0 <= j < |t[b]| ==>
      (LeadsIntoFrom(t[b][j], a, i) <==> LeadsIntoFrom(t[b][j], a, i + 1))
  {
    forall b, j | 0 <= b < |t| && 0 <= j < |t[b]| && t[b][j].Some?
      ensures t[b][j] != Some(Endpoint(a, i))
    {
      var f := t[b][j].value;
      assert t[f.node][f.slot] == Some(Endpoint(b, j));
    }
  }

  /**
   * One step of the drop, at gate j of member b: cutting gate i of a first and then
   * dropping from i + 1 on clears the same gates as dropping from i on.
   */
  lemma DropStepAt(t: Table, a: nat, i: nat, b: nat, j: nat)
    requires Symmetric(t) && a < |t| && i < |t[a]| && t[a][i].Some? && b < |t| && j < |t[b]|
    ensures var t1 := Disconnect(t, a, i);
      (if (b == a && j >= i + 1) || LeadsIntoFrom(t1[b][j], a, i + 1) then None else t1[b][j]) ==
      (if (b == a && j >= i) || LeadsIntoFrom(t[b][j], a, i) then None else t[b][j])
  {
    var e := t[a][i].value;
    var t1 := Disconnect(t, a, i);
    if (b, j) != (a, i) && (b, j) != (e.node, e.slot) {
      assert t1[b][j] == t[b][j];
      if t[b][j] == Some(Endpoint(a, i)) {
        assert t[a][i] == Some(Endpoint(b, j));
      }
    } else if (b, j) == (e.node, e.slot) {
      assert t[b][j] == Some(Endpoint(a, i));
    }
  }

  /**
   * dropAllLongLinks: afterwards no long-link gate (index 2 or above) of member a is
   * connected, no gate leads into one, every other gate is as before (in particular a's
   * short links, unless they lead into a's own long links) and the wiring stays shaped.
   */
  lemma DropLongLinksSpec(t: Table, size: nat, a: nat)
    requires Shaped(t, size) && Symmetric(t) && a < |t|
    ensures var r := DropFrom(t, a, 2);
      Shaped(r, size) && Symmetric(r) && |r| == |t| &&
      (forall j :: 2 <= j < size ==> r[a][j].None?) &&
      (forall b, j :: 0 <= b < |t| && 0 <= j < size && LeadsIntoFrom(t[b][j], a, 2) ==> r[b][j].None?) &&
      (forall b, j :: 0 <= b < |t| && 0 <= j < size && !(b == a && j >= 2) && !LeadsIntoFrom(t[b][j], a, 2) ==>
        r[b][j] == t[b][j])
  {
    DropFromSpec(t, a, 2);
  }

  /**
   * getReverseGateIndexByGateIndex: the index of the first gate of the neighbour on gate i
   * of member a that leads back to a, or -1; None where the simulator fails (no gate i, or
   * gate i unconnected).
   */
  function ReverseGateIndex(t: Table, a: nat, i: int): (g: Option<int>)
    requires a < |t|
    requires forall b, j :: 0 <= b < |t| && 0 <= j < |t[b]| && t[b][j].Some? ==> t[b][j].value.node < |t|
    ensures g.Some? <==> 0 <= i < |t[a]| && t[a][i].Some?
  {
    if 0 <= i < |t[a]| && t[a][i].Some? then Some(FirstTo(t[t[a][i].value.node], a, 0)) else None
  }

  /** In a wiring of link pairs the reverse gate exists and leads back to a. */
  lemma ReverseGateLeadsBack(t: Table, a: nat, i: nat)
    requires Symmetric(t) && a < |t| && i < |t[a]| && t[a][i].Some?
    ensures var g := ReverseGateIndex(t, a, i).value; var b := t[a][i].value.node;
      0 <= g < |t[b]| && LinksTo(t[b], g, a)
  {
    var e := t[a][i].value;
    assert LinksTo(t[e.node], e.slot, a);
  }

  /**
   * disconnectGate as the source writes it, called on member `self` for output gate i of
   * member a. The far end of a's gate is looked up right, but the reverse gate index is
   * computed from self's gate i: the first gate of self's neighbour on gate i that leads
   * back to self. None where the simulator would fail: self's or a's gate i unconnected
   * (a null gate), or no such reverse gate (gate index -1).
   */
  function DisconnectAsWritten(t: Table, self: nat, a: nat, i: nat): (r: Option<Table>)
    requires self < |t| && a < |t| && i < |t[self]| && i < |t[a]|
    requires forall b, j :: 0 <= b < |t| && 0 <= j < |t[b]| && t[b][j].Some? ==> t[b][j].value.node < |t|
  {
    if t[self][i].None? || t[a][i].None? then None
    else
      var peer := t[self][i].value.node;
      var rev := FirstTo(t[peer], self, 0);
      var far := t[a][i].value.node;
      if rev < 0 || rev >= |t[far]| then None
      else Some(SetSlot(SetSlot(t, far, rev, None), a, i, None))
  }

  /**
   * When the member disconnects its own gate and the first gate of the neighbour leading
   * back to it is the reverse gate, the code as written removes the same two halves.
   */
  lemma DisconnectAsWrittenAgrees(t: Table, a: nat, i: nat)
    requires Symmetric(t) && a < |t| && i < |t[a]| && t[a][i].Some?
    requires forall b, j :: 0 <= b < |t| && 0 <= j < |t[b]| && t[b][j].Some? ==> t[b][j].value.node < |t|
    requires FirstTo(t[t[a][i].value.node], a, 0) == t[a][i].value.slot
    ensures DisconnectAsWritten(t, a, a, i) == Some(Disconnect(t, a, i))
  {
  }

  /** Two members joined into a ring of two: each one's gate 0 and gate 1 lead to the other. */
  const TwoRing: Table := [[Some(Endpoint(1, 1)), Some(Endpoint(1, 0))],
                           [Some(Endpoint(0, 1)), Some(Endpoint(0, 0))]]

  lemma TwoRingIsSymmetric()
    ensures Shaped(TwoRing, 2) && Symmetric(TwoRing)
  {
    var t := TwoRing;
    assert |t| == 2 && |t[0]| == 2 && |t[1]| == 2;
    forall a: nat, i: nat | a < 2 && i < 2
      ensures t[a][i] == Some(Endpoint(1 - a, 1 - i))
    {
      if a == 0 {
        assert t[a] == [Some(Endpoint(1, 1)), Some(Endpoint(1, 0))];
      } else {
        assert t[a] == [Some(Endpoint(0, 1)), Some(Endpoint(0, 0))];
      }
    }
  }

  /** The ring of two after member 0's gate 0 and member 1's gate 0 lost their links. */
  const TwoRingHalfCut: Table := [[None, Some(Endpoint(1, 0))], [None, Some(Endpoint(0, 0))]]

  lemma TwoRingAsWritten()
    ensures DisconnectAsWritten(TwoRing, 0, 0, 0) == Some(TwoRingHalfCut)
  {
    var t := TwoRing;
    assert FirstTo(t[1], 0, 0) == 0 by {
      assert LinksTo(t[1], 0, 0);
    }
    assert DisconnectAsWritten(t, 0, 0, 0) == Some(SetSlot(SetSlot(t, 1, 0, None), 0, 0, None));
    var row0: Row := [None, Some(Endpoint(1, 0))];
    var row1: Row := [None, Some(Endpoint(0, 0))];
    assert t[1][0 := None] == row1;
    assert t[1 := row1] == [t[0], row1];
    assert t[0][0 := None] == row0;
    assert [t[0], row1][0 := row0] == [row0, row1];
  }

  /**
   * In a ring of two members, member 0 disconnecting its gate 0 removes gate 0 of member 1
   * (its first gate back to member 0) instead of gate 1, the true reverse gate: member 1's
   * gate 1 is left feeding a gate whose own half is gone.
   */
  lemma DisconnectAsWrittenBreaksPairs()
    ensures Symmetric(TwoRing)
    ensures DisconnectAsWritten(TwoRing, 0, 0, 0).Some?
    ensures !Symmetric(DisconnectAsWritten(TwoRing, 0, 0, 0).value)
    ensures Symmetric(Disconnect(TwoRing, 0, 0))
  {
    TwoRingIsSymmetric();
    DisconnectSpec(TwoRing, 2, 0, 0);
    TwoRingAsWritten();
    var r := TwoRingHalfCut;
    assert r[1][1] == Some(Endpoint(0, 0)) && r[0][0] != Some(Endpoint(1, 1));
  }

  /**
   * The two connectTo calls that make a link: output gate i of a feeds input gate j of b
   * and output gate j of b feeds input gate i of a.
   */
  function Connect(t: Table, a: nat, i: nat, b: nat, j: nat): (r: Table)
    requires a < |t| && i < |t[a]| && b < |t| && j < |t[b]|
  {
    SetSlot(SetSlot(t, a, i, Some(Endpoint(b, j))), b, j, Some(Endpoint(a, i)))
  }

  /** Linking two distinct free gates keeps the table made of link pairs and changes only them. */
  lemma ConnectSpec(t: Table, size: nat, a: nat, i: nat, b: nat, j: nat)
    requires Shaped(t, size) && Symmetric(t)
    requires a < |t| && i < size && b < |t| && j < size && (a != b || i != j)
    requires t[a][i].None? && t[b][j].None?
    ensures var r := Connect(t, a, i, b, j);
      Shaped(r, size) && Symmetric(r) && |r| == |t| &&
      r[a][i] == Some(Endpoint(b, j)) && r[b][j] == Some(Endpoint(a, i)) &&
      forall c, k :: 0 <= c < |t| && 0 <= k < size && (c != a || k != i) && (c != b || k != j) ==> r[c][k] == t[c][k]
  {
    ConnectKeepsShape(t, size, a, i, b, j);
    ConnectKeepsPairs(t, a, i, b, j);
  }

  lemma ConnectKeepsShape(t: Table, size: nat, a: nat, i: nat, b: nat, j: nat)
    requires Shaped(t, size) && a < |t| && i < size && b < |t| && j < size
    ensures Shaped(Connect(t, a, i, b, j), size)
  {
    var r: Table := Connect(t, a, i, b, j);
    forall c | 0 <= c < |r|
      ensures |r[c]| == size && forall k :: 0 <= k < size && r[c][k].Some? ==> r[c][k].value.node < |r| && r[c][k].value.slot < size
    {
      assert |r[c]| == |t[c]|;
    }
  }

  lemma ConnectKeepsPairs(t: Table, a: nat, i: nat, b: nat, j: nat)
    requires Symmetric(t) && a < |t| && i < |t[a]| && b < |t| && j < |t[b]| && (a != b || i != j)
    requires t[a][i].None? && t[b][j].None?
    ensures Symmetric(Connect(t, a, i, b, j))
  {
    var r: Table := Connect(t, a, i, b, j);
    forall c: nat, k: nat | 0 <= c < |r| && 0 <= k < |r[c]| && r[c][k].Some?
      ensures var f := r[c][k].value; f.node < |r| && f.slot < |r[f.node]| && r[f.node][f.slot] == Some(Endpoint(c, k))
    {
      if (c, k) != (a, i) && (c, k) != (b, j) {
        var f := t[c][k].value;
        assert t[f.node][f.slot] == Some(Endpoint(c, k));
        assert (f.node, f.slot) != (a, i) && (f.node, f.slot) != (b, j);
      }
    }
  }
}
