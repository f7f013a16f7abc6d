/**
 * The member of the SymphonyDHTMod variant, the full protocol: size estimation, greedy
 * routing towards the manager of a point, relinking of the K long links in batches, and
 * joining and leaving by splicing the ring of short links.
 *
 * The simulator is replaced by an Overlay object holding what the members share: the gate
 * wiring of all members (see module Gates) and the outbox, the sequence of every message
 * sent or scheduled, tagged with the member that emitted it. Random draws, the module that
 * sent a message and the lookup of the joining member are inputs of the handlers.
 */
module SymphonyMod {
  import opened Wrappers
  import opened Gates
  import Geometry
  import Estimation
  import RoutingList
  import Ring
  import ModPacket

  /** The message names this member dispatches on; any other name is ignored. */
  datatype Kind =
    | NeedYourIntervalPosition          // "needYourIntervalPositionToCalculateMySegmentLength"
    | ThisIsMyIntervalPosition
    | NeedYourSegmentLength
    | MySegmentLengthIsReady
    | ThisIsMySegmentLength
    | UpdateYourEstimate
    | AmITheManager                     // "amITheManagerOfThisPoint?"
    | PositionToFindShortestPath        // "thisIsMyIntervalPositionToFindShortestPath"
    | AreYouTheManager                  // "areYouTheManagerOfThisPoint?"
    | ManagerIndexIs
    | JoinNetwork
    | LeaveNetwork
    | YouMustRelink
    | Unknown

  datatype Message = Message(kind: Kind, fields: ModPacket.Fields)

  /** A message sent by member `from` on its output gate `gate`, or scheduled by member `at` to itself. */
  datatype Emission = Send(from: nat, gate: nat, msg: Message) | Schedule(at: nat, msg: Message)

  /** How handling a message ended: normally, or with a simulator runtime error. */
  datatype Outcome = Done | Fault(reason: string)

  /** The protocol a member runs the routing for: NONE, RELINK or JOIN. */
  datatype Protocol = NoProtocol | Relinking | Joining

  function Fresh(kind: Kind): Message {
    Message(kind, ModPacket.Blank)
  }

  /** calculateSegmentLength: ask the predecessor, on gate 0, for its position. */
  function PositionQuery(id: nat): Emission {
    Send(id, 0, Fresh(NeedYourIntervalPosition))
  }

  /** calculateNEstimate: a segment-length query on each short link, then the position query. */
  function EstimateQueries(id: nat): seq<Emission> {
    [Send(id, 0, Fresh(NeedYourSegmentLength)), Send(id, 1, Fresh(NeedYourSegmentLength)), PositionQuery(id)]
  }

  /** routingProtocol: the position query, and the manager question for the point scheduled to itself. */
  function RoutingStart(id: nat, point: real): seq<Emission> {
    [PositionQuery(id), Schedule(id, Message(AmITheManager, ModPacket.Blank.(x := point)))]
  }

  /** The estimate sent back to both short-link neighbours, in copies of the triggering reply. */
  function EstimateUpdates(id: nat, request: Message, estimate: int): seq<Emission> {
    var m := Message(UpdateYourEstimate, request.fields.(nEstimate := estimate as real));
    [Send(id, 0, m), Send(id, 1, m)]
  }

  /** broadcastOnLongLinks from gate i on: a copy of msg on every connected gate of the row, in index order. */
  function LongLinkSends(row: Row, id: nat, msg: Message, i: nat): (r: seq<Emission>)
    decreases |row| - i
  {
    if i >= |row| then []
    else (if row[i].Some? then [Send(id, i, msg)] else []) + LongLinkSends(row, id, msg, i + 1)
  }

  /** The broadcast reaches exactly the connected gates at index i or above, each once. */
  lemma {:induction false} LongLinkSendsExactly(row: Row, id: nat, msg: Message, i: nat)
    ensures forall e :: e in LongLinkSends(row, id, msg, i) <==>
      e.Send? && e.from == id && e.msg == msg && i <= e.gate < |row| && row[e.gate].Some?
    ensures i <= |row| ==> |LongLinkSends(row, id, msg, i)| == CountConnected(row, |row|) - CountConnected(row, i)
    decreases |row| - i
  {
    if i < |row| {
      LongLinkSendsExactly(row, id, msg, i + 1);
    }
  }

  // ---- The relink batch counter ----

  /**
   * One long link completed (created, or skipped because this member manages the point
   * itself): count it, and relink again while fewer than K are done; at K the count
   * restarts from 0. The result is the new count and whether to relink.
   */
  function CountLongLink(created: nat, K: nat): (r: (nat, bool))
    ensures r.1 <==> created + 1 < K
    ensures r.1 ==> r.0 == created + 1
    ensures !r.1 ==> r.0 == 0
  {
    if created + 1 < K then (created + 1, true) else (0, false)
  }

  /** Between batches and inside one, the count stays below K (it is 0 when K is 0). */
  predicate CounterInRange(created: nat, K: nat) {
    created == 0 || created < K
  }

  lemma CountKeepsRange(created: nat, K: nat)
    requires CounterInRange(created, K)
    ensures CounterInRange(CountLongLink(created, K).0, K)
  {
  }

  /** The count after n completions starting from `created`. */
  function CountAfter(created: nat, K: nat, n: nat): nat {
    if n == 0 then created else CountLongLink(CountAfter(created, K, n - 1), K).0
  }

  /**
   * A batch starting from 0 runs for exactly K completions (one when K is 0): the first
   * K - 1 of them relink and leave the count at their number, the K-th restarts it at 0.
   */
  lemma {:induction false} BatchOfK(K: nat, n: nat)
    requires n < K
    ensures CountAfter(0, K, n) == n
    ensures n + 1 < K ==> CountLongLink(CountAfter(0, K, n), K).1
    ensures n + 1 == K ==> CountAfter(0, K, n + 1) == 0 && !CountLongLink(CountAfter(0, K, n), K).1
  {
    if n > 0 {
      BatchOfK(K, n - 1);
    }
  }

  // ---- The shared wiring ----

  /** Whether createLongLinkToMember links a to m: m has a free gate, is not yet a neighbour of a and is not a. */
  predicate CanLink(t: Table, a: nat, m: nat)
    requires a < |t| && m < |t|
  {
    (exists j :: 0 <= j < |t[m]| && t[m][j].None?) &&
    !(exists i :: 0 <= i < |t[a]| && LinksTo(t[a], i, m)) &&
    m != a
  }

  /**
   * A member with all 2 + K gates connected and K > 0 has a long link to give up, and a
   * member m with a free gate still has one after that link is cut.
   */
  lemma EvictionSucceeds(t: Table, size: nat, a: nat, m: nat, freeSlot: nat)
    requires Shaped(t, size) && Symmetric(t) && size > 2 && a < |t| && m < |t|
    requires CountConnected(t[a], size) == size && freeSlot < size && t[m][freeSlot].None?
    ensures LastConnectedFrom(t[a], 2).Some?
    ensures FirstFree(Disconnect(t, a, LastConnectedFrom(t[a], 2).value)[m]).Some?
  {
    assert t[a][size - 1].Some?;
    var g := LastConnectedFrom(t[a], 2).value;
    DisconnectSpec(t, size, a, g);
    assert Disconnect(t, a, g)[m][freeSlot].None?;
  }

  /**
   * The wiring after createLongLinkToMember links member a to a member m it may link to:
   * while a has fewer than 2 + K neighbours, a's first free gate is linked to m's first free
   * gate; otherwise a's last connected long link is cut and that gate is linked to m's first
   * free gate after the cut. None when K = 0 and every gate of a is connected, as a then
   * has no long link to give up.
   */
  function LongLinkWiring(t: Table, K: nat, a: nat, m: nat): (r: Option<Table>)
    requires Shaped(t, 2 + K) && Symmetric(t) && a < |t| && m < |t| && CanLink(t, a, m)
    ensures r.None? <==> K == 0 && CountConnected(t[a], 2 + K) == 2 + K
  {
    if CountConnected(t[a], 2 + K) < 2 + K then
      Some(Connect(t, a, FirstFree(t[a]).value, m, FirstFree(t[m]).value))
    else if K == 0 then None
    else
      var freeSlot :| 0 <= freeSlot < |t[m]| && t[m][freeSlot].None?;
      EvictionSucceeds(t, 2 + K, a, m, freeSlot);
      var g := LastConnectedFrom(t[a], 2).value;
      var cut := Disconnect(t, a, g);
      Some(Connect(cut, a, g, m, FirstFree(cut[m]).value))
  }

  /**
   * Below 2 + K neighbours the new link joins the first free gates of a and m, and no
   * other gate changes.
   */
  lemma LongLinkByFreeGate(t: Table, K: nat, a: nat, m: nat)
    requires Shaped(t, 2 + K) && Symmetric(t) && a < |t| && m < |t| && CanLink(t, a, m)
    requires CountConnected(t[a], 2 + K) < 2 + K
    ensures FirstFree(t[a]).Some? && FirstFree(t[m]).Some?
    ensures var r := LongLinkWiring(t, K, a, m).value;
      var i := FirstFree(t[a]).value; var j := FirstFree(t[m]).value;
      Shaped(r, 2 + K) && Symmetric(r) && |r| == |t| &&
      r[a][i] == Some(Endpoint(m, j)) && r[m][j] == Some(Endpoint(a, i)) &&
      forall c, k :: 0 <= c < |t| && 0 <= k < 2 + K && (c, k) != (a, i) && (c, k) != (m, j) ==> r[c][k] == t[c][k]
  {
    var i := FirstFree(t[a]).value;
    var j := FirstFree(t[m]).value;
    ConnectSpec(t, 2 + K, a, i, m, j);
  }

  /**
   * With every gate connected and K > 0, the last long link g of a is given up: its far
   * end is freed (unless g was wired to itself), g is linked to the first free gate of m after the cut, and no other
   * gate changes.
   */
  lemma LongLinkByEviction(t: Table, K: nat, a: nat, m: nat)
    requires Shaped(t, 2 + K) && Symmetric(t) && a < |t| && m < |t| && CanLink(t, a, m)
    requires K > 0 && CountConnected(t[a], 2 + K) == 2 + K
    ensures LastConnectedFrom(t[a], 2).Some?
    ensures var g := LastConnectedFrom(t[a], 2).value; FirstFree(Disconnect(t, a, g)[m]).Some?
    ensures var r := LongLinkWiring(t, K, a, m).value;
      var g := LastConnectedFrom(t[a], 2).value; var e := t[a][g].value;
      var j := FirstFree(Disconnect(t, a, g)[m]).value;
      Shaped(r, 2 + K) && Symmetric(r) && |r| == |t| && 2 <= g &&
      r[a][g] == Some(Endpoint(m, j)) && r[m][j] == Some(Endpoint(a, g)) &&
      e.node != m && (e != Endpoint(a, g) ==> r[e.node][e.slot].None?) &&
      forall c, k :: 0 <= c < |t| && 0 <= k < 2 + K && (c, k) != (a, g) && (c, k) != (m, j) && (c, k) != (e.node, e.slot) ==>
        r[c][k] == t[c][k]
  {
    var freeSlot :| 0 <= freeSlot < |t[m]| && t[m][freeSlot].None?;
    EvictionSucceeds(t, 2 + K, a, m, freeSlot);
    var g := LastConnectedFrom(t[a], 2).value;
    assert !LinksTo(t[a], g, m);
    var j := FirstFree(Disconnect(t, a, g)[m]).value;
    assert LongLinkWiring(t, K, a, m).value == Connect(Disconnect(t, a, g), a, g, m, j);
    var _ := CutThenConnect(t, 2 + K, a, g, m, j);
  }

  /**
   * Cutting the link on gate g of a and linking g to a free gate j of another member m
   * changes exactly three gates: both ends of the new link and the far end of the old one.
   */
  lemma CutThenConnect(t: Table, size: nat, a: nat, g: nat, m: nat, j: nat) returns (r: Table)
    requires Shaped(t, size) && Symmetric(t) && a < |t| && m < |t| && a != m
    requires g < size && j < size && t[a][g].Some? && t[a][g].value.node != m
    requires Disconnect(t, a, g)[m][j].None?
    ensures r == Connect(Disconnect(t, a, g), a, g, m, j)
    ensures var e := t[a][g].value;
      Shaped(r, size) && Symmetric(r) && |r| == |t| &&
      r[a][g] == Some(Endpoint(m, j)) && r[m][j] == Some(Endpoint(a, g)) &&
      (e != Endpoint(a, g) ==> r[e.node][e.slot].None?) &&
      forall c, k :: 0 <= c < |t| && 0 <= k < size && (c, k) != (a, g) && (c, k) != (m, j) && (c, k) != (e.node, e.slot) ==>
        r[c][k] == t[c][k]
  {
    var e: Endpoint := t[a][g].value;
    var cut: Table := Disconnect(t, a, g);
    DisconnectSpec(t, size, a, g);
    assert cut[a][g].None? && (e != Endpoint(a, g) ==> cut[e.node][e.slot].None?);
    ConnectSpec(cut, size, a, g, m, j);
    r := Connect(cut, a, g, m, j);
    forall c: nat, k: nat | c < |t| && k < size && (c, k) != (a, g) && (c, k) != (m, j) && (c, k) != (e.node, e.slot)
      ensures r[c][k] == t[c][k]
    {
      assert r[c][k] == cut[c][k];
    }
  }

  /** The simulator's state shared by the members: every member has 2 + K gates. */
  class Overlay {
    const K: nat
    var gates: Table
    var outbox: seq<Emission>

    /** The wiring has 2 + K gates per member and consists of link pairs. */
    ghost predicate Valid()
      reads this
    {
      Shaped(gates, 2 + K) && Symmetric(gates)
    }

    constructor (k: nat, wiring: Table)
      requires Shaped(wiring, 2 + k) && Symmetric(wiring)
      ensures K == k && gates == wiring && outbox == [] && Valid()
    {
      K := k;
      gates := wiring;
      outbox := [];
    }

    /** Emit one message. */
    method Emit(e: Emission)
      modifies this
      ensures outbox == old(outbox) + [e] && gates == old(gates)
    {
      outbox := outbox + [e];
    }

    /** disconnectGate on gate i of member a: both halves of its link are removed. */
    method DisconnectGate(a: nat, i: nat)
      requires Valid() && a < |gates| && i < 2 + K && gates[a][i].Some?
      modifies this
      ensures Valid() && gates == Disconnect(old(gates), a, i) && outbox == old(outbox)
      ensures var e := old(gates)[a][i].value;
        gates[a][i].None? && gates[e.node][e.slot].None? &&
        forall b, j :: 0 <= b < |gates| && 0 <= j < 2 + K && (b, j) != (a, i) && (b, j) != (e.node, e.slot) ==>
          gates[b][j] == old(gates)[b][j]
    {
      DisconnectSpec(gates, 2 + K, a, i);
      gates := Disconnect(gates, a, i);
    }

    /** The two connectTo calls of a link between two distinct free gates. */
    method Link(a: nat, i: nat, b: nat, j: nat)
      requires Valid() && a < |gates| && b < |gates| && i < 2 + K && j < 2 + K && (a, i) != (b, j)
      requires gates[a][i].None? && gates[b][j].None?
      modifies this
      ensures Valid() && gates == Connect(old(gates), a, i, b, j) && outbox == old(outbox)
      ensures gates[a][i] == Some(Endpoint(b, j)) && gates[b][j] == Some(Endpoint(a, i))
    {
      ConnectSpec(gates, 2 + K, a, i, b, j);
      gates := Connect(gates, a, i, b, j);
    }

    /** dropAllLongLinks for member a: its gates from index 2 on, in order. */
    method DropAllLongLinks(a: nat)
      requires Valid() && a < |gates|
      modifies this
      ensures Valid() && gates == DropFrom(old(gates), a, 2) && outbox == old(outbox)
    {
      var i := 2;
      while i < 2 + K
        invariant 2 <= i <= 2 + K
        invariant Valid() && |gates| == |old(gates)| && outbox == old(outbox)
        invariant DropFrom(gates, a, i) == DropFrom(old(gates), a, 2)
      {
        if gates[a][i].Some? {
          DisconnectGate(a, i);
        }
        i := i + 1;
      }
    }

    /**
     * createLongLinkByFirstUnconnectedGate: link the first free gate of a to the first free
     * gate of m. It fails when either has none, or when a is m (the second connectTo finds
     * the gate the first one connected).
     */
    method LinkByFirstUnconnectedGate(a: nat, m: nat) returns (outcome: Outcome)
      requires Valid() && a < |gates| && m < |gates|
      modifies this
      ensures outcome.Fault? <==> FirstFree(old(gates)[a]).None? || FirstFree(old(gates)[m]).None? || a == m
      ensures outcome.Done? ==>
        var i := FirstFree(old(gates)[a]).value; var j := FirstFree(old(gates)[m]).value;
        gates == Connect(old(gates), a, i, m, j) && gates[a][i] == Some(Endpoint(m, j))
      ensures outcome.Fault? ==> gates == old(gates)
      ensures Valid() && outbox == old(outbox)
    {
      var i := FirstUnconnectedGate(gates[a]);
      var j := FirstUnconnectedGate(gates[m]);
      if i.None? || j.None? {
        return Fault("no unconnected gate");
      }
      if a == m {
        return Fault("gate already connected");
      }
      Link(a, i.value, m, j.value);
      return Done;
    }

    /**
     * createLongLinkDisconnectingLastConnectedGate: free the last connected long-link gate
     * of a and link it to the first free gate of m. It fails when a has no connected long
     * link (a null gate) or m has no free gate after the cut.
     */
    method LinkByLastConnectedGate(a: nat, m: nat) returns (outcome: Outcome)
      requires Valid() && a < |gates| && m < |gates|
      modifies this
      ensures LastConnectedFrom(old(gates)[a], 2).None? ==> outcome.Fault? && gates == old(gates)
      ensures LastConnectedFrom(old(gates)[a], 2).Some? ==>
        var g := LastConnectedFrom(old(gates)[a], 2).value;
        var cut := Disconnect(old(gates), a, g);
        (outcome.Fault? <==> FirstFree(cut[m]).None? || (a == m && FirstFree(cut[m]) == Some(g))) &&
        (outcome.Done? ==>
          var j := FirstFree(cut[m]).value;
          gates == Connect(cut, a, g, m, j) && gates[a][g] == Some(Endpoint(m, j)))
      ensures Valid() && outbox == old(outbox)
    {
      var g := LastConnectedGate(gates[a]);
      if g.None? {
        return Fault("no connected long link");
      }
      DisconnectGate(a, g.value);
      var j := FirstUnconnectedGate(gates[m]);
      if j.None? {
        return Fault("no unconnected gate");
      }
      if a == m && j.value == g.value {
        return Fault("gate already connected");
      }
      Link(a, g.value, m, j.value);
      return Done;
    }

    /**
     * The linking part of createLongLinkToMember, for a member m that it links to: through
     * a's first free gate while a has fewer than 2 + K neighbours, and else through its last
     * long link, cut first (LongLinkWiring). With K = 0 a full member has no long link to
     * give up, and the call fails.
     */
    method LinkToMember(a: nat, m: nat) returns (outcome: Outcome)
      requires Valid() && a < |gates| && m < |gates| && CanLink(gates, a, m)
      modifies this
      ensures Valid() && |gates| == |old(gates)| && outbox == old(outbox)
      ensures outcome.Fault? <==> LongLinkWiring(old(gates), K, a, m).None?
      ensures outcome.Done? ==> gates == LongLinkWiring(old(gates), K, a, m).value
      ensures outcome.Fault? ==> gates == old(gates)
    {
      var count := NeighboursNumber(gates[a]);
      if count < 2 + K {
        outcome := LinkByFirstUnconnectedGate(a, m);
      } else {
        ghost var freeSlot: nat :| freeSlot < |gates[m]| && gates[m][freeSlot].None?;
        if K > 0 {
          EvictionSucceeds(gates, 2 + K, a, m, freeSlot);
        }
        outcome := LinkByLastConnectedGate(a, m);
      }
    }

    /**
     * createLongLinkToMember(m) for member a: fails for an index that names no member, does
     * nothing when m is a, is already linked to a or has no free gate, and links otherwise.
     */
    method CreateLongLinkToMember(a: nat, m: int) returns (outcome: Outcome)
      requires Valid() && a < |gates|
      modifies this
      ensures Valid() && |gates| == |old(gates)| && outbox == old(outbox)
      ensures !(0 <= m < |old(gates)|) ==> outcome.Fault? && gates == old(gates)
      ensures 0 <= m < |old(gates)| && !CanLink(old(gates), a, m) ==> outcome.Done? && gates == old(gates)
      ensures 0 <= m < |old(gates)| && CanLink(old(gates), a, m) ==>
        (outcome.Fault? <==> LongLinkWiring(old(gates), K, a, m).None?) &&
        (outcome.Done? ==> gates == LongLinkWiring(old(gates), K, a, m).value)
      ensures outcome.Fault? ==> gates == old(gates)
    {
      if !(0 <= m < |gates|) {
        return Fault("no such member");
      }
      var free := HasAvailableConnections(gates[m]);
      var linked := AlreadyConnected(gates[a], m);
      if !(free && !linked && m != a) {
        return Done;
      }
      outcome := LinkToMember(a, m);
    }

    /**
     * addNodeWithSpecificIntervalPosition: cut the link between the manager and its
     * predecessor and put the joiner between them. It fails on a null gate (no manager, or
     * its gate 0 unconnected) and on a connectTo to a gate already in use.
     */
    method AddNodeWithSpecificIntervalPosition(joiner: nat, manager: int) returns (outcome: Outcome)
      requires Valid() && joiner < |gates|
      modifies this
      ensures Valid() && |gates| == |old(gates)| && outbox == old(outbox)
      ensures outcome.Done? <==> CanJoin(old(gates), 2 + K, joiner, manager)
      ensures outcome.Done? ==>
        var pred := old(gates)[manager][0].value.node;
        gates == Ring.JoinSplice(old(gates), joiner, manager) &&
        gates[pred][1] == Some(Endpoint(joiner, 0)) && gates[joiner][0] == Some(Endpoint(pred, 1)) &&
        gates[joiner][1] == Some(Endpoint(manager, 0)) && gates[manager][0] == Some(Endpoint(joiner, 1))
    {
      if !(0 <= manager < |gates|) || gates[manager][0].None? {
        return Fault("null gate");
      }
      var pred := gates[manager][0].value.node;
      DisconnectGate(manager, 0);
      if joiner == manager || joiner == pred || gates[joiner][0].Some? || gates[joiner][1].Some? || gates[pred][1].Some? {
        return Fault("gate already connected");
      }
      Link(joiner, 0, pred, 1);
      Link(manager, 0, joiner, 1);
      return Done;
    }

    /**
     * The splice of the leave branch: both short links of member n are cut and its
     * predecessor's gate 1 is linked to its successor's gate 0. It fails on a null gate and
     * on a connectTo to a gate already in use.
     */
    method LeaveSplice(n: nat) returns (outcome: Outcome)
      requires Valid() && n < |gates|
      modifies this
      ensures Valid() && |gates| == |old(gates)| && outbox == old(outbox)
      ensures outcome.Done? <==> Ring.LeaveSplice(old(gates), n).Some?
      ensures outcome.Done? ==> gates == Ring.LeaveSplice(old(gates), n).value
    {
      if gates[n][0].None? || gates[n][1].None? {
        return Fault("null gate");
      }
      var prev := gates[n][0].value.node;
      var next := gates[n][1].value.node;
      DisconnectGate(n, 0);
      if gates[n][1].None? {
        return Fault("null gate");
      }
      DisconnectGate(n, 1);
      if gates[prev][1].Some? || gates[next][0].Some? {
        return Fault("gate already connected");
      }
      Link(prev, 1, next, 0);
      return Done;
    }

    /** broadcastOnLongLinks: a copy of msg on every connected gate of member a from index 2 on. */
    method BroadcastOnLongLinks(a: nat, msg: Message)
      requires Valid() && a < |gates|
      modifies this
      ensures gates == old(gates) && outbox == old(outbox) + LongLinkSends(gates[a], a, msg, 2)
    {
      var i := 2;
      while i < 2 + K
        invariant 2 <= i <= 2 + K && gates == old(gates)
        invariant outbox + LongLinkSends(gates[a], a, msg, i) == old(outbox) + LongLinkSends(gates[a], a, msg, 2)
      {
        ghost var rest := LongLinkSends(gates[a], a, msg, i + 1);
        if gates[a][i].Some? {
          assert LongLinkSends(gates[a], a, msg, i) == [Send(a, i, msg)] + rest;
          Emit(Send(a, i, msg));
        }
        i := i + 1;
      }
    }
  }

  /**
   * Whether addNodeWithSpecificIntervalPosition(joiner, manager) succeeds: the manager
   * exists and has a predecessor, the joiner is neither of the two, and once the
   * manager's predecessor link is cut the joiner's short links and the predecessor's gate 1
   * are free.
   */
  ghost predicate CanJoin(t: Table, size: nat, joiner: nat, manager: int)
    requires Shaped(t, size) && Symmetric(t) && size >= 2 && joiner < |t|
  {
    0 <= manager < |t| && t[manager][0].Some? &&
    var pred := t[manager][0].value.node;
    var cut := Disconnect(t, manager, 0);
    joiner != manager && joiner != pred &&
    cut[joiner][0].None? && cut[joiner][1].None? && cut[pred][1].None?
  }

  /**
   * Gate g of member a is connected, and gate `back` of the member at its other end is
   * connected to a: a reply sent there reaches a.
   */
  ghost predicate ReturnsThrough(t: Table, a: nat, g: int, back: int)
    requires a < |t|
  {
    0 <= g < |t[a]| && t[a][g].Some? && t[a][g].value.node < |t| &&
    0 <= back < |t[t[a][g].value.node]| && LinksTo(t[t[a][g].value.node], back, a)
  }

  /**
   * getBestNeighbourIndex followed by getReverseGateIndexByGateIndex: the best neighbour of
   * member a for point y, and the gate of that neighbour leading back to a (none when a has
   * no neighbour at all).
   */
  method ChooseForward(t: Table, size: nat, a: nat, xs: seq<real>, y: real)
    returns (best: int, distance: real, back: Option<int>)
    requires Shaped(t, size) && Symmetric(t) && a < |t| && |xs| == |t|
    requires NeighboursPlaced(t[a], xs) && Geometry.IsPoint(y)
    ensures IsBestNeighbour(t[a], xs, y, best, distance)
    ensures back.None? <==> best == -1
    ensures back.Some? ==> ReturnsThrough(t, a, best, back.value)
  {
    best, distance := BestNeighbourIndex(t[a], xs, y);
    back := ReverseGate(t, size, a, best);
  }

  /** getReverseGateIndexByGateIndex in a wiring of link pairs: none for an unconnected gate g. */
  method ReverseGate(t: Table, size: nat, a: nat, g: int) returns (back: Option<int>)
    requires Shaped(t, size) && Symmetric(t) && a < |t|
    ensures back == ReverseGateIndex(t, a, g)
    ensures back.None? <==> !(0 <= g < |t[a]| && t[a][g].Some?)
    ensures back.Some? ==> ReturnsThrough(t, a, g, back.value)
  {
    back := ReverseGateIndex(t, a, g);
    if back.Some? {
      ReverseGateLeadsBack(t, a, g);
    }
  }

  /** areYouTheManager sent on gate g, carrying the point and the routing list grown by `back`. */
  function AskForward(id: nat, g: nat, request: Message, back: int): Emission {
    Send(id, g, Message(AreYouTheManager, request.fields.(routingList := request.fields.routingList + [back])))
  }

  /**
   * The areYouTheManager question member a sends on its gate g: the routing list of
   * `request` grown by the gate of the neighbour that leads back to a. None when gate g is
   * not connected, where getReverseGateIndexByGateIndex fails.
   */
  method AskThrough(t: Table, size: nat, a: nat, g: int, request: Message) returns (ask: Option<Emission>)
    requires Shaped(t, size) && Symmetric(t) && a < |t|
    ensures ask.None? <==> !(0 <= g < |t[a]| && t[a][g].Some?)
    ensures ask.Some? ==> 0 <= g && exists back :: ReturnsThrough(t, a, g, back) && ask.value == AskForward(a, g, request, back)
  {
    var rev := ReverseGate(t, size, a, g);
    if rev.None? {
      return None;
    }
    RoutingList.PushPop(request.fields.routingList, rev.value);
    var fields := request.fields.(routingList := RoutingList.Push(request.fields.routingList, rev.value));
    ask := Some(Send(a, g, Message(AreYouTheManager, fields)));
    assert ReturnsThrough(t, a, g, rev.value) && ask.value == AskForward(a, g, request, rev.value);
  }

  // ---- The member ----

  class Member {
    const id: nat
    var x: real
    var segmentLength: real
    var nEstimate: int
    var nEstimateAtLinking: int
    var runningProtocol: Protocol
    var neighboursTotalSegmentsLengths: real
    var receivedSegments: int
    var randomPoint: real
    var bestDistanceFoundSoFar: real
    var gateIndexToClosestNode: int
    var repliesToFindShortestPath: int
    var longLinksCreated: nat

    function Accumulator(): Estimation.Accumulator
      reads this
    {
      Estimation.Accumulator(neighboursTotalSegmentsLengths, receivedSegments)
    }

    /** Between events at most one segment reply is counted and the relink count is below K. */
    predicate Valid(K: nat)
      reads this
    {
      Estimation.Waiting(Accumulator()) && CounterInRange(longLinksCreated, K)
    }

    /** The position, the segment, the estimates and the segment accumulator are as before. */
    twostate predicate SameEstimation()
      reads this
    {
      x == old(x) && segmentLength == old(segmentLength) && nEstimate == old(nEstimate) &&
      nEstimateAtLinking == old(nEstimateAtLinking) && Accumulator() == old(Accumulator())
    }

    /** The state of the greedy search is as before. */
    twostate predicate SameSearch()
      reads this
    {
      randomPoint == old(randomPoint) && bestDistanceFoundSoFar == old(bestDistanceFoundSoFar) &&
      gateIndexToClosestNode == old(gateIndexToClosestNode) && repliesToFindShortestPath == old(repliesToFindShortestPath)
    }

    /**
     * A long link of a RELINK was counted: position, segment, estimate, accumulator and search
     * are as before; the count moves on, and while below K a new search starts in RELINK with
     * the current estimate as the estimate at linking; at K the batch ends and the estimate at
     * linking and the protocol are as before.
     */
    twostate predicate LongLinkCounted(K: nat)
      reads this
    {
      x == old(x) && segmentLength == old(segmentLength) && nEstimate == old(nEstimate) &&
      Accumulator() == old(Accumulator()) && SameSearch() &&
      longLinksCreated == CountLongLink(old(longLinksCreated), K).0 &&
      (CountLongLink(old(longLinksCreated), K).1 ==> nEstimateAtLinking == old(nEstimate) && runningProtocol == Relinking) &&
      (!CountLongLink(old(longLinksCreated), K).1 ==>
         nEstimateAtLinking == old(nEstimateAtLinking) && runningProtocol == old(runningProtocol))
    }

    /** The protocol and the relink count are as before. */
    twostate predicate SameProtocol()
      reads this
    {
      runningProtocol == old(runningProtocol) && longLinksCreated == old(longLinksCreated)
    }

    /**
     * initialize: member `index` of the `connected` members of the starting ring sits at
     * index / connected and estimates the size as `connected`; a member outside the ring
     * schedules its joinNetwork.
     */
    constructor (index: nat, connected: nat, net: Overlay)
      requires connected > 0
      modifies net
      ensures id == index && Valid(net.K)
      ensures x == index as real / connected as real && segmentLength == 0.0
      ensures nEstimate == connected && nEstimateAtLinking == connected && runningProtocol == NoProtocol
      ensures Accumulator() == Estimation.Reset && bestDistanceFoundSoFar == Unreached
      ensures repliesToFindShortestPath == 0 && longLinksCreated == 0
      ensures net.gates == old(net.gates)
      ensures net.outbox == old(net.outbox) + if index >= connected then [Schedule(index, Fresh(JoinNetwork))] else []
    {
      id := index;
      x := index as real / connected as real;
      segmentLength := 0.0;
      nEstimate := connected;
      nEstimateAtLinking := connected;
      runningProtocol := NoProtocol;
      neighboursTotalSegmentsLengths := 0.0;
      receivedSegments := 0;
      randomPoint := 0.0;
      bestDistanceFoundSoFar := Unreached;
      gateIndexToClosestNode := 0;
      repliesToFindShortestPath := 0;
      longLinksCreated := 0;
      new;
      if index >= connected {
        net.Emit(Schedule(index, Fresh(JoinNetwork)));
      }
    }

    /** calculateSegmentLength: the position query on gate 0. */
    method CalculateSegmentLength(net: Overlay)
      modifies net
      ensures net.outbox == old(net.outbox) + [PositionQuery(id)] && net.gates == old(net.gates)
    {
      net.Emit(PositionQuery(id));
    }

    /** calculateNEstimate: exactly the three queries. */
    method CalculateNEstimate(net: Overlay)
      modifies net
      ensures net.outbox == old(net.outbox) + EstimateQueries(id) && net.gates == old(net.gates)
    {
      var i := 0;
      while i < 2
        invariant 0 <= i <= 2 && net.gates == old(net.gates)
        invariant net.outbox == old(net.outbox) + EstimateQueries(id)[..i]
      {
        net.Emit(Send(id, i, Fresh(NeedYourSegmentLength)));
        i := i + 1;
      }
      CalculateSegmentLength(net);
    }

    /** routingProtocol: record the protocol, then the position query and the scheduled manager question. */
    method RoutingProtocol(net: Overlay, point: real, protocol: Protocol)
      modifies this, net
      ensures runningProtocol == protocol && longLinksCreated == old(longLinksCreated)
      ensures SameEstimation() && SameSearch()
      ensures net.outbox == old(net.outbox) + RoutingStart(id, point) && net.gates == old(net.gates)
    {
      runningProtocol := protocol;
      CalculateSegmentLength(net);
      net.Emit(Schedule(id, Message(AmITheManager, ModPacket.Blank.(x := point))));
    }

    /**
     * relink: remember the estimate the links are made for, drop every long link when a new
     * batch starts (count 0), and route towards the sampled point for RELINK.
     */
    method Relink(net: Overlay, sample: real)
      requires net.Valid() && id < |net.gates|
      modifies this, net
      ensures net.Valid() && |net.gates| == |old(net.gates)|
      ensures nEstimateAtLinking == old(nEstimate) && runningProtocol == Relinking
      ensures x == old(x) && segmentLength == old(segmentLength) && nEstimate == old(nEstimate)
      ensures Accumulator() == old(Accumulator()) && longLinksCreated == old(longLinksCreated) && SameSearch()
      ensures net.gates == if old(longLinksCreated) == 0 then DropFrom(old(net.gates), id, 2) else old(net.gates)
      ensures net.outbox == old(net.outbox) + RoutingStart(id, sample)
    {
      nEstimateAtLinking := nEstimate;
      if longLinksCreated == 0 {
        net.DropAllLongLinks(id);
      }
      RoutingProtocol(net, sample, Relinking);
    }

    /**
     * The relink counter after a long link is done: count it, relink while fewer than K
     * are done (the count is then not 0, so no link is dropped), and restart the count at K.
     */
    method CompleteLongLink(net: Overlay, sample: real)
      requires net.Valid() && id < |net.gates| && Valid(net.K)
      modifies this, net
      ensures net.Valid() && Valid(net.K) && net.gates == old(net.gates)
      ensures longLinksCreated == CountLongLink(old(longLinksCreated), net.K).0
      ensures x == old(x) && segmentLength == old(segmentLength) && nEstimate == old(nEstimate)
      ensures Accumulator() == old(Accumulator()) && SameSearch()
      ensures CountLongLink(old(longLinksCreated), net.K).1 ==>
        nEstimateAtLinking == old(nEstimate) && runningProtocol == Relinking &&
        net.outbox == old(net.outbox) + RoutingStart(id, sample)
      ensures !CountLongLink(old(longLinksCreated), net.K).1 ==>
        nEstimateAtLinking == old(nEstimateAtLinking) && runningProtocol == old(runningProtocol) &&
        net.outbox == old(net.outbox)
    {
      CountKeepsRange(longLinksCreated, net.K);
      longLinksCreated := longLinksCreated + 1;
      if longLinksCreated < net.K {
        Relink(net, sample);
      } else {
        longLinksCreated := 0;
      }
    }

    /** needYourIntervalPosition...: reply with a copy of the request carrying this member's position. */
    method OnNeedYourIntervalPosition(net: Overlay, back: int, request: Message) returns (outcome: Outcome)
      modifies net
      ensures outcome.Done? <==> 0 <= back < 2 + net.K
      ensures outcome.Done? ==> net.outbox == old(net.outbox) + [Send(id, back, Message(ThisIsMyIntervalPosition, request.fields.(x := x)))]
      ensures outcome.Fault? ==> net.outbox == old(net.outbox)
      ensures net.gates == old(net.gates)
    {
      if !(0 <= back < 2 + net.K) {
        return Fault("no gate leads back to the sender");
      }
      net.Emit(Send(id, back, Message(ThisIsMyIntervalPosition, request.fields.(x := x))));
      return Done;
    }

    /** thisIsMyIntervalPosition: the segment length from the predecessor's position; nothing is sent. */
    method OnThisIsMyIntervalPosition(request: Message)
      modifies this
      ensures segmentLength == Geometry.SegmentLength(request.fields.x, x)
      ensures x == old(x) && nEstimate == old(nEstimate) && nEstimateAtLinking == old(nEstimateAtLinking)
      ensures Accumulator() == old(Accumulator()) && SameSearch() && SameProtocol()
    {
      segmentLength := Geometry.SegmentLength(request.fields.x, x);
    }

    /** needYourSegmentLength: the position query, and the answer scheduled with the gate back to the asker. */
    method OnNeedYourSegmentLength(net: Overlay, back: int, request: Message)
      modifies net
      ensures net.outbox == old(net.outbox) +
        [PositionQuery(id), Schedule(id, Message(MySegmentLengthIsReady, request.fields.(toSenderGateIndex := back)))]
      ensures net.gates == old(net.gates)
    {
      CalculateSegmentLength(net);
      net.Emit(Schedule(id, Message(MySegmentLengthIsReady, request.fields.(toSenderGateIndex := back))));
    }

    /**
     * mySegmentLengthIsReady: send the segment length on the remembered gate; a gate out of
     * range, or one that a relink has cut since it was remembered, is a fault.
     */
    method OnMySegmentLengthIsReady(net: Overlay, request: Message) returns (outcome: Outcome)
      requires net.Valid() && id < |net.gates|
      modifies net
      ensures outcome.Done? <==>
        0 <= request.fields.toSenderGateIndex < 2 + net.K && old(net.gates)[id][request.fields.toSenderGateIndex].Some?
      ensures outcome.Done? ==>
        net.outbox == old(net.outbox) + [Send(id, request.fields.toSenderGateIndex,
          Message(ThisIsMySegmentLength, request.fields.(segmentLength := segmentLength)))]
      ensures outcome.Fault? ==> net.outbox == old(net.outbox)
      ensures net.gates == old(net.gates)
    {
      var g := request.fields.toSenderGateIndex;
      if !(0 <= g < 2 + net.K) {
        return Fault("gate index out of range");
      }
      if net.gates[id][g].None? {
        return Fault("gate not connected");
      }
      net.Emit(Send(id, g, Message(ThisIsMySegmentLength, request.fields.(segmentLength := segmentLength))));
      return Done;
    }

    /**
     * thisIsMySegmentLength, the estimate part: add the reply; on the second one store the
     * truncated estimate, reset the accumulator and send the estimate on both short links.
     */
    method AddSegmentReply(net: Overlay, request: Message) returns (outcome: Outcome, fired: bool)
      requires Valid(net.K)
      modifies this, net
      ensures fired == Estimation.Fires(old(Accumulator()))
      ensures outcome.Fault? <==>
        fired && old(neighboursTotalSegmentsLengths) + request.fields.segmentLength + segmentLength == 0.0
      ensures outcome.Fault? ==> net.outbox == old(net.outbox)
      ensures outcome.Done? ==>
        var step := Estimation.SegmentReply(old(Accumulator()), segmentLength, request.fields.segmentLength);
        Valid(net.K) && Accumulator() == step.0 &&
        (fired ==> nEstimate == step.1.value && net.outbox == old(net.outbox) + EstimateUpdates(id, request, nEstimate)) &&
        (!fired ==> nEstimate == old(nEstimate) && net.outbox == old(net.outbox))
      ensures x == old(x) && segmentLength == old(segmentLength) && nEstimateAtLinking == old(nEstimateAtLinking)
      ensures SameSearch() && SameProtocol() && net.gates == old(net.gates)
    {
      var total := neighboursTotalSegmentsLengths + request.fields.segmentLength;
      var received := receivedSegments + 1;
      fired := received == 2;
      if fired {
        if total + segmentLength == 0.0 {
          return Fault("3 / 0 converted to int"), fired;
        }
        nEstimate := Estimation.SizeEstimate(total, segmentLength);
        neighboursTotalSegmentsLengths := 0.0;
        receivedSegments := 0;
        var i := 0;
        while i < 2
          invariant 0 <= i <= 2 && net.gates == old(net.gates)
          invariant net.outbox == old(net.outbox) + EstimateUpdates(id, request, nEstimate)[..i]
          invariant x == old(x) && segmentLength == old(segmentLength) && nEstimateAtLinking == old(nEstimateAtLinking)
          invariant nEstimate == Estimation.SizeEstimate(total, segmentLength) && Accumulator() == Estimation.Reset
          invariant SameSearch() && SameProtocol()
        {
          net.Emit(Send(id, i, Message(UpdateYourEstimate, request.fields.(nEstimate := nEstimate as real))));
          i := i + 1;
        }
      } else {
        neighboursTotalSegmentsLengths := total;
        receivedSegments := received;
      }
      return Done, fired;
    }

    /** thisIsMySegmentLength: the estimate step, then a relink when the new estimate completes a JOIN. */
    method OnThisIsMySegmentLength(net: Overlay, request: Message, sample: real) returns (outcome: Outcome)
      requires Valid(net.K) && net.Valid() && id < |net.gates|
      modifies this, net
      ensures outcome.Done? ==> Valid(net.K)
      ensures net.Valid() && |net.gates| == |old(net.gates)|
      ensures outcome.Fault? <==>
        Estimation.Fires(old(Accumulator())) &&
        old(neighboursTotalSegmentsLengths) + request.fields.segmentLength + old(segmentLength) == 0.0
      ensures outcome.Done? ==>
        var step := Estimation.SegmentReply(old(Accumulator()), old(segmentLength), request.fields.segmentLength);
        Accumulator() == step.0 &&
        (step.1.Some? ==> nEstimate == step.1.value) &&
        (step.1.None? ==>
           nEstimate == old(nEstimate) && nEstimateAtLinking == old(nEstimateAtLinking) &&
           runningProtocol == old(runningProtocol) && net.outbox == old(net.outbox) && net.gates == old(net.gates)) &&
        (step.1.Some? && old(runningProtocol) != Joining ==>
           nEstimateAtLinking == old(nEstimateAtLinking) && runningProtocol == old(runningProtocol) &&
           net.outbox == old(net.outbox) + EstimateUpdates(id, request, nEstimate) && net.gates == old(net.gates)) &&
        (step.1.Some? && old(runningProtocol) == Joining ==>
           runningProtocol == Relinking && nEstimateAtLinking == nEstimate &&
           net.outbox == old(net.outbox) + EstimateUpdates(id, request, nEstimate) + RoutingStart(id, sample) &&
           net.gates == if old(longLinksCreated) == 0 then DropFrom(old(net.gates), id, 2) else old(net.gates))
      ensures outcome.Fault? ==> net.outbox == old(net.outbox) && net.gates == old(net.gates)
      ensures x == old(x) && segmentLength == old(segmentLength) && longLinksCreated == old(longLinksCreated) && SameSearch()
    {
      var fired;
      outcome, fired := AddSegmentReply(net, request);
      if outcome.Done? && fired && runningProtocol == Joining {
        Relink(net, sample);
      }
    }

    /**
     * updateYourEstimate: adopt the received estimate (a double stored in an int) and relink
     * when it moved too far from the estimate of the last relinking; an estimate of 0 at
     * linking is an integer division by zero.
     */
    method OnUpdateYourEstimate(net: Overlay, request: Message, sample: real) returns (outcome: Outcome)
      requires net.Valid() && id < |net.gates|
      modifies this, net
      ensures net.Valid() && |net.gates| == |old(net.gates)|
      ensures nEstimate == Estimation.TruncateToInt(request.fields.nEstimate)
      ensures outcome.Fault? <==> old(nEstimateAtLinking) == 0
      ensures outcome.Done? && Estimation.NeedToRelink(nEstimate, old(nEstimateAtLinking)) ==>
        nEstimateAtLinking == nEstimate && runningProtocol == Relinking &&
        net.outbox == old(net.outbox) + RoutingStart(id, sample) &&
        net.gates == if old(longLinksCreated) == 0 then DropFrom(old(net.gates), id, 2) else old(net.gates)
      ensures outcome.Fault? || !Estimation.NeedToRelink(nEstimate, old(nEstimateAtLinking)) ==>
        nEstimateAtLinking == old(nEstimateAtLinking) && runningProtocol == old(runningProtocol) &&
        net.outbox == old(net.outbox) && net.gates == old(net.gates)
      ensures x == old(x) && segmentLength == old(segmentLength) && Accumulator() == old(Accumulator())
      ensures longLinksCreated == old(longLinksCreated) && SameSearch()
    {
      nEstimate := Estimation.TruncateToInt(request.fields.nEstimate);
      if nEstimateAtLinking == 0 {
        return Fault("integer division by zero");
      }
      var ratio := Estimation.IntDiv(nEstimate, nEstimateAtLinking) as real;
      if ratio < 0.5 || ratio > 2.0 {
        Relink(net, sample);
      }
      return Done;
    }

    /**
     * The backward step of a found manager: pop the last gate of the routing list and send
     * managerIndexIs, naming `manager`, through it; a popped index out of range or naming an
     * unconnected gate is a fault.
     */
    method PassManagerBack(net: Overlay, request: Message, manager: int) returns (outcome: Outcome)
      requires net.Valid() && id < |net.gates| && |request.fields.routingList| > 0
      modifies net
      ensures var (last, rest) := RoutingList.Pop(request.fields.routingList);
        (outcome.Done? <==> 0 <= last < 2 + net.K && old(net.gates)[id][last].Some?) &&
        rest + [last] == request.fields.routingList &&
        (outcome.Done? ==>
           net.outbox == old(net.outbox) +
             [Send(id, last, Message(ManagerIndexIs, request.fields.(manager := manager, routingList := rest)))]) &&
        (outcome.Fault? ==> net.outbox == old(net.outbox))
      ensures net.gates == old(net.gates)
    {
      RoutingList.PopPush(request.fields.routingList);
      RoutingList.PushPop(RoutingList.Pop(request.fields.routingList).1, RoutingList.Pop(request.fields.routingList).0);
      var (last, rest) := RoutingList.Pop(request.fields.routingList);
      if !(0 <= last < 2 + net.K) {
        return Fault("gate index out of range");
      }
      if net.gates[id][last].None? {
        return Fault("gate not connected");
      }
      net.Emit(Send(id, last, Message(ManagerIndexIs, request.fields.(manager := manager, routingList := rest))));
      return Done;
    }

    /**
     * The end of a JOIN search: put the joining member between `manager` and its
     * predecessor, then have it start its size estimate.
     */
    method JoinAt(net: Overlay, manager: int, joiner: Member) returns (outcome: Outcome)
      requires net.Valid() && joiner.id < |net.gates|
      modifies net
      ensures net.Valid() && |net.gates| == |old(net.gates)|
      ensures outcome.Done? <==> CanJoin(old(net.gates), 2 + net.K, joiner.id, manager)
      ensures outcome.Done? ==>
        net.gates == Ring.JoinSplice(old(net.gates), joiner.id, manager) &&
        net.outbox == old(net.outbox) + EstimateQueries(joiner.id)
      ensures outcome.Fault? ==> net.outbox == old(net.outbox)
    {
      outcome := net.AddNodeWithSpecificIntervalPosition(joiner.id, manager);
      if outcome.Done? {
        joiner.CalculateNEstimate(net);
      }
    }

    /**
     * amITheManager, when this member does not manage the point: remember the point, pick
     * the connected neighbour nearest ahead of it, and send areYouTheManager there with the
     * gate that leads back here pushed on the routing list.
     */
    method ForwardTowards(net: Overlay, request: Message, xs: seq<real>) returns (outcome: Outcome)
      requires net.Valid() && id < |net.gates| && |xs| == |net.gates|
      requires NeighboursPlaced(net.gates[id], xs)
      requires Geometry.IsPoint(request.fields.x)
      modifies this, net
      ensures net.gates == old(net.gates)
      ensures randomPoint == request.fields.x
      ensures IsBestNeighbour(net.gates[id], xs, randomPoint, gateIndexToClosestNode, bestDistanceFoundSoFar)
      ensures outcome.Fault? <==> gateIndexToClosestNode == -1
      ensures outcome.Fault? ==> net.outbox == old(net.outbox)
      ensures outcome.Done? ==>
        exists back :: ReturnsThrough(net.gates, id, gateIndexToClosestNode, back) &&
          net.outbox == old(net.outbox) + [AskForward(id, gateIndexToClosestNode, request, back)]
      ensures SameEstimation() && SameProtocol() && repliesToFindShortestPath == old(repliesToFindShortestPath)
    {
      randomPoint := request.fields.x;
      var best, distance, back := ChooseForward(net.gates, 2 + net.K, id, xs, randomPoint);
      gateIndexToClosestNode, bestDistanceFoundSoFar := best, distance;
      if back.None? {
        return Fault("gate index -1");
      }
      RoutingList.PushPop(request.fields.routingList, back.value);
      var fields := request.fields.(x := randomPoint, routingList := RoutingList.Push(request.fields.routingList, back.value));
      assert Send(id, best, Message(AreYouTheManager, fields)) == AskForward(id, best, request, back.value);
      net.Emit(Send(id, best, Message(AreYouTheManager, fields)));
      return Done;
    }

    /**
     * amITheManager: a manager that did not ask passes its index back along the routing
     * list; a manager that asked counts a long link for RELINK (to itself, so none is made)
     * or takes the joining member in for JOIN; any other member forwards the question.
     */
    method OnAmITheManager(net: Overlay, request: Message, xs: seq<real>, sample: real, joiner: Member)
      returns (outcome: Outcome)
      requires Valid(net.K) && net.Valid() && id < |net.gates| && joiner.id < |net.gates| && |xs| == |net.gates|
      requires NeighboursPlaced(net.gates[id], xs)
      requires Geometry.IsPoint(request.fields.x)
      modifies this, net
      ensures net.Valid() && |net.gates| == |old(net.gates)|
      ensures outcome.Done? ==> Valid(net.K)
      ensures var rl := request.fields.routingList;
        Geometry.IsManager(old(x), old(segmentLength), request.fields.x) && rl != [] ==>
          net.gates == old(net.gates) && SameEstimation() && SameSearch() && SameProtocol() &&
          (outcome.Done? <==> 0 <= rl[|rl| - 1] < 2 + net.K && old(net.gates)[id][rl[|rl| - 1]].Some?) &&
          (outcome.Done? ==>
             net.outbox == old(net.outbox) + [Send(id, rl[|rl| - 1],
               Message(ManagerIndexIs, request.fields.(manager := id, routingList := rl[..|rl| - 1])))])
      ensures
        (Geometry.IsManager(old(x), old(segmentLength), request.fields.x) &&
         request.fields.routingList == [] && old(runningProtocol) == Relinking) ==>
          outcome.Done? && net.gates == old(net.gates) && LongLinkCounted(net.K) &&
          (CountLongLink(old(longLinksCreated), net.K).1 ==> net.outbox == old(net.outbox) + RoutingStart(id, sample)) &&
          (!CountLongLink(old(longLinksCreated), net.K).1 ==> net.outbox == old(net.outbox))
      ensures
        (Geometry.IsManager(old(x), old(segmentLength), request.fields.x) &&
         request.fields.routingList == [] && old(runningProtocol) == Joining) ==>
          SameEstimation() && SameSearch() && SameProtocol() &&
          (outcome.Done? <==> CanJoin(old(net.gates), 2 + net.K, joiner.id, id)) &&
          (outcome.Done? ==>
             net.gates == Ring.JoinSplice(old(net.gates), joiner.id, id) &&
             net.outbox == old(net.outbox) + EstimateQueries(joiner.id))
      ensures
        (Geometry.IsManager(old(x), old(segmentLength), request.fields.x) &&
         request.fields.routingList == [] && old(runningProtocol) == NoProtocol) ==>
          outcome.Done? && net.gates == old(net.gates) && net.outbox == old(net.outbox) &&
          SameEstimation() && SameSearch() && SameProtocol()
      ensures !Geometry.IsManager(old(x), old(segmentLength), request.fields.x) ==>
        net.gates == old(net.gates) && randomPoint == request.fields.x &&
        SameEstimation() && SameProtocol() && repliesToFindShortestPath == old(repliesToFindShortestPath) &&
        IsBestNeighbour(net.gates[id], xs, randomPoint, gateIndexToClosestNode, bestDistanceFoundSoFar) &&
        (outcome.Fault? <==> gateIndexToClosestNode == -1) &&
        (outcome.Done? ==>
           exists back :: ReturnsThrough(net.gates, id, gateIndexToClosestNode, back) &&
             net.outbox == old(net.outbox) + [AskForward(id, gateIndexToClosestNode, request, back)])
    {
      var rl := request.fields.routingList;
      if Geometry.IsManager(x, segmentLength, request.fields.x) {
        if |rl| > 0 {
          outcome := PassManagerBack(net, request, id);
          assert RoutingList.Pop(rl).1 == rl[..|rl| - 1];
        } else if runningProtocol == Relinking {
          CountKeepsRange(longLinksCreated, net.K);
          CompleteLongLink(net, sample);
          outcome := Done;
        } else if runningProtocol == Joining {
          outcome := JoinAt(net, id, joiner);
        } else {
          outcome := Done;
        }
      } else {
        outcome := ForwardTowards(net, request, xs);
      }
    }

    /** One reply of the shortest-path search: keep the sender's gate when it is nearer ahead of the point, and count it. */
    method RecordPositionReply(back: int, request: Message)
      modifies this
      ensures var d := Geometry.CircularDistance(randomPoint, request.fields.x);
        (d < old(bestDistanceFoundSoFar) ==> bestDistanceFoundSoFar == d && gateIndexToClosestNode == back) &&
        (d >= old(bestDistanceFoundSoFar) ==>
           bestDistanceFoundSoFar == old(bestDistanceFoundSoFar) && gateIndexToClosestNode == old(gateIndexToClosestNode))
      ensures bestDistanceFoundSoFar <= old(bestDistanceFoundSoFar)
      ensures repliesToFindShortestPath == old(repliesToFindShortestPath) + 1
      ensures randomPoint == old(randomPoint) && SameEstimation() && SameProtocol()
    {
      var d := Geometry.CircularDistance(randomPoint, request.fields.x);
      if d < bestDistanceFoundSoFar {
        bestDistanceFoundSoFar := d;
        gateIndexToClosestNode := back;
      }
      repliesToFindShortestPath := repliesToFindShortestPath + 1;
    }

    /**
     * The end of the shortest-path search: ask the neighbour behind the kept gate, with the
     * gate back here pushed on the routing list, and start the search state over.
     */
    method AskClosest(net: Overlay, request: Message) returns (outcome: Outcome)
      requires net.Valid() && id < |net.gates|
      modifies this, net
      ensures net.gates == old(net.gates)
      ensures var g := old(gateIndexToClosestNode);
        (outcome.Fault? <==> !(0 <= g < |net.gates[id]| && net.gates[id][g].Some?)) &&
        (outcome.Fault? ==> net.outbox == old(net.outbox) && SameSearch()) &&
        (outcome.Done? ==>
           (exists rev :: ReturnsThrough(net.gates, id, g, rev) &&
              net.outbox == old(net.outbox) + [AskForward(id, g, Message(request.kind, request.fields.(x := randomPoint)), rev)]) &&
           bestDistanceFoundSoFar == Unreached && gateIndexToClosestNode == 0 && repliesToFindShortestPath == 0)
      ensures randomPoint == old(randomPoint) && SameEstimation() && SameProtocol()
    {
      var g := gateIndexToClosestNode;
      var ask := AskThrough(net.gates, 2 + net.K, id, g, Message(request.kind, request.fields.(x := randomPoint)));
      if ask.None? {
        return Fault("gate index out of range");
      }
      net.Emit(ask.value);
      bestDistanceFoundSoFar, gateIndexToClosestNode, repliesToFindShortestPath := Unreached, 0, 0;
      return Done;
    }

    /**
     * thisIsMyIntervalPositionToFindShortestPath: record the reply; once as many replies as
     * neighbours have come, ask the closest one.
     */
    method OnPositionToFindShortestPath(net: Overlay, back: int, request: Message) returns (outcome: Outcome)
      requires net.Valid() && id < |net.gates|
      modifies this, net
      ensures net.gates == old(net.gates)
      ensures var d := Geometry.CircularDistance(old(randomPoint), request.fields.x);
        var gate := if d < old(bestDistanceFoundSoFar) then back else old(gateIndexToClosestNode);
        var all := old(repliesToFindShortestPath) + 1 >= CountConnected(net.gates[id], |net.gates[id]|);
        (!all ==>
           outcome.Done? && net.outbox == old(net.outbox) && gateIndexToClosestNode == gate &&
           bestDistanceFoundSoFar == (if d < old(bestDistanceFoundSoFar) then d else old(bestDistanceFoundSoFar)) &&
           repliesToFindShortestPath == old(repliesToFindShortestPath) + 1) &&
        (all ==>
           (outcome.Fault? <==> !(0 <= gate < |net.gates[id]| && net.gates[id][gate].Some?)) &&
           (outcome.Done? ==>
              (exists rev :: ReturnsThrough(net.gates, id, gate, rev) &&
                 net.outbox == old(net.outbox) + [AskForward(id, gate, Message(request.kind, request.fields.(x := randomPoint)), rev)]) &&
              bestDistanceFoundSoFar == Unreached && gateIndexToClosestNode == 0 && repliesToFindShortestPath == 0))
      ensures randomPoint == old(randomPoint) && SameEstimation() && SameProtocol()
    {
      RecordPositionReply(back, request);
      var neighbours := NeighboursNumber(net.gates[id]);
      if repliesToFindShortestPath >= neighbours {
        outcome := AskClosest(net, request);
      } else {
        outcome := Done;
      }
    }

    /** areYouTheManager: the position query, then the manager question scheduled to itself. */
    method OnAreYouTheManager(net: Overlay, request: Message)
      modifies net
      ensures net.gates == old(net.gates)
      ensures net.outbox == old(net.outbox) + [PositionQuery(id), Schedule(id, Message(AmITheManager, request.fields))]
    {
      CalculateSegmentLength(net);
      net.Emit(Schedule(id, Message(AmITheManager, request.fields)));
    }

    /**
     * managerIndexIs at the member that asked for RELINK: createLongLinkToMember(m) for the
     * named manager m, which fails for an index naming no member and may fail to evict
     * (LongLinkWiring); a successful call made or skipped the link, and the long link is
     * counted (LongLinkCounted), a new search starting while the count is below K.
     */
    twostate predicate RelinkReplied(net: Overlay, m: int, sample: real, outcome: Outcome)
      requires old(net.Valid()) && id < |old(net.gates)|
      reads this, net
    {
      var counted := LongLinkCounted(net.K) &&
        (CountLongLink(old(longLinksCreated), net.K).1 ==> net.outbox == old(net.outbox) + RoutingStart(id, sample)) &&
        (!CountLongLink(old(longLinksCreated), net.K).1 ==> net.outbox == old(net.outbox));
      var kept := net.gates == old(net.gates) && net.outbox == old(net.outbox) &&
        SameEstimation() && SameSearch() && SameProtocol();
      (!(0 <= m < |old(net.gates)|) ==> outcome.Fault? && kept) &&
      (0 <= m < |old(net.gates)| && !CanLink(old(net.gates), id, m) ==>
         outcome.Done? && net.gates == old(net.gates) && counted) &&
      (0 <= m < |old(net.gates)| && CanLink(old(net.gates), id, m) ==>
         (outcome.Fault? <==> LongLinkWiring(old(net.gates), net.K, id, m).None?) &&
         (outcome.Fault? ==> kept) &&
         (outcome.Done? ==> net.gates == LongLinkWiring(old(net.gates), net.K, id, m).value && counted))
    }

    /**
     * managerIndexIs: passed one hop back while the routing list is not empty; at the member
     * that asked, a long link to the manager is made and counted for RELINK, and the joining
     * member is taken in before the manager for JOIN.
     */
    method OnManagerIndexIs(net: Overlay, request: Message, sample: real, joiner: Member) returns (outcome: Outcome)
      requires Valid(net.K) && net.Valid() && id < |net.gates| && joiner.id < |net.gates|
      modifies this, net
      ensures net.Valid() && |net.gates| == |old(net.gates)|
      ensures outcome.Done? ==> Valid(net.K)
      ensures var rl := request.fields.routingList;
        rl != [] ==>
          net.gates == old(net.gates) && SameEstimation() && SameSearch() && SameProtocol() &&
          (outcome.Done? <==> 0 <= rl[|rl| - 1] < 2 + net.K && old(net.gates)[id][rl[|rl| - 1]].Some?) &&
          (outcome.Done? ==>
             net.outbox == old(net.outbox) + [Send(id, rl[|rl| - 1],
               Message(ManagerIndexIs, request.fields.(routingList := rl[..|rl| - 1])))])
      ensures
        (request.fields.routingList == [] && old(runningProtocol) == Relinking) ==>
          RelinkReplied(net, request.fields.manager, sample, outcome)
      ensures
        (request.fields.routingList == [] && old(runningProtocol) == Joining) ==>
          SameEstimation() && SameSearch() && SameProtocol() &&
          (outcome.Done? <==> CanJoin(old(net.gates), 2 + net.K, joiner.id, request.fields.manager)) &&
          (outcome.Done? ==>
             net.gates == Ring.JoinSplice(old(net.gates), joiner.id, request.fields.manager) &&
             net.outbox == old(net.outbox) + EstimateQueries(joiner.id))
      ensures
        (request.fields.routingList == [] && old(runningProtocol) == NoProtocol) ==>
          outcome.Done? && net.gates == old(net.gates) && net.outbox == old(net.outbox) &&
          SameEstimation() && SameSearch() && SameProtocol()
    {
      var rl := request.fields.routingList;
      if |rl| > 0 {
        outcome := PassManagerBack(net, request, request.fields.manager);
        assert RoutingList.Pop(rl).1 == rl[..|rl| - 1];
        assert request.fields.(manager := request.fields.manager, routingList := rl[..|rl| - 1]) ==
               request.fields.(routingList := rl[..|rl| - 1]);
      } else if runningProtocol == Relinking {
        outcome := net.CreateLongLinkToMember(id, request.fields.manager);
        if outcome.Done? {
          CompleteLongLink(net, sample);
        }
      } else if runningProtocol == Joining {
        outcome := JoinAt(net, request.fields.manager, joiner);
      } else {
        outcome := Done;
      }
    }

    /**
     * joinNetwork: take the sampled position, mark JOIN, and have the sampled member of the
     * starting ring route towards that position for JOIN.
     */
    method OnJoinNetwork(net: Overlay, point: real, friend: Member)
      modifies this, friend, net
      ensures x == point && runningProtocol == Joining && friend.runningProtocol == Joining
      ensures net.gates == old(net.gates) && net.outbox == old(net.outbox) + RoutingStart(friend.id, point)
      ensures segmentLength == old(segmentLength) && nEstimate == old(nEstimate) && nEstimateAtLinking == old(nEstimateAtLinking)
      ensures Accumulator() == old(Accumulator()) && longLinksCreated == old(longLinksCreated) && SameSearch()
      ensures friend != this ==>
        friend.SameEstimation() && friend.SameSearch() && friend.longLinksCreated == old(friend.longLinksCreated)
    {
      x := point;
      runningProtocol := Joining;
      friend.RoutingProtocol(net, point, Joining);
    }

    /**
     * leaveNetwork: youMustRelink on every long link, the ring closed over this member,
     * and a joinNetwork scheduled to itself.
     */
    method OnLeaveNetwork(net: Overlay, request: Message) returns (outcome: Outcome)
      requires net.Valid() && id < |net.gates|
      modifies net
      ensures net.Valid() && |net.gates| == |old(net.gates)|
      ensures outcome.Done? <==> Ring.LeaveSplice(old(net.gates), id).Some?
      ensures outcome.Done? ==>
        net.gates == Ring.LeaveSplice(old(net.gates), id).value &&
        net.outbox == old(net.outbox) + LongLinkSends(old(net.gates)[id], id, Message(YouMustRelink, request.fields), 2) +
                      [Schedule(id, Fresh(JoinNetwork))]
      ensures outcome.Fault? ==>
        net.outbox == old(net.outbox) + LongLinkSends(old(net.gates)[id], id, Message(YouMustRelink, request.fields), 2)
    {
      net.BroadcastOnLongLinks(id, Message(YouMustRelink, request.fields));
      outcome := net.LeaveSplice(id);
      if outcome.Done? {
        net.Emit(Schedule(id, Fresh(JoinNetwork)));
      }
    }

    /** youMustRelink: relink. */
    method OnYouMustRelink(net: Overlay, sample: real)
      requires net.Valid() && id < |net.gates|
      modifies this, net
      ensures net.Valid() && |net.gates| == |old(net.gates)|
      ensures nEstimateAtLinking == old(nEstimate) && runningProtocol == Relinking
      ensures net.gates == if old(longLinksCreated) == 0 then DropFrom(old(net.gates), id, 2) else old(net.gates)
      ensures net.outbox == old(net.outbox) + RoutingStart(id, sample)
      ensures x == old(x) && segmentLength == old(segmentLength) && nEstimate == old(nEstimate)
      ensures Accumulator() == old(Accumulator()) && longLinksCreated == old(longLinksCreated) && SameSearch()
    {
      Relink(net, sample);
    }

    /**
     * handleMessage: find the gate back to the sender, then act on the message kind. The
     * sampled values (the point to relink to, the position of a joining member), the member
     * a joiner talks to, the joining member a JOIN search ends with and the positions of all
     * members are inputs. The overlay stays a wiring of link pairs, and a step that does
     * not fail keeps this member's invariant.
     */
    method HandleMessage(net: Overlay, sender: nat, request: Message, sample: real, joinPoint: real,
                         xs: seq<real>, friend: Member, joiner: Member) returns (outcome: Outcome)
      requires Valid(net.K) && net.Valid() && id < |net.gates| && joiner.id < |net.gates| && |xs| == |net.gates|
      requires NeighboursPlaced(net.gates[id], xs)
      requires request.kind == AmITheManager ==> Geometry.IsPoint(request.fields.x)
      modifies this, net, friend
      ensures net.Valid() && |net.gates| == |old(net.gates)|
      ensures outcome.Done? ==> Valid(net.K)
      ensures request.kind == Unknown ==>
        outcome.Done? && net.gates == old(net.gates) && net.outbox == old(net.outbox) &&
        SameEstimation() && SameSearch() && SameProtocol()
    {
      var back := GateToModule(net.gates[id], sender);
      match request.kind {
        case NeedYourIntervalPosition =>
          outcome := OnNeedYourIntervalPosition(net, back, request);
        case ThisIsMyIntervalPosition =>
          OnThisIsMyIntervalPosition(request);
          outcome := Done;
        case NeedYourSegmentLength =>
          OnNeedYourSegmentLength(net, back, request);
          outcome := Done;
        case MySegmentLengthIsReady =>
          outcome := OnMySegmentLengthIsReady(net, request);
        case ThisIsMySegmentLength =>
          outcome := OnThisIsMySegmentLength(net, request, sample);
        case UpdateYourEstimate =>
          outcome := OnUpdateYourEstimate(net, request, sample);
        case AmITheManager =>
          outcome := OnAmITheManager(net, request, xs, sample, joiner);
        case PositionToFindShortestPath =>
          outcome := OnPositionToFindShortestPath(net, back, request);
        case AreYouTheManager =>
          OnAreYouTheManager(net, request);
          outcome := Done;
        case ManagerIndexIs =>
          outcome := OnManagerIndexIs(net, request, sample, joiner);
        case JoinNetwork =>
          OnJoinNetwork(net, joinPoint, friend);
          outcome := Done;
        case LeaveNetwork =>
          outcome := OnLeaveNetwork(net, request);
        case YouMustRelink =>
          OnYouMustRelink(net, sample);
          outcome := Done;
        case Unknown =>
          outcome := Done;
      }
    }
  }
}
