/**
 * The member of the SymphonyDHTSim variant. Its gates are named: the short links
 * prevShortLink and nextShortLink and the vector longLinks of K long links. Messages say
 * where the sender sits relative to the receiver ("prev", "next" or "onLongLink"). A
 * request for the manager of a point y travels greedily, member by member, towards the
 * member whose position is nearest to y; each forwarding member pushes onto the routing
 * list the entry for the link it forwarded on: -2 for the prev link, -1 for the next link,
 * the link number for a long link.
 */
module SimphonySim {
  import opened Wrappers
  import Geometry
  import Estimation
  import RoutingList
  import SimPacket

  // ---- Link names ----

  /** oppositeOf: "prev" becomes "next"; every other reference becomes "prev". */
  function OppositeOf(ref: string): (r: string)
    ensures ref == "prev" ==> r == "next"
    ensures ref != "prev" ==> r == "prev"
  {
    if ref == "prev" then "next" else "prev"
  }

  /** On the two short-link references, oppositeOf is an involution that swaps them. */
  lemma OppositeInvolution(ref: string)
    requires ref == "prev" || ref == "next"
    ensures OppositeOf(OppositeOf(ref)) == ref && OppositeOf(ref) != ref
  {
  }

  /** getGateByRef: the output gate of the short link a reference names; anything but "prev" means next. */
  function GateByRef(ref: string): (g: string)
    ensures ref == "prev" ==> g == "prevShortLink$o"
    ensures ref != "prev" ==> g == "nextShortLink$o"
  {
    if ref == "prev" then "prevShortLink$o" else "nextShortLink$o"
  }

  /** An output gate: a short link by name, or long link k of the longLinks vector. */
  datatype GateRef = Named(name: string) | LongLink(index: int)

  const PrevLink := Named("prevShortLink$o")
  const NextLink := Named("nextShortLink$o")

  /** calculateSegmentLength, in the order of operations the variant writes: x + (1 - prevX). */
  function CalculateSegmentLength(prevX: real, x: real): (r: real)
    ensures r == Geometry.SegmentLength(prevX, x)
    ensures Geometry.InUnit(prevX) && Geometry.InUnit(x) ==> 0.0 < r <= 1.0
  {
    if prevX < x then x - prevX else x + (1.0 - prevX)
  }

  // ---- Routing-list entries ----

  /** The entry pushed for the best neighbour: its long-link number, -2 for prev, -1 otherwise. */
  function EntryFor(neighbour: string, longLinkNumber: int): int {
    if neighbour == "onLongLink" then longLinkNumber
    else if neighbour == "prev" then -2
    else -1
  }

  /** The gate the forward leg sends on towards the best neighbour. */
  function ForwardGate(neighbour: string, longLinkNumber: int): GateRef {
    if neighbour == "onLongLink" then LongLink(longLinkNumber) else Named(GateByRef(neighbour))
  }

  /**
   * The switch of the return leg: -2 the prev link, -1 the next link, anything else long
   * link `entry`; None when that long link does not exist (the K long links are 0..K-1).
   */
  function RouteOf(entry: int, K: nat): (g: Option<GateRef>)
    ensures entry == -2 ==> g == Some(PrevLink)
    ensures entry == -1 ==> g == Some(NextLink)
    ensures entry != -2 && entry != -1 ==> (g.Some? <==> 0 <= entry < K)
    ensures entry != -2 && entry != -1 && g.Some? ==> g.value == LongLink(entry)
  {
    if entry == -2 then Some(PrevLink)
    else if entry == -1 then Some(NextLink)
    else if 0 <= entry < K then Some(LongLink(entry))
    else None
  }

  /**
   * Decoding an entry gives back the gate the forward leg used: the return leg leaves
   * through the link with the same name or number as the one the request was forwarded on.
   */
  lemma EntryRoundTrip(neighbour: string, longLinkNumber: int, K: nat)
    requires neighbour == "onLongLink" ==> 0 <= longLinkNumber < K
    ensures RouteOf(EntryFor(neighbour, longLinkNumber), K) == Some(ForwardGate(neighbour, longLinkNumber))
  {
  }

  /** What a member does with the routing list of a request it manages. */
  datatype Leg =
    | Requester                                   // no entry left: this member asked
    | Hop(route: GateRef, list: seq<int>)         // pass back, one entry popped
    | Broken(reason: string)                      // a runtime error

  /**
   * The return leg as the source writes it (amIXManager, manager case): with rlSize entries,
   * it treats only rlSize - 1 > 0 as "someone else asked", and copies the remaining entries
   * into the reply, a fresh packet whose routing list was never sized.
   */
  function ReturnLegAsWritten(rl: seq<int>, K: nat): Leg {
    var rlSize := |rl|;
    if rlSize - 1 > 0 then
      var sender := rl[rlSize - 1];
      var rest := RoutingList.Resized(rl, rlSize - 1);
      var copied := RoutingList.CopyPrefix([], rest, rlSize - 1);
      match copied
      case None => Broken("routing list index out of range")
      case Some(list) =>
        match RouteOf(sender, K)
        case None => Broken("long link index out of range")
        case Some(route) => Hop(route, list)
    else Requester
  }

  /** Whenever some other member asked through two or more hops, the reply as written fails. */
  lemma ReturnLegAsWrittenFails(rl: seq<int>, K: nat)
    requires |rl| >= 2
    ensures ReturnLegAsWritten(rl, K).Broken?
  {
  }

  /**
   * The return leg with the reply's list sized before the copy and every non-empty list
   * treated as a request from another member.
   */
  function ReturnLeg(rl: seq<int>, K: nat): (leg: Leg)
    ensures leg.Requester? <==> rl == []
    ensures leg.Hop? ==> RoutingList.Push(leg.list, rl[|rl| - 1]) == rl && RouteOf(rl[|rl| - 1], K) == Some(leg.route)
  {
    var rlSize := |rl|;
    if rlSize > 0 then
      var rest := RoutingList.Resized(rl, rlSize - 1);
      var copied := RoutingList.CopyPrefix(RoutingList.Resized([], rlSize - 1), rest, rlSize - 1);
      var route := RouteOf(rl[rlSize - 1], K);
      if copied.None? then Broken("routing list index out of range")
      else if route.None? then Broken("long link index out of range")
      else
        RoutingList.PopPush(rl);
        RestIsPrefix(rl);
        Hop(route.value, copied.value)
    else Requester
  }

  lemma RestIsPrefix(rl: seq<int>)
    requires |rl| > 0
    ensures var n := |rl| - 1;
      RoutingList.CopyPrefix(RoutingList.Resized([], n), RoutingList.Resized(rl, n), n) == Some(RoutingList.Pop(rl).1)
  {
    var n := |rl| - 1;
    var rest := RoutingList.Resized(rl, n);
    assert rest == rl[..n];
    if n > 0 {
      assert rest[..n] + RoutingList.Resized([], n)[n..] == rest;
    }
  }

  /**
   * A manager one hop away from the requester (one entry) is taken for the requester by the
   * code as written, while the list says another member asked.
   */
  lemma ReturnLegOffByOne(entry: int, K: nat)
    requires 0 <= entry < K
    ensures ReturnLegAsWritten([entry], K) == Requester
    ensures ReturnLeg([entry], K) == Hop(LongLink(entry), [])
  {
    RestIsPrefix([entry]);
  }

  /**
   * The forward leg as written (myXToFindShortestPath, last reply): the new request's list
   * is sized rlSize + 1 in a fresh packet, so it is zero-filled, and only the new entry at
   * index rlSize is written; the entries already on the list are lost.
   */
  function ForwardListAsWritten(rl: seq<int>, entry: int): seq<int> {
    RoutingList.Resized([], |rl| + 1)[|rl| := entry]
  }

  /** The forward leg's list with the old entries kept: the old list with the entry pushed. */
  function ForwardList(rl: seq<int>, entry: int): (r: seq<int>)
    ensures r == rl + [entry]
  {
    RoutingList.PushPop(rl, entry);
    RoutingList.Push(rl, entry)
  }

  /** One forwarding hop after another: as written, the first hop's entry is replaced by 0. */
  lemma ForwardListAsWrittenLosesEntries(first: int, second: int)
    requires first != 0
    ensures ForwardListAsWritten([first], second) == [0, second]
    ensures ForwardList([first], second) == [first, second]
  {
    assert RoutingList.Resized([], 2) == [0, 0];
  }

  /** A request forwarded with an entry comes back along the return leg through that entry's link, with the old list. */
  lemma ForwardThenReturn(rl: seq<int>, neighbour: string, longLinkNumber: int, K: nat)
    requires neighbour == "onLongLink" ==> 0 <= longLinkNumber < K
    ensures var entry := EntryFor(neighbour, longLinkNumber);
      ReturnLeg(ForwardList(rl, entry), K) == Hop(ForwardGate(neighbour, longLinkNumber), rl)
  {
    var entry := EntryFor(neighbour, longLinkNumber);
    var l := ForwardList(rl, entry);
    EntryRoundTrip(neighbour, longLinkNumber, K);
    RestIsPrefix(l);
    RoutingList.PushPop(rl, entry);
  }

  /** A routing list copied entry by entry into a packet sized for it arrives unchanged. */
  lemma CopyIntoSized(rl: seq<int>)
    ensures RoutingList.CopyPrefix(RoutingList.Resized([], |rl|), rl, |rl|) == Some(rl)
  {
    if |rl| > 0 {
      assert rl[..|rl|] + RoutingList.Resized([], |rl|)[|rl|..] == rl;
    }
  }

  // ---- Best-path selection ----

  /** fabs on reals. */
  function Fabs(r: real): (a: real)
    ensures a >= 0.0 && (a == r || a == -r)
  {
    if r < 0.0 then -r else r
  }

  /** The best neighbour found so far: its distance to y, its reference and its long-link number. */
  datatype Best = Best(distance: real, neighbour: string, longLinkNumber: int)

  /** Before any reply the distance is 2, larger than any distance between two points of [0,1). */
  const NoBest := Best(2.0, "", 0)

  function ReplyDistance(y: real, reply: SimPacket.Fields): real {
    Fabs(y - reply.x)
  }

  /** One myXToFindShortestPath reply: kept only when it is strictly closer to y. */
  function Consider(b: Best, y: real, reply: SimPacket.Fields): (r: Best)
    ensures r.distance <= b.distance && r.distance <= ReplyDistance(y, reply)
    ensures r == b || r == Best(ReplyDistance(y, reply), reply.neighbour, reply.longLinkNumber)
  {
    var d := ReplyDistance(y, reply);
    if d < b.distance then Best(d, reply.neighbour, reply.longLinkNumber) else b
  }

  /** The selection after a whole sequence of replies, taken in arrival order. */
  function Selected(y: real, replies: seq<SimPacket.Fields>): Best {
    if replies == [] then NoBest
    else Consider(Selected(y, replies[..|replies| - 1]), y, replies[|replies| - 1])
  }

  /**
   * After the replies of a round, every one of them nearer than 2, the selection is the
   * reply at some index i with the smallest distance, and every earlier reply is strictly
   * farther: the first minimum wins.
   */
  lemma {:induction false} SelectedIsFirstMinimum(y: real, replies: seq<SimPacket.Fields>) returns (i: nat)
    requires |replies| > 0
    requires forall k :: 0 <= k < |replies| ==> ReplyDistance(y, replies[k]) < 2.0
    ensures i < |replies|
    ensures Selected(y, replies) == Best(ReplyDistance(y, replies[i]), replies[i].neighbour, replies[i].longLinkNumber)
    ensures forall k :: 0 <= k < |replies| ==> ReplyDistance(y, replies[i]) <= ReplyDistance(y, replies[k])
    ensures forall k :: 0 <= k < i ==> ReplyDistance(y, replies[i]) < ReplyDistance(y, replies[k])
  {
    var n := |replies| - 1;
    var front := replies[..n];
    var last := replies[n];
    if n == 0 {
      i := 0;
    } else {
      assert forall k :: 0 <= k < |front| ==> front[k] == replies[k];
      var j := SelectedIsFirstMinimum(y, front);
      if ReplyDistance(y, last) < ReplyDistance(y, front[j]) {
        i := n;
      } else {
        i := j;
      }
    }
  }

  // ---- Messages and emissions ----

  /** The message names this member dispatches on; any other name is ignored. */
  datatype Kind =
    | AskForX
    | MyX
    | AskForSegmentLength
    | SegmentLengthCalculated
    | MySegmentLength
    | UpdateEstimate
    | AmIXManager
    | AskXToFindShortestPath
    | MyXToFindShortestPath
    | AreUXManager
    | ManagerIndexIs
    | Unknown

  datatype Message = Message(kind: Kind, fields: SimPacket.Fields)

  /** A message sent on an output gate, or scheduled to the member itself. */
  datatype Emission = Send(gate: GateRef, msg: Message) | Schedule(msg: Message)

  /** How handling a message ended: normally, or with a simulator runtime error. */
  datatype Outcome = Done | Fault(reason: string)

  /** The short links always exist; long link k exists for k in 0..K-1. */
  predicate GateExists(g: GateRef, K: nat) {
    g.Named? || 0 <= g.index < K
  }

  /** getSegmentLengthProcedure: ask the prev neighbour, which sees this member as its next, for its position. */
  const PositionQuery: Emission := Send(PrevLink, Message(AskForX, SimPacket.Blank.(neighbour := "next")))

  /** The randomly sampled point of relinkProcedure, fixed in the source. */
  const RelinkPoint: real := 0.1874

  /** relinkProcedure: the position query, then a manager query for the sample scheduled to itself. */
  const RelinkStart: seq<Emission> :=
    [PositionQuery, Schedule(Message(AmIXManager, SimPacket.Blank.(x := RelinkPoint)))]

  /** The new estimate for both neighbours, each told where the sender sits relative to it. */
  function EstimateNotices(estimate: int): seq<Emission> {
    [Send(NextLink, Message(UpdateEstimate, SimPacket.Blank.(neighbour := "prev", estimate := estimate))),
     Send(PrevLink, Message(UpdateEstimate, SimPacket.Blank.(neighbour := "next", estimate := estimate)))]
  }

  /** The query for the position of the neighbour on long link i, carrying routing list rl. */
  function LongQuery(rl: seq<int>, i: nat): Emission {
    Send(LongLink(i), Message(AskXToFindShortestPath,
      SimPacket.Blank.(routingList := rl, neighbour := "onLongLink", longLinkNumber := i)))
  }

  /** The queries on long links 0..n-1, in order. */
  function LongQueries(rl: seq<int>, n: nat): (r: seq<Emission>)
    ensures |r| == n && forall i :: 0 <= i < n ==> r[i] == LongQuery(rl, i)
  {
    if n == 0 then [] else LongQueries(rl, n - 1) + [LongQuery(rl, n - 1)]
  }

  /** The position queries of a member that does not manage the point: next link, prev link, then every long link. */
  function PathQueries(rl: seq<int>, K: nat): seq<Emission> {
    [Send(NextLink, Message(AskXToFindShortestPath, SimPacket.Blank.(routingList := rl, neighbour := "prev"))),
     Send(PrevLink, Message(AskXToFindShortestPath, SimPacket.Blank.(routingList := rl, neighbour := "next")))] +
    LongQueries(rl, K)
  }

  /**
   * One query per gate, 2 + K in all, each on an existing gate and each telling the receiver
   * how to answer: the count the selection waits for is the number of queries sent.
   */
  lemma PathQueriesCoverAllGates(rl: seq<int>, K: nat)
    ensures |PathQueries(rl, K)| == 2 + K
    ensures forall e :: e in PathQueries(rl, K) ==> e.Send? && GateExists(e.gate, K) && e.msg.fields.routingList == rl
    ensures forall i :: 0 <= i < K ==> PathQueries(rl, K)[2 + i] == LongQuery(rl, i)
  {
    var p := PathQueries(rl, K);
    var long := LongQueries(rl, K);
    assert p == p[..2] + long;
    forall i | 0 <= i < K
      ensures p[2 + i] == LongQuery(rl, i)
    {
      assert p[2 + i] == long[i];
    }
    forall e | e in p
      ensures e.Send? && GateExists(e.gate, K) && e.msg.fields.routingList == rl
    {
      var k :| 0 <= k < |p| && p[k] == e;
      if k >= 2 {
        assert p[k] == long[k - 2] == LongQuery(rl, k - 2);
      }
    }
  }

  /** The manager query passed on towards the best neighbour: the point, the reference back, the longer list. */
  function ForwardQuery(y: real, b: Best, rl: seq<int>): Emission {
    var entry := EntryFor(b.neighbour, b.longLinkNumber);
    var fields :=
      if b.neighbour == "onLongLink" then
        SimPacket.Blank.(x := y, neighbour := "onLongLink", longLinkNumber := b.longLinkNumber, routingList := ForwardList(rl, entry))
      else
        SimPacket.Blank.(x := y, neighbour := OppositeOf(b.neighbour), routingList := ForwardList(rl, entry));
    Send(ForwardGate(b.neighbour, b.longLinkNumber), Message(AreUXManager, fields))
  }

  class Member {
    const id: nat
    const K: nat
    var x: real
    var segmentLength: real
    var nEstimate: int
    var nLinkEstimate: int
    var neighboursSegmentsLengths: real
    var segmentsReceived: int
    var y: real
    var bestPathDistance: real
    var bestPathNeighbour: string
    var bestPathLongLinkNumber: int
    var replies: int
    var outbox: seq<Emission>

    function Accumulator(): Estimation.Accumulator
      reads this
    {
      Estimation.Accumulator(neighboursSegmentsLengths, segmentsReceived)
    }

    function Selection(): Best
      reads this
    {
      Best(bestPathDistance, bestPathNeighbour, bestPathLongLinkNumber)
    }

    /** Between events at most one segment reply has been counted. */
    predicate Valid()
      reads this
    {
      Estimation.Waiting(Accumulator())
    }

    /** The position, the segment and the estimates are as before. */
    twostate predicate SameEstimate()
      reads this
    {
      x == old(x) && segmentLength == old(segmentLength) && nEstimate == old(nEstimate) &&
      nLinkEstimate == old(nLinkEstimate) && Accumulator() == old(Accumulator())
    }

    /** The state of the best-path search is as before. */
    twostate predicate SamePath()
      reads this
    {
      y == old(y) && Selection() == old(Selection()) && replies == old(replies)
    }

    /**
     * initialize: member `index` of `dhtSize` sits at index * (1 / dhtSize), estimates the size
     * as dhtSize and has not received any reply yet; member 0 starts relinking.
     */
    constructor (index: nat, dhtSize: nat, k: nat)
      requires dhtSize > 0
      ensures id == index && K == k && Valid()
      ensures x == index as real * (1.0 / dhtSize as real) && segmentLength == 0.0
      ensures nEstimate == dhtSize && nLinkEstimate == dhtSize && Accumulator() == Estimation.Reset
      ensures Selection().distance == 2.0 && replies == 0
      ensures outbox == if index == 0 then RelinkStart else []
    {
      id := index;
      K := k;
      x := index as real * (1.0 / dhtSize as real);
      segmentLength := 0.0;
      nEstimate := dhtSize;
      nLinkEstimate := dhtSize;
      neighboursSegmentsLengths := 0.0;
      segmentsReceived := 0;
      y := 0.0;
      bestPathDistance := 2.0;
      bestPathNeighbour := "";
      bestPathLongLinkNumber := 0;
      replies := 0;
      outbox := [];
      new;
      if index == 0 {
        outbox := RelinkStart;
      }
    }

    /**
     * getEstimateRatio: the `int` quotient of the two estimates, that is their real quotient
     * truncated toward zero.
     */
    method EstimateRatio() returns (ratio: real)
      requires nLinkEstimate != 0
      ensures ratio == Estimation.TruncateToInt(nEstimate as real / nLinkEstimate as real) as real
      ensures nEstimate >= 0 && nLinkEstimate > 0 ==>
        ratio >= 0.0 && ratio * nLinkEstimate as real <= nEstimate as real < (ratio + 1.0) * nLinkEstimate as real
    {
      Estimation.IntDivTruncates(nEstimate, nLinkEstimate);
      Estimation.IntDivBounds(nEstimate, nLinkEstimate);
      ratio := Estimation.IntDiv(nEstimate, nLinkEstimate) as real;
    }

    /** needToRelink: the ratio left [0.5, 2], that is the estimate fell below or reached three times the old one. */
    method NeedToRelink() returns (b: bool)
      requires nLinkEstimate > 0 && nEstimate >= 0
      ensures b == Estimation.NeedToRelink(nEstimate, nLinkEstimate)
      ensures b <==> nEstimate < nLinkEstimate || nEstimate >= 3 * nLinkEstimate
    {
      var ratio := EstimateRatio();
      b := ratio < 0.5 || ratio > 2.0;
      assert ratio == Estimation.EstimateRatio(nEstimate, nLinkEstimate);
      Estimation.NeedToRelinkIff(nEstimate, nLinkEstimate);
    }

    /** askForX: send the position back on the link the asker named, telling it where this member sits. */
    method OnAskForX(request: Message)
      modifies this
      ensures outbox == old(outbox) + [Send(Named(GateByRef(request.fields.neighbour)),
        Message(MyX, SimPacket.Blank.(x := x, neighbour := OppositeOf(request.fields.neighbour))))]
      ensures SameEstimate() && SamePath()
    {
      var n := request.fields.neighbour;
      outbox := outbox + [Send(Named(GateByRef(n)), Message(MyX, SimPacket.Blank.(x := x, neighbour := OppositeOf(n))))];
    }

    /** myX: the segment length from the predecessor's position; nothing is sent. */
    method OnMyX(request: Message)
      modifies this
      ensures segmentLength == Geometry.SegmentLength(request.fields.x, x)
      ensures x == old(x) && nEstimate == old(nEstimate) && nLinkEstimate == old(nLinkEstimate)
      ensures Accumulator() == old(Accumulator()) && SamePath() && outbox == old(outbox)
    {
      segmentLength := CalculateSegmentLength(request.fields.x, x);
    }

    /** askForSegmentLength: the position query, and the answer scheduled to itself with the asker's reference. */
    method OnAskForSegmentLength(request: Message)
      modifies this
      ensures outbox == old(outbox) + [PositionQuery,
        Schedule(Message(SegmentLengthCalculated, SimPacket.Blank.(neighbour := request.fields.neighbour)))]
      ensures SameEstimate() && SamePath()
    {
      outbox := outbox + [PositionQuery];
      outbox := outbox + [Schedule(Message(SegmentLengthCalculated, SimPacket.Blank.(neighbour := request.fields.neighbour)))];
    }

    /** segmentLengthCalculated: send the segment length back on the link the asker named. */
    method OnSegmentLengthCalculated(request: Message)
      modifies this
      ensures outbox == old(outbox) + [Send(Named(GateByRef(request.fields.neighbour)),
        Message(MySegmentLength, SimPacket.Blank.(segmentLength := segmentLength, neighbour := OppositeOf(request.fields.neighbour))))]
      ensures SameEstimate() && SamePath()
    {
      var n := request.fields.neighbour;
      outbox := outbox + [Send(Named(GateByRef(n)),
        Message(MySegmentLength, SimPacket.Blank.(segmentLength := segmentLength, neighbour := OppositeOf(n))))];
    }

    /**
     * mySegmentLength: add the reply; on the second one store the truncated estimate, reset
     * the accumulator and send the estimate to both neighbours. A zero sum makes the
     * conversion of 3 / 0 to int undefined.
     */
    method OnMySegmentLength(request: Message) returns (outcome: Outcome)
      requires Valid()
      modifies this
      ensures var acc := old(Accumulator()); var reply := request.fields.segmentLength;
        (outcome.Fault? <==> Estimation.Fires(acc) && acc.total + reply + segmentLength == 0.0) &&
        (outcome.Done? ==>
          var step := Estimation.SegmentReply(acc, segmentLength, reply);
          Valid() && Accumulator() == step.0 &&
          (step.1.Some? ==> nEstimate == step.1.value && outbox == old(outbox) + EstimateNotices(nEstimate)) &&
          (step.1.None? ==> nEstimate == old(nEstimate) && outbox == old(outbox)))
      ensures x == old(x) && segmentLength == old(segmentLength) && nLinkEstimate == old(nLinkEstimate)
      ensures SamePath()
    {
      var total := neighboursSegmentsLengths + request.fields.segmentLength;
      var received := segmentsReceived + 1;
      if received == 2 {
        if total + segmentLength == 0.0 {
          return Fault("3 / 0 converted to int");
        }
        nEstimate := Estimation.SizeEstimate(total, segmentLength);
        neighboursSegmentsLengths := 0.0;
        segmentsReceived := 0;
        outbox := outbox + EstimateNotices(nEstimate);
      } else {
        neighboursSegmentsLengths := total;
        segmentsReceived := received;
      }
      return Done;
    }

    /** updateEstimate: adopt the neighbour's estimate; nothing else changes. */
    method OnUpdateEstimate(request: Message)
      modifies this
      ensures nEstimate == request.fields.estimate
      ensures x == old(x) && segmentLength == old(segmentLength) && nLinkEstimate == old(nLinkEstimate)
      ensures Accumulator() == old(Accumulator()) && SamePath() && outbox == old(outbox)
    {
      nEstimate := request.fields.estimate;
    }

    /**
     * amIXManager, manager case: pass the answer back along the routing list, one entry
     * popped; nothing is sent when the list is empty (this member asked itself).
     */
    method ReplyAsManager(rl: seq<int>) returns (outcome: Outcome)
      modifies this
      ensures var leg := ReturnLeg(rl, K);
        (outcome.Fault? <==> leg.Broken?) &&
        (leg.Hop? ==> outbox == old(outbox) + [Send(leg.route, Message(ManagerIndexIs, SimPacket.Blank.(manager := id, routingList := leg.list)))]) &&
        (!leg.Hop? ==> outbox == old(outbox))
      ensures SameEstimate() && SamePath()
    {
      var leg := ReturnLeg(rl, K);
      match leg {
        case Requester =>
          outcome := Done;
        case Broken(reason) =>
          outcome := Fault(reason);
        case Hop(route, list) =>
          outbox := outbox + [Send(route, Message(ManagerIndexIs, SimPacket.Blank.(manager := id, routingList := list)))];
          outcome := Done;
      }
    }

    /**
     * amIXManager, other members: remember the point and ask every neighbour for its
     * position, each query carrying a copy of the routing list.
     */
    method AskNeighbours(request: Message)
      modifies this
      ensures y == request.fields.x
      ensures outbox == old(outbox) + PathQueries(request.fields.routingList, K)
      ensures SameEstimate() && Selection() == old(Selection()) && replies == old(replies)
    {
      var rl := request.fields.routingList;
      var copied := RoutingList.CopyEntries(RoutingList.Resized([], |rl|), rl, |rl|);
      CopyIntoSized(rl);
      var list := copied.value;
      y := request.fields.x;
      outbox := outbox + [Send(NextLink, Message(AskXToFindShortestPath, SimPacket.Blank.(routingList := list, neighbour := "prev")))];
      outbox := outbox + [Send(PrevLink, Message(AskXToFindShortestPath, SimPacket.Blank.(routingList := list, neighbour := "next")))];
      var i := 0;
      while i < K
        invariant 0 <= i <= K
        invariant outbox == old(outbox) + PathQueries(rl, i)
        invariant y == request.fields.x && SameEstimate() && Selection() == old(Selection()) && replies == old(replies)
      {
        outbox := outbox + [LongQuery(list, i)];
        i := i + 1;
      }
    }

    /** amIXManager: answer when this member manages the point, otherwise start a best-path search. */
    method OnAmIXManager(request: Message) returns (outcome: Outcome)
      modifies this
      ensures Geometry.IsManager(x, segmentLength, request.fields.x) ==>
        var leg := ReturnLeg(request.fields.routingList, K);
        (outcome.Fault? <==> leg.Broken?) && SamePath() &&
        (leg.Hop? ==> outbox == old(outbox) + [Send(leg.route, Message(ManagerIndexIs, SimPacket.Blank.(manager := id, routingList := leg.list)))]) &&
        (!leg.Hop? ==> outbox == old(outbox))
      ensures !Geometry.IsManager(x, segmentLength, request.fields.x) ==>
        outcome.Done? && y == request.fields.x && Selection() == old(Selection()) && replies == old(replies) &&
        outbox == old(outbox) + PathQueries(request.fields.routingList, K)
      ensures SameEstimate()
    {
      var delta := x - segmentLength;
      var p := request.fields.x;
      var iAmManager := false;
      if delta >= 0.0 && p > delta && p <= x {
        iAmManager := true;
      } else if delta < 0.0 && (p > 1.0 + delta || p <= x) {
        iAmManager := true;
      }
      if iAmManager {
        outcome := ReplyAsManager(request.fields.routingList);
      } else {
        AskNeighbours(request);
        outcome := Done;
      }
    }

    /** askXToFindShortestPath: send the position back, with the routing list, on the link the asker named. */
    method OnAskXToFindShortestPath(request: Message) returns (outcome: Outcome)
      modifies this
      ensures var n := request.fields.neighbour; var k := request.fields.longLinkNumber;
        var fields := if n == "onLongLink"
          then SimPacket.Blank.(x := x, routingList := request.fields.routingList, neighbour := "onLongLink", longLinkNumber := k)
          else SimPacket.Blank.(x := x, routingList := request.fields.routingList, neighbour := OppositeOf(n));
        (outcome.Done? <==> GateExists(ForwardGate(n, k), K)) &&
        (outcome.Done? ==> outbox == old(outbox) + [Send(ForwardGate(n, k), Message(MyXToFindShortestPath, fields))]) &&
        (outcome.Fault? ==> outbox == old(outbox))
      ensures SameEstimate() && SamePath()
    {
      var rl := request.fields.routingList;
      var copied := RoutingList.CopyEntries(RoutingList.Resized([], |rl|), rl, |rl|);
      CopyIntoSized(rl);
      var n := request.fields.neighbour;
      if n == "onLongLink" {
        var k := request.fields.longLinkNumber;
        if !(0 <= k < K) {
          return Fault("long link index out of range");
        }
        outbox := outbox + [Send(LongLink(k), Message(MyXToFindShortestPath,
          SimPacket.Blank.(x := x, routingList := copied.value, neighbour := "onLongLink", longLinkNumber := k)))];
      } else {
        outbox := outbox + [Send(Named(GateByRef(n)), Message(MyXToFindShortestPath,
          SimPacket.Blank.(x := x, routingList := copied.value, neighbour := OppositeOf(n))))];
      }
      return Done;
    }

    /**
     * myXToFindShortestPath: keep the reply if it is strictly nearer to y and count it; from
     * the 2 + K-th reply on, pass the manager query on towards the best neighbour, pushing
     * the entry for the link it leaves on. The count is never reset.
     */
    method OnMyXToFindShortestPath(request: Message) returns (outcome: Outcome)
      modifies this
      ensures Selection() == Consider(old(Selection()), y, request.fields)
      ensures replies == old(replies) + 1 && y == old(y) && SameEstimate()
      ensures replies < 2 + K ==> outcome.Done? && outbox == old(outbox)
      ensures replies >= 2 + K ==>
        var b := Selection(); var forward := ForwardQuery(y, b, request.fields.routingList);
        (outcome.Done? <==> GateExists(forward.gate, K)) &&
        (outcome.Done? ==> outbox == old(outbox) + [forward]) &&
        (outcome.Fault? ==> outbox == old(outbox))
    {
      var distance := Fabs(y - request.fields.x);
      if distance < bestPathDistance {
        bestPathDistance := distance;
        bestPathNeighbour := request.fields.neighbour;
        bestPathLongLinkNumber := request.fields.longLinkNumber;
      }
      replies := replies + 1;
      if replies < 2 + K {
        return Done;
      }
      var forward := ForwardQuery(y, Selection(), request.fields.routingList);
      if !GateExists(forward.gate, K) {
        return Fault("long link index out of range");
      }
      outbox := outbox + [forward];
      return Done;
    }

    /** areUXManager: the position query, and a manager query for the same point and list scheduled to itself. */
    method OnAreUXManager(request: Message)
      modifies this
      ensures outbox == old(outbox) + [PositionQuery,
        Schedule(Message(AmIXManager, SimPacket.Blank.(x := request.fields.x, routingList := request.fields.routingList)))]
      ensures SameEstimate() && SamePath()
    {
      var rl := request.fields.routingList;
      var copied := RoutingList.CopyEntries(RoutingList.Resized([], |rl|), rl, |rl|);
      CopyIntoSized(rl);
      outbox := outbox + [PositionQuery];
      outbox := outbox + [Schedule(Message(AmIXManager, SimPacket.Blank.(x := request.fields.x, routingList := copied.value)))];
    }

    /** handleMessage: dispatch on the message name; managerIndexIs and unknown names are ignored. */
    method HandleMessage(request: Message) returns (outcome: Outcome)
      requires Valid()
      modifies this
      ensures outcome.Done? ==> Valid()
      ensures x == old(x) && nLinkEstimate == old(nLinkEstimate)
      ensures request.kind == Unknown || request.kind == ManagerIndexIs ==>
        outcome.Done? && SameEstimate() && SamePath() && outbox == old(outbox)
    {
      outcome := Done;
      match request.kind {
        case AskForX => OnAskForX(request);
        case MyX => OnMyX(request);
        case AskForSegmentLength => OnAskForSegmentLength(request);
        case SegmentLengthCalculated => OnSegmentLengthCalculated(request);
        case MySegmentLength => outcome := OnMySegmentLength(request);
        case UpdateEstimate => OnUpdateEstimate(request);
        case AmIXManager => outcome := OnAmIXManager(request);
        case AskXToFindShortestPath => outcome := OnAskXToFindShortestPath(request);
        case MyXToFindShortestPath => outcome := OnMyXToFindShortestPath(request);
        case AreUXManager => OnAreUXManager(request);
        case ManagerIndexIs =>
        case Unknown =>
      }
    }
  }
}
