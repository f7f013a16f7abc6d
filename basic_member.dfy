/**
 * The minimal member of the SimphonyDHT variant: it only runs the size-estimation protocol.
 * A member asks both short-link neighbours for their segment lengths and computes its own
 * from its predecessor's position; on the second reply it stores the estimate and sends it
 * to both neighbours, which adopt it.
 *
 * The simulator is replaced by parameters: the member's own gate vector and the index of
 * the module that sent the message are inputs, and what the member sends or schedules for
 * itself is appended to an outbox.
 */
module SimphonyBasic {
  import opened Wrappers
  import Geometry
  import Estimation
  import Gates
  import ModPacket

  /** The message names this member dispatches on; any other name is ignored. */
  datatype Kind =
    | NeedYourIntervalPosition   // "needYourIntervalPositionToCalculateMySegmentLength"
    | ThisIsMyIntervalPosition
    | NeedYourSegmentLength
    | MySegmentLengthIsReady
    | ThisIsMySegmentLength
    | UpdateYourEstimate
    | Unknown

  /** A message: its name and the packet fields it carries. */
  datatype Message = Message(kind: Kind, fields: ModPacket.Fields)

  /** A message sent on output gate `gate`, or scheduled to the member itself. */
  datatype Emission = Send(gate: nat, msg: Message) | Schedule(msg: Message)

  /** How handling a message ended: normally, or with a simulator error or undefined behaviour. */
  datatype Outcome = Done | Fault(reason: string)

  function Fresh(kind: Kind): Message {
    Message(kind, ModPacket.Blank)
  }

  /** calculateSegmentLength: ask the predecessor (gate 0) for its position. */
  const PositionQuery: Emission := Send(0, Fresh(NeedYourIntervalPosition))

  /** nEstimateProcedure: a segment-length query on each short link, then the position query. */
  const EstimateQueries: seq<Emission> :=
    [Send(0, Fresh(NeedYourSegmentLength)), Send(1, Fresh(NeedYourSegmentLength)), PositionQuery]

  /** The estimate sent back to both short-link neighbours, in a copy of the triggering reply. */
  function EstimateUpdates(request: Message, estimate: int): seq<Emission> {
    var m := Message(UpdateYourEstimate, request.fields.(nEstimate := estimate as real));
    [Send(0, m), Send(1, m)]
  }

  class Member {
    var x: real
    var segmentLength: real
    var nEstimate: int
    var nEstimateAtLinking: int
    var neighboursTotalSegmentsLengths: real
    var receivedSegments: int
    var outbox: seq<Emission>

    function Accumulator(): Estimation.Accumulator
      reads this
    {
      Estimation.Accumulator(neighboursTotalSegmentsLengths, receivedSegments)
    }

    /** Between events at most one segment reply has been counted. */
    predicate Valid()
      reads this
    {
      Estimation.Waiting(Accumulator())
    }

    /**
     * initialize: member `index` of `dhtSize` sits at index / dhtSize, estimates the size as
     * dhtSize and has no segment yet; member 0 starts the estimation protocol.
     */
    constructor (index: nat, dhtSize: nat)
      requires dhtSize > 0
      ensures Valid()
      ensures x == index as real / dhtSize as real && segmentLength == 0.0
      ensures nEstimate == dhtSize && nEstimateAtLinking == dhtSize
      ensures Accumulator() == Estimation.Reset
      ensures outbox == if index == 0 then EstimateQueries else []
    {
      x := index as real / dhtSize as real;
      segmentLength := 0.0;
      nEstimate := dhtSize;
      nEstimateAtLinking := dhtSize;
      neighboursTotalSegmentsLengths := 0.0;
      receivedSegments := 0;
      outbox := [];
      new;
      if index == 0 {
        NEstimateProcedure();
      }
    }

    /** nEstimateProcedure: exactly the three queries, nothing else changes. */
    method NEstimateProcedure()
      modifies this
      ensures outbox == old(outbox) + EstimateQueries
      ensures x == old(x) && segmentLength == old(segmentLength) && nEstimate == old(nEstimate)
      ensures nEstimateAtLinking == old(nEstimateAtLinking) && Accumulator() == old(Accumulator())
    {
      var i := 0;
      while i < 2
        invariant 0 <= i <= 2
        invariant outbox == old(outbox) + EstimateQueries[..i]
        invariant x == old(x) && segmentLength == old(segmentLength) && nEstimate == old(nEstimate)
        invariant nEstimateAtLinking == old(nEstimateAtLinking) && Accumulator() == old(Accumulator())
      {
        outbox := outbox + [Send(i, Fresh(NeedYourSegmentLength))];
        i := i + 1;
      }
      outbox := outbox + [PositionQuery];
    }

    /** The fields the estimation and segment branches may change, and the outbox, are all as before. */
    twostate predicate Unchanged()
      reads this
    {
      x == old(x) && segmentLength == old(segmentLength) && nEstimate == old(nEstimate) &&
      nEstimateAtLinking == old(nEstimateAtLinking) && Accumulator() == old(Accumulator()) &&
      outbox == old(outbox)
    }

    /** needYourIntervalPosition...: reply with a copy of the request carrying this member's position. */
    method OnNeedYourIntervalPosition(back: int, request: Message) returns (outcome: Outcome)
      modifies this
      ensures outcome.Done? <==> back >= 0
      ensures outcome.Done? ==> outbox == old(outbox) + [Send(back, Message(ThisIsMyIntervalPosition, request.fields.(x := x)))]
      ensures outcome.Fault? ==> outbox == old(outbox)
      ensures x == old(x) && segmentLength == old(segmentLength) && nEstimate == old(nEstimate)
      ensures nEstimateAtLinking == old(nEstimateAtLinking) && Accumulator() == old(Accumulator())
    {
      if back < 0 {
        // the reply would go through an uninitialised gate pointer
        return Fault("no gate leads back to the sender");
      }
      outbox := outbox + [Send(back, Message(ThisIsMyIntervalPosition, request.fields.(x := x)))];
      return Done;
    }

    /** thisIsMyIntervalPosition: the segment length from the predecessor's position; nothing is sent. */
    method OnThisIsMyIntervalPosition(request: Message)
      modifies this
      ensures segmentLength == Geometry.SegmentLength(request.fields.x, x)
      ensures x == old(x) && nEstimate == old(nEstimate) && nEstimateAtLinking == old(nEstimateAtLinking)
      ensures Accumulator() == old(Accumulator()) && outbox == old(outbox)
    {
      segmentLength := Geometry.SegmentLength(request.fields.x, x);
    }

    /**
     * needYourSegmentLength: start computing the own segment and schedule the answer, which
     * remembers the gate back to the asker.
     */
    method OnNeedYourSegmentLength(back: int, request: Message)
      modifies this
      ensures outbox == old(outbox) + [PositionQuery, Schedule(Message(MySegmentLengthIsReady, request.fields.(toSenderGateIndex := back)))]
      ensures x == old(x) && segmentLength == old(segmentLength) && nEstimate == old(nEstimate)
      ensures nEstimateAtLinking == old(nEstimateAtLinking) && Accumulator() == old(Accumulator())
    {
      outbox := outbox + [PositionQuery];
      outbox := outbox + [Schedule(Message(MySegmentLengthIsReady, request.fields.(toSenderGateIndex := back)))];
    }

    /**
     * mySegmentLengthIsReady: send the segment length on the remembered gate of the gate
     * vector `gates`; a gate that does not exist or is not connected is a fault.
     */
    method OnMySegmentLengthIsReady(gates: Gates.Row, request: Message) returns (outcome: Outcome)
      modifies this
      ensures var g := request.fields.toSenderGateIndex;
        (outcome.Done? <==> 0 <= g < |gates| && gates[g].Some?) &&
        (outcome.Done? ==> outbox == old(outbox) + [Send(g, Message(ThisIsMySegmentLength, request.fields.(segmentLength := segmentLength)))]) &&
        (outcome.Fault? ==> outbox == old(outbox))
      ensures x == old(x) && segmentLength == old(segmentLength) && nEstimate == old(nEstimate)
      ensures nEstimateAtLinking == old(nEstimateAtLinking) && Accumulator() == old(Accumulator())
    {
      var g := request.fields.toSenderGateIndex;
      if !(0 <= g < |gates|) {
        return Fault("gate index out of range");
      }
      if gates[g].None? {
        return Fault("gate not connected");
      }
      outbox := outbox + [Send(g, Message(ThisIsMySegmentLength, request.fields.(segmentLength := segmentLength)))];
      return Done;
    }

    /**
     * thisIsMySegmentLength: add the reply to the accumulator; on the second reply store the
     * truncated estimate, reset the accumulator and send the estimate on both short links.
     */
    method OnThisIsMySegmentLength(request: Message) returns (outcome: Outcome)
      requires Valid()
      modifies this
      ensures var acc := old(Accumulator()); var reply := request.fields.segmentLength;
        (outcome.Fault? <==> Estimation.Fires(acc) && acc.total + reply + segmentLength == 0.0) &&
        (outcome.Done? ==>
          var step := Estimation.SegmentReply(acc, segmentLength, reply);
          Valid() && Accumulator() == step.0 &&
          (step.1.Some? ==> nEstimate == step.1.value && outbox == old(outbox) + EstimateUpdates(request, nEstimate)) &&
          (step.1.None? ==> nEstimate == old(nEstimate) && outbox == old(outbox)))
      ensures x == old(x) && segmentLength == old(segmentLength) && nEstimateAtLinking == old(nEstimateAtLinking)
    {
      var total := neighboursTotalSegmentsLengths + request.fields.segmentLength;
      var received := receivedSegments + 1;
      if received == 2 {
        if total + segmentLength == 0.0 {
          return Fault("division by zero in the size estimate");
        }
        nEstimate := Estimation.SizeEstimate(total, segmentLength);
        neighboursTotalSegmentsLengths := 0.0;
        receivedSegments := 0;
        var i := 0;
        while i < 2
          invariant 0 <= i <= 2
          invariant outbox == old(outbox) + EstimateUpdates(request, nEstimate)[..i]
          invariant x == old(x) && segmentLength == old(segmentLength) && nEstimateAtLinking == old(nEstimateAtLinking)
          invariant nEstimate == Estimation.SizeEstimate(total, segmentLength) && Accumulator() == Estimation.Reset
        {
          outbox := outbox + [Send(i, Message(UpdateYourEstimate, request.fields.(nEstimate := nEstimate as real)))];
          i := i + 1;
        }
      } else {
        neighboursTotalSegmentsLengths := total;
        receivedSegments := received;
      }
      return Done;
    }

    /** updateYourEstimate: adopt the received estimate (a double stored in an int); nothing else changes. */
    method OnUpdateYourEstimate(request: Message)
      modifies this
      ensures nEstimate == Estimation.TruncateToInt(request.fields.nEstimate)
      ensures x == old(x) && segmentLength == old(segmentLength) && nEstimateAtLinking == old(nEstimateAtLinking)
      ensures Accumulator() == old(Accumulator()) && outbox == old(outbox)
    {
      nEstimate := Estimation.TruncateToInt(request.fields.nEstimate);
    }

    /**
     * handleMessage. `gates` is this member's output gate vector and `sender` the module that
     * sent the message; the gate leading back to the sender is looked up first, as the source
     * does, and the message is dispatched on its name.
     */
    method HandleMessage(gates: Gates.Row, sender: nat, request: Message) returns (outcome: Outcome)
      requires Valid()
      modifies this
      ensures outcome.Done? ==> Valid()
      ensures x == old(x) && nEstimateAtLinking == old(nEstimateAtLinking)
      ensures request.kind == Unknown ==> outcome.Done? && Unchanged()
    {
      var back := Gates.GateToModule(gates, sender);
      outcome := Done;
      match request.kind {
        case NeedYourIntervalPosition =>
          outcome := OnNeedYourIntervalPosition(back, request);
        case ThisIsMyIntervalPosition =>
          OnThisIsMyIntervalPosition(request);
        case NeedYourSegmentLength =>
          OnNeedYourSegmentLength(back, request);
        case MySegmentLengthIsReady =>
          outcome := OnMySegmentLengthIsReady(gates, request);
        case ThisIsMySegmentLength =>
          outcome := OnThisIsMySegmentLength(request);
        case UpdateYourEstimate =>
          OnUpdateYourEstimate(request);
        case Unknown =>
      }
    }
  }
}
