/**
 * The generated message class of the SymphonyDHTMod variant: a position, a segment length,
 * a size estimate (a double in this layout), the gate index back to the asker of a segment
 * length, the routing list and the index of a manager.
 */
module ModPacket {
  import opened Wrappers
  import RoutingList

  /** The contents of a packet as a value. */
  datatype Fields = Fields(
    x: real,
    segmentLength: real,
    nEstimate: real,
    toSenderGateIndex: int,
    routingList: seq<int>,
    manager: int)

  /** A packet as built by the constructor: every number zero, no routing list. */
  const Blank := Fields(0.0, 0.0, 0.0, 0, [], 0)

  class Packet {
    var x: real
    var segmentLength: real
    var nEstimate: real
    var toSenderGateIndex: int
    var routingList: array<int>
    var manager: int

    function Value(): Fields
      reads this, routingList
    {
      Fields(x, segmentLength, nEstimate, toSenderGateIndex, routingList[..], manager)
    }

    constructor ()
      ensures Value() == Blank
      ensures fresh(routingList)
    {
      x := 0.0;
      segmentLength := 0.0;
      nEstimate := 0.0;
      toSenderGateIndex := 0;
      routingList := new int[0];
      manager := 0;
    }

    /** The copy constructor (dup): a new packet with the same fields and its own routing list. */
    method Dup() returns (p: Packet)
      ensures fresh(p) && fresh(p.routingList)
      ensures p.Value() == Value()
    {
      p := new Packet();
      p.Copy(this);
    }

    /** copy(other): every field and the whole routing list taken from other. */
    method Copy(other: Packet)
      requires other != this
      modifies this
      ensures fresh(routingList)
      ensures Value() == old(other.Value())
    {
      x := other.x;
      segmentLength := other.segmentLength;
      nEstimate := other.nEstimate;
      toSenderGateIndex := other.toSenderGateIndex;
      routingList := RoutingList.CopiedBuffer(other.routingList);
      manager := other.manager;
    }

    /** setRoutingListArraySize(size): prefix kept, new tail zero, size becomes `size`. */
    method SetRoutingListArraySize(size: nat)
      modifies this
      ensures fresh(routingList)
      ensures Value() == old(Value()).(routingList := RoutingList.Resized(old(routingList[..]), size))
    {
      routingList := RoutingList.ResizedBuffer(routingList, size);
    }

    /** getRoutingList(k): entry k, or a runtime error (None) when k is not below the size. */
    method GetRoutingList(k: int) returns (r: Option<int>)
      ensures r.Some? <==> 0 <= k < routingList.Length
      ensures r.Some? ==> r.value == routingList[k]
    {
      if 0 <= k < routingList.Length {
        r := Some(routingList[k]);
      } else {
        r := None;
      }
    }

    /** setRoutingList(k, v): a runtime error (false) out of range; otherwise only entry k changes. */
    method SetRoutingList(k: int, v: int) returns (ok: bool)
      modifies routingList
      ensures ok <==> 0 <= k < routingList.Length
      ensures ok ==> routingList[..] == old(routingList[..])[k := v]
      ensures !ok ==> routingList[..] == old(routingList[..])
    {
      ok := 0 <= k < routingList.Length;
      if ok {
        routingList[k] := v;
      }
    }
  }
}
