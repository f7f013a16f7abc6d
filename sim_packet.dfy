/**
 * The generated message class of the SymphonyDHTSim variant: who the sender is relative to
 * the receiver ("prev", "next" or "onLongLink"), the long-link number, a position, a segment
 * length, an integer size estimate, the index of a manager and the routing list.
 */
module SimPacket {
  import opened Wrappers
  import RoutingList

  /** The contents of a packet as a value. */
  datatype Fields = Fields(
    neighbour: string,
    longLinkNumber: int,
    x: real,
    segmentLength: real,
    estimate: int,
    manager: int,
    routingList: seq<int>)

  /** A packet as built by the constructor: everything zero, the string empty, no routing list. */
  const Blank := Fields("", 0, 0.0, 0.0, 0, 0, [])

  class Packet {
    var neighbour: string
    var longLinkNumber: int
    var x: real
    var segmentLength: real
    var estimate: int
    var manager: int
    var routingList: array<int>

    function Value(): Fields
      reads this, routingList
    {
      Fields(neighbour, longLinkNumber, x, segmentLength, estimate, manager, routingList[..])
    }

    constructor ()
      ensures Value() == Blank
      ensures fresh(routingList)
    {
      neighbour := "";
      longLinkNumber := 0;
      x := 0.0;
      segmentLength := 0.0;
      estimate := 0;
      manager := 0;
      routingList := new int[0];
    }

    /** The copy constructor (dup): a new packet with the same fields and its own routing list. */
    method Dup() returns (p: Packet)
      ensures fresh(p) && fresh(p.routingList)
      ensures p.Value() == Value()
    {
      p := new Packet();
      p.Copy(this);
    }

    /** copy(other): every field and the whole routing list taken from other. */
    method Copy(other: Packet)
      requires other != this
      modifies this
      ensures fresh(routingList)
      ensures Value() == old(other.Value())
    {
      neighbour := other.neighbour;
      longLinkNumber := other.longLinkNumber;
      x := other.x;
      segmentLength := other.segmentLength;
      estimate := other.estimate;
      manager := other.manager;
      routingList := RoutingList.CopiedBuffer(other.routingList);
    }

    /** setRoutingListArraySize(size): prefix kept, new tail zero, size becomes `size`. */
    method SetRoutingListArraySize(size: nat)
      modifies this
      ensures fresh(routingList)
      ensures Value() == old(Value()).(routingList := RoutingList.Resized(old(routingList[..]), size))
    {
      routingList := RoutingList.ResizedBuffer(routingList, size);
    }

    /** getRoutingList(k): entry k, or a runtime error (None) when k is not below the size. */
    method GetRoutingList(k: int) returns (r: Option<int>)
      ensures r.Some? <==> 0 <= k < routingList.Length
      ensures r.Some? ==> r.value == routingList[k]
    {
      if 0 <= k < routingList.Length {
        r := Some(routingList[k]);
      } else {
        r := None;
      }
    }

    /** setRoutingList(k, v): a runtime error (false) out of range; otherwise only entry k changes. */
    method SetRoutingList(k: int, v: int) returns (ok: bool)
      modifies routingList
      ensures ok <==> 0 <= k < routingList.Length
      ensures ok ==> routingList[..] == old(routingList[..])[k := v]
      ensures !ok ==> routingList[..] == old(routingList[..])
    {
      ok := 0 <= k < routingList.Length;
      if ok {
        routingList[k] := v;
      }
    }
  }
}
