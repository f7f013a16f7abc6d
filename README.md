# Symphony DHT members, modelled in Dafny

This project models the member logic of three variants of a Symphony small-world distributed hash table, written for the OMNeT++ simulator. The overlay works like this:

- Every member of the ring sits at a position in the unit interval [0,1), read as a ring. A member that has not joined yet starts at index / connected, which is 1 or more.
- A member manages the arc that ends at its own position and starts at its predecessor's.
- Every member has two short links, gate 0 to its predecessor and gate 1 to its successor, and long links from gate 2 on.

The model covers these parts:

- **Ring geometry** (`Geometry`): the segment length from the predecessor's position, the manager test, the forward circular distance, and the fact that on a ring of strictly increasing positions every point has exactly one manager.
- **Size estimation** (`Estimation`):
  - the estimate `3 / (sum of the neighbours' segments + own segment)`, stored in a C++ `int` and therefore truncated toward zero;
  - the two-reply accumulator that produces it;
  - the relink test, which uses truncating `int` division.
- **Routing list** (`RoutingList`): the stack of gate indices a request carries towards a manager. It is pushed on the forward leg and popped on the return leg, and stored in the generated packet classes as a resizable `int` buffer (`SimPacket`, `ModPacket`, both with array-backed `Packet` classes).
- **Gate wiring** (`Gates`):
  - an explicit table of the output half of every gate, kept as link pairs;
  - the slot queries: neighbour count, first free gate, last connected gate, gate to a module, already connected, free gate available;
  - the greedy best neighbour;
  - disconnection and connection of a link pair, and dropping all long links.
  - Every operation that cuts a link (the join and leave splices, dropAllLongLinks and the eviction of a long link) uses the corrected disconnectGate, and the eviction the corrected getLastConnectedGate. The code as written is modelled beside them under Findings.
- **Ring surgery** (`Ring`):
  - the join splice, which puts a joining member between a manager and its predecessor;
  - the leave splice, which links a leaving member's predecessor to its successor;
  - proofs that the successor walk still visits every ring member exactly once.
- **The three members:**
  - `SimphonyBasic.Member`: SimphonyDHT, size estimation only.
  - `SimphonySim.Member`: SymphonyDHTSim, with named gates, the -2/-1/long-link routing-list encoding and best-path selection by `fabs`.
  - `SymphonyMod.Member` with `SymphonyMod.Overlay`: SymphonyDHTMod, the full protocol with relinking in batches of K, join and leave.
  - Each has one method per message kind and a `HandleMessage` dispatcher that replaces the `isName`/`strcmp` chain.

The simulator's side effects become state:

- A message that is sent or scheduled (`send`, `scheduleAt`) is appended to an outbox.
- A simulator runtime error is an `Outcome.Fault`: an out-of-range gate, a NULL gate, gate -1, integer division by zero, or `3 / 0` converted to `int`. Nothing is claimed about the state after a fault.
- Random draws and other members are inputs of the handlers:
  - `sample` is the relink point;
  - `joinPoint` is the position a joining member draws;
  - `friend` is the member a joiner talks to;
  - `joiner` is the joining member that a JOIN search ends with;
  - `xs` holds the positions of all members.

## Model

| member | source | states |
|---|---|---|
| Geometry.SegmentLength | SymphonyDHTMod/dhtmember.cc:503-508 | the segment is x - prev or x - prev + 1; for positions in [0,1) it lies in (0,1] and is 1 exactly when prev == x |
| SimphonySim.CalculateSegmentLength | SymphonyDHTSim/dhtmember.cc:386-391 | equals the Mod segment length and lies in (0,1] for positions in [0,1) |
| Geometry.CircularDistance | SymphonyDHTMod/dhtmember.cc:339-341 | the forward distance is to - from or to - from + 1, lies in [0,1) for a point in [0,1] and a position in [0,1), and is 0 exactly when two positions in [0,1) are equal |
| Geometry.IsManager | SymphonyDHTMod/dhtmember.cc:534-547 | amIManagerForPoint with delta = x - segment: the point is managed when delta < p <= x if delta >= 0, and when p > 1 + delta or p <= x if delta < 0; ManagerIffWithinSegment and ManagerExistsAndIsUnique state what the test means |
| Geometry.ManagerIffWithinSegment | SymphonyDHTMod/dhtmember.cc:534-547 | for a point in [0,1], including relink's point 1, the two-case manager test holds exactly when the point is less than one segment behind the member's position on the ring |
| Geometry.ManagesOwnPosition | SymphonyDHTMod/dhtmember.cc:534-547 | a member with a segment in (0,1] manages its own position |
| Geometry.DoesNotManagePredecessor | SymphonyDHTMod/dhtmember.cc:534-547 | a member with a segment in (0,1) does not manage its predecessor's position (x - segment) mod 1, whether or not the segment wraps |
| Geometry.PredecessorFromSegment | SymphonyDHTMod/dhtmember.cc:503-508 | stepping one segment back from x gives the predecessor's position again |
| Geometry.InnerManager | SymphonyDHTMod/dhtmember.cc:534-547 | on a ring of increasing positions, member i > 0 manages a point p of [0,1] exactly when xs[i-1] < p <= xs[i] |
| Geometry.FirstManager | SymphonyDHTMod/dhtmember.cc:534-547 | member 0 manages a point p of [0,1] exactly when p is above the last position or at most its own |
| Geometry.FindInner | SymphonyDHTMod/dhtmember.cc:534-547 | a point inside the ring's span has a manager at or beyond the given index |
| Geometry.ManagerExistsAndIsUnique | SymphonyDHTMod/dhtmember.cc:534-547 | every point of [0,1], the point 1 included, has exactly one manager on a ring of increasing positions |
| Geometry.ManagersDistinct | SymphonyDHTMod/dhtmember.cc:534-547 | no two members manage the same point |
| Geometry.PointOneManagedByFirst | SymphonyDHTMod/dhtmember.cc:534-547 | the point 1, which relink draws when the estimate is 1, is managed on a ring of increasing positions by the first member, whose arc wraps around 0, and by no other member |
| Geometry.FourMemberScenario | SymphonyDHTMod/dhtmember.cc:534-547 | on the ring 0, 0.25, 0.5, 0.75 the last member has segment 0.25 and manages (0.5, 0.75] |
| Geometry.PredIndex | SymphonyDHTMod/dhtmember.cc:534-547 | the predecessor index on a ring of n members is below n |
| Estimation.TruncateToInt | SymphonyDHTMod/dhtmember.cc:221 | the double-to-int conversion truncates toward zero: 0 <= n <= r < n + 1 for r >= 0, and symmetrically below 0 |
| Estimation.IntDiv | SymphonyDHTSim/dhtmember.cc:377-379 | the int quotient truncates toward zero: the remainder is smaller than the divisor in absolute value and has the dividend's sign |
| Estimation.DivParts | SymphonyDHTSim/dhtmember.cc:377-379 | the quotient built from absolute values and signs meets the truncating-division conditions |
| Estimation.SizeEstimate | SymphonyDHTMod/dhtmember.cc:221 | the estimate is 3 / (neighbours' total + own segment) truncated: n*d <= 3 < (n+1)*d for a positive sum, at most 0 for a negative one, at least 1 when the sum is in (0,3] |
| Estimation.EstimateBounds | SymphonyDHTMod/dhtmember.cc:221 | the bounds of the truncated estimate for positive and negative denominators |
| Estimation.MulMonotone | SymphonyDHTMod/dhtmember.cc:221 | multiplying by a positive denominator keeps an order |
| Estimation.MulStrict | SymphonyDHTMod/dhtmember.cc:221 | multiplying by a positive denominator keeps a strict order |
| Estimation.EstimateScenario | SymphonyDHTMod/dhtmember.cc:221 | neighbours' segments 0.2 and 0.3 and an own segment of 0.1 give the estimate 5 |
| Estimation.EstimateRatio | SymphonyDHTMod/dhtmember.cc:479-482 | the ratio of the two int estimates is their real quotient truncated toward zero; for a non-negative estimate and a positive estimate at linking it is the whole number q >= 0 with q * nEstimateAtLinking <= nEstimate < (q + 1) * nEstimateAtLinking |
| Estimation.IntDivTruncates | SymphonyDHTMod/dhtmember.cc:479-482 | the int quotient equals the real quotient truncated toward zero, for every sign of dividend and divisor |
| Estimation.IntDivBounds | SymphonyDHTMod/dhtmember.cc:479-482 | for a non-negative dividend and a positive divisor the int quotient q is the non-negative whole number with q * b <= a < (q + 1) * b |
| Estimation.NeedToRelink | SymphonyDHTMod/dhtmember.cc:479-482 | needToRelink: the int quotient of the estimate by the estimate at linking, compared against 0.5 and 2; NeedToRelinkIff turns it into a test on the two estimates |
| Estimation.NeedToRelinkIff | SymphonyDHTMod/dhtmember.cc:479-482 | with a non-negative estimate and a positive estimate at linking, relinking is needed exactly when nEstimate < nEstimateAtLinking or nEstimate >= 3 * nEstimateAtLinking, since the int quotient is below 0.5 or above 2 |
| Estimation.QuotientBounds | SymphonyDHTMod/dhtmember.cc:479-482 | for a positive divisor the truncated quotient is at most 0 exactly when the dividend is smaller, and at least 3 exactly when the dividend is at least three times the divisor |
| Estimation.SegmentReply | SymphonyDHTMod/dhtmember.cc:206-223 | a reply is added and counted; it produces an estimate exactly when it is the second reply, and then the accumulator is reset; a waiting accumulator (count 0 or 1) stays waiting |
| Estimation.TwoRepliesFire | SymphonyDHTMod/dhtmember.cc:206-223 | from reset, the first reply only records its value and the second gives 3 / (first + second + own) and resets |
| RoutingList.Zeros | SymphonyDHTSim/packet_m.cc:180-181 | the zero fill has length n and only zeros |
| RoutingList.Resized | SymphonyDHTSim/packet_m.cc:174-185 | a resized list has the new size, keeps the entries below min(old, new) and is 0 above the old size |
| RoutingList.Get | SymphonyDHTSim/packet_m.cc:192-196 | reading entry k fails exactly when k is not below the size, and returns entry k otherwise |
| RoutingList.Set | SymphonyDHTSim/packet_m.cc:198-202 | writing entry k fails exactly when k is not below the size, and otherwise changes entry k only |
| RoutingList.Push | SymphonyDHTMod/dhtmember.cc:321-322 | the forward leg: the list grown by one with the entry written at the old size; PushPop proves this appends the entry |
| RoutingList.Pop | SymphonyDHTMod/dhtmember.cc:277-281 | the return leg: the last entry is read and the list shrunk by one; PushPop and PopPush prove it inverts Push |
| RoutingList.PushPop | SymphonyDHTMod/dhtmember.cc:321-322 | growing by one and writing at the old size appends the entry, and popping that list gives back the entry and the old list |
| RoutingList.PopPush | SymphonyDHTMod/dhtmember.cc:265-272 | popping a non-empty list and pushing the popped entry back restores it |
| RoutingList.ResizedIdentities | SymphonyDHTSim/packet_m.cc:174-185 | resizing to the same size changes nothing, and growing then shrinking back restores the list |
| RoutingList.CopyPrefix | SymphonyDHTSim/dhtmember.cc:221-222 | copying the first count entries into a list fails exactly when count exceeds either size, and otherwise replaces exactly that prefix |
| RoutingList.CopyEntries | SymphonyDHTSim/dhtmember.cc:221-222 | the loop writing entries one by one computes the prefix copy, including its first failing write |
| RoutingList.ResizedBuffer | SymphonyDHTSim/packet_m.cc:174-185 | the two loops of setRoutingListArraySize produce a fresh buffer holding the resized list |
| RoutingList.CopiedBuffer | SymphonyDHTSim/packet_m.cc:75-79 | the copy loop produces a fresh buffer with the same entries |
| SimPacket.Packet.constructor | SymphonyDHTSim/packet_m.cc:35-45 | a new packet has every number zero, no neighbour and an empty routing list |
| SimPacket.Packet.Dup | SymphonyDHTSim/packet_m.cc:47-52 | the copy constructor gives a fresh packet with equal fields and its own routing list |
| SimPacket.Packet.Copy | SymphonyDHTSim/packet_m.cc:67-80 | after copy every field and the whole routing list equal the other packet's |
| SimPacket.Packet.SetRoutingListArraySize | SymphonyDHTSim/packet_m.cc:174-185 | the routing list becomes the resized list and no other field changes |
| SimPacket.Packet.GetRoutingList | SymphonyDHTSim/packet_m.cc:192-196 | fails exactly when k is not below the size, and otherwise returns entry k |
| SimPacket.Packet.SetRoutingList | SymphonyDHTSim/packet_m.cc:198-202 | fails exactly when k is not below the size and leaves the list unchanged then; otherwise only entry k changes, to v |
| ModPacket.Packet.constructor | SimphonyDHTMod/packet_m.cc:35-44 | a new packet has every field 0 and an empty routing list |
| ModPacket.Packet.Dup | SimphonyDHTMod/packet_m.cc:46-51 | the copy constructor gives a fresh packet with equal fields and its own routing list |
| ModPacket.Packet.Copy | SimphonyDHTMod/packet_m.cc:66-78 | after copy x, segmentLength, nEstimate, toSenderGateIndex, manager and the routing list equal the other packet's |
| ModPacket.Packet.SetRoutingListArraySize | SimphonyDHTMod/packet_m.cc:150-161 | the routing list becomes the resized list: prefix kept, tail zero, new size |
| ModPacket.Packet.GetRoutingList | SimphonyDHTMod/packet_m.cc:168-172 | fails exactly when k is not below the size, and otherwise returns entry k |
| ModPacket.Packet.SetRoutingList | SimphonyDHTMod/packet_m.cc:174-178 | fails exactly when k is not below the size; otherwise only entry k changes |
| Gates.InConnectedIff | SymphonyDHTMod/dhtmember.cc:700-715 | in a wiring of link pairs an input half is fed exactly when the output half of the same index is connected, so the first free input and output gates coincide |
| Gates.FeedIsUnique | SymphonyDHTMod/dhtmember.cc:700-715 | in a wiring of link pairs an input half is fed by at most one output half |
| Gates.CountConnected | SymphonyDHTMod/dhtmember.cc:511-522 | the count of connected gates below n is at most n, and is n exactly when all of them are connected |
| Gates.NeighboursNumber | SymphonyDHTMod/dhtmember.cc:511-522 | the loop counts the connected gates |
| Gates.HasAvailableConnections | SymphonyDHTMod/dhtmember.cc:643-651 | true exactly when some gate is unconnected |
| Gates.CountBelowIffFree | SymphonyDHTMod/dhtmember.cc:511-522 | fewer neighbours than gates exactly when some gate is free |
| Gates.AlreadyConnected | SymphonyDHTMod/dhtmember.cc:654-666 | true exactly when some gate leads to the given member |
| Gates.FirstTo | SymphonyDHTMod/dhtmember.cc:487-498 | the first gate from index i leading to m, or -1 when there is none |
| Gates.GateToModule | SymphonyDHTMod/dhtmember.cc:487-498 | getGateToModule returns the lowest gate leading to m, or -1 exactly when no gate does |
| Gates.FirstToIs | SimphonyDHT/dhtmember.cc:178-192 | a gate leading to m with no earlier such gate is the result of getGateToModule |
| Gates.FirstFree | SymphonyDHTMod/dhtmember.cc:684-696 | the first unconnected gate, none exactly when all are connected, with every lower gate connected |
| Gates.FirstFreeBelow | SymphonyDHTMod/dhtmember.cc:684-696 | the first unconnected gate at or above i |
| Gates.FirstUnconnectedGate | SymphonyDHTMod/dhtmember.cc:684-696 | the loop returns the lowest unconnected gate, or none |
| Gates.FirstFreeUnique | SymphonyDHTMod/dhtmember.cc:684-696 | an unconnected gate with every lower gate connected is the first free gate |
| Gates.LastConnectedFrom | SymphonyDHTMod/dhtmember.cc:671-679 | the highest connected gate at or above lo, or none |
| Gates.LastConnectedGateAsWritten | SymphonyDHTMod/dhtmember.cc:671-679 | the loop as written returns the highest connected gate above 2, never gate 2 |
| Gates.LastConnectedGate | SymphonyDHTMod/dhtmember.cc:671-679 | the corrected loop returns the highest connected long link, gate 2 included |
| Gates.LastConnectedUnique | SymphonyDHTMod/dhtmember.cc:671-679 | a connected gate with no connected gate above it is the last connected gate |
| Gates.LastConnectedNone | SymphonyDHTMod/dhtmember.cc:671-679 | with no connected gate from lo on there is no last connected gate |
| Gates.LastConnectedSkipsGateTwo | SymphonyDHTMod/dhtmember.cc:673 | with K = 1 and all three gates connected the loop as written finds nothing, while the corrected one finds gate 2 |
| Gates.BestNeighbourIndex | SymphonyDHTMod/dhtmember.cc:598-625 | for any point in [0,1], relink's point 1 included, returns -1 exactly when no gate is connected, and otherwise the lowest connected gate whose neighbour has the smallest forward distance to the point, with that distance |
| Gates.SetSlot | SymphonyDHTMod/dhtmember.cc:717-726 | only the one gate changes |
| Gates.Disconnect | SymphonyDHTMod/dhtmember.cc:717-726 | the corrected disconnectGate: the gate and the gate at its far end are both unconnected; DisconnectSpec and DisconnectAt state the whole effect |
| Gates.DisconnectSpec | SymphonyDHTMod/dhtmember.cc:717-726 | after cutting a link pair both halves are unconnected, the wiring is still made of pairs, and no other gate changes |
| Gates.DisconnectSpecLite | SymphonyDHTMod/dhtmember.cc:717-726 | cutting a link pair keeps the wiring made of pairs and every gate vector's size |
| Gates.DisconnectKeepsShape | SymphonyDHTMod/dhtmember.cc:717-726 | cutting a link pair keeps every member at the same gate count and every remaining link inside the table |
| Gates.DisconnectAt | SymphonyDHTMod/dhtmember.cc:717-726 | after the cut a gate is unconnected exactly when it is the cut gate or its reverse gate; any other gate keeps its link |
| Gates.DropFrom | SymphonyDHTMod/dhtmember.cc:728-735 | cutting the links from gate i on keeps the wiring made of pairs and the sizes |
| Gates.DropFromSpec | SymphonyDHTMod/dhtmember.cc:728-735 | after the loop exactly the member's gates from i on and the gates leading into them are unconnected, and every other gate is unchanged |
| Gates.DropLongLinksSpec | SymphonyDHTMod/dhtmember.cc:728-735 | after dropAllLongLinks every long link of the member is cut, gates 0 and 1 are unchanged, and the wiring is still made of pairs |
| Gates.ReverseGateIndex | SymphonyDHTMod/dhtmember.cc:630-640 | there is a reverse gate exactly when the given gate exists and is connected |
| Gates.ReverseGateLeadsBack | SymphonyDHTMod/dhtmember.cc:630-640 | in a wiring of pairs the reverse gate exists at the neighbour and leads back to the member |
| Gates.DisconnectAsWritten | SymphonyDHTMod/dhtmember.cc:717-726 | disconnectGate as written: the far end is found right, but the reverse gate is the first gate of the neighbour that leads back, which need not be the pair; it fails on a NULL gate or gate -1; DisconnectAsWrittenAgrees and DisconnectAsWrittenBreaksPairs compare it with Disconnect |
| Gates.DisconnectAsWrittenAgrees | SymphonyDHTMod/dhtmember.cc:717-726 | when the peer's first gate back is the pair of the cut gate, the code as written cuts the right pair |
| Gates.TwoRingIsSymmetric | SymphonyDHTMod/dhtmember.cc:717-726 | the two-member ring is a wiring of link pairs |
| Gates.TwoRingAsWritten | SymphonyDHTMod/dhtmember.cc:717-726 | in the two-member ring the code as written cuts gate 0 of the peer, not the pair of the cut gate |
| Gates.DisconnectAsWrittenBreaksPairs | SymphonyDHTMod/dhtmember.cc:717-726 | cutting gate 0 of a two-member ring as written leaves half links, so the wiring is no longer made of pairs |
| Gates.Connect | SymphonyDHTMod/dhtmember.cc:700-715 | the two connectTo calls: output gate i of a leads to gate j of b and back; ConnectSpec states the whole effect |
| Gates.ConnectSpec | SymphonyDHTMod/dhtmember.cc:700-715 | linking two free gates sets both halves, keeps the wiring made of pairs, and changes no other gate |
| Gates.ConnectKeepsShape | SymphonyDHTMod/dhtmember.cc:700-715 | linking two gates keeps every member at the same gate count and every link inside the table |
| Gates.ConnectKeepsPairs | SymphonyDHTMod/dhtmember.cc:700-715 | linking two distinct free gates keeps the wiring made of pairs |
| Ring.NextIndex | SymphonyDHTMod/dhtmember.cc:450-457 | the ring index after k stays in range |
| Ring.PrevIndex | SymphonyDHTMod/dhtmember.cc:450-457 | the ring index before k stays in range and its successor is k |
| Ring.PredecessorLink | SymphonyDHTMod/dhtmember.cc:926 | on a ring, gate 0 of a member leads to gate 1 of its predecessor |
| Ring.Walk | SymphonyDHTMod/dhtmember.cc:450-457 | the successor walk of n steps has n members |
| Ring.WalkConcat | SymphonyDHTMod/dhtmember.cc:450-457 | a walk of a + b steps is the walk of a steps followed by the walk of b steps |
| Ring.WalkToEnd | SymphonyDHTMod/dhtmember.cc:450-457 | from ring member k the successor walk runs through the rest of the ring and comes back to its start |
| Ring.SuccessorWalk | SymphonyDHTMod/dhtmember.cc:450-457 | from any member, the successor walk of the ring's length visits every member exactly once and returns to the start |
| Ring.JoinSplice | SymphonyDHTMod/dhtmember.cc:910-950 | addNodeWithSpecificIntervalPosition: the manager's predecessor link is cut, the joiner's gate 0 is linked to the predecessor's gate 1 and its gate 1 to the manager's gate 0; JoinSpliceLinks and JoinSpliceKeepsRing state the effect |
| Ring.JoinSpliceLinks | SymphonyDHTMod/dhtmember.cc:910-950 | after the join splice the predecessor's next is the joiner, the joiner's prev the predecessor, the joiner's next the manager and the manager's prev the joiner, the wiring is made of pairs, and nothing else changes |
| Ring.Joined | SymphonyDHTMod/dhtmember.cc:910-950 | the ring after a join has the joiner in the manager's place, just before the manager |
| Ring.JoinedDistinct | SymphonyDHTMod/dhtmember.cc:910-950 | the joined ring still lists distinct members |
| Ring.JoinedLinkedAt | SymphonyDHTMod/dhtmember.cc:910-950 | every member of the joined ring is linked to its successor in the new wiring |
| Ring.JoinSpliceKeepsRing | SymphonyDHTMod/dhtmember.cc:910-950 | the join splice of a new member before any ring member gives a ring of all old members plus the joiner |
| Ring.Removed | SymphonyDHTMod/dhtmember.cc:445-457 | the ring after a leave lists every other member in the same order |
| Ring.RemovedDistinct | SymphonyDHTMod/dhtmember.cc:445-457 | the remaining ring still lists distinct members |
| Ring.RemovedLinkedAt | SymphonyDHTMod/dhtmember.cc:445-457 | every remaining member is linked to its successor in the new wiring |
| Ring.LeaveSpliceKeepsRing | SymphonyDHTMod/dhtmember.cc:445-457 | the leave splice of a ring member succeeds, links its predecessor to its successor, and gives a ring of the remaining members |
| Ring.LeaveSpliceAt | SymphonyDHTMod/dhtmember.cc:450-457 | when the leaving member sits between prev and next, the splice succeeds, links prev's gate 1 with next's gate 0 as a pair, and leaves gate 1 of every other member alone |
| Ring.LeaveCut | SymphonyDHTMod/dhtmember.cc:450-455 | cutting both short links of the leaving member frees prev's gate 1 and next's gate 0, keeps the wiring made of pairs, and leaves gate 1 of every other member alone |
| SimphonyBasic.Member.constructor | SimphonyDHT/dhtmember.cc:47-73 | initialize: position index / DHTSize, estimates DHTSize, accumulator reset; member 0 starts the estimate |
| SimphonyBasic.Member.NEstimateProcedure | SimphonyDHT/dhtmember.cc:211-225 | exactly two segment-length queries, on gates 0 and 1, then one position query on gate 0; no field changes |
| SimphonyBasic.Member.OnNeedYourIntervalPosition | SimphonyDHT/dhtmember.cc:86-94 | the position reply goes back on the gate to the sender, and sending fails exactly when no gate leads there |
| SimphonyBasic.Member.OnThisIsMyIntervalPosition | SimphonyDHT/dhtmember.cc:95-101 | the segment length becomes the one from the predecessor's position; nothing else changes |
| SimphonyBasic.Member.OnNeedYourSegmentLength | SimphonyDHT/dhtmember.cc:102-113 | the position query and the scheduled reply with the gate back to the asker |
| SimphonyBasic.Member.OnMySegmentLengthIsReady | SimphonyDHT/dhtmember.cc:114-123 | the segment length goes out on the remembered gate, and fails exactly when that gate does not exist or is not connected |
| SimphonyBasic.Member.OnThisIsMySegmentLength | SimphonyDHT/dhtmember.cc:124-155 | the accumulator takes the reply step; on the second reply the estimate is the truncated 3 / sum and is sent on gates 0 and 1; it fails exactly when that sum is 0 |
| SimphonyBasic.Member.OnUpdateYourEstimate | SimphonyDHT/dhtmember.cc:156-163 | the estimate becomes the received value truncated to int, and no other field changes |
| SimphonyBasic.Member.HandleMessage | SimphonyDHT/dhtmember.cc:75-167 | the dispatch keeps the accumulator waiting, never moves the position or the estimate at linking, and ignores unknown messages |
| SimphonySim.OppositeOf | SymphonyDHTSim/dhtmember.cc:393-398 | "prev" becomes "next" and every other string "prev" |
| SimphonySim.OppositeInvolution | SymphonyDHTSim/dhtmember.cc:393-398 | on "prev" and "next" the map is an involution without fixed point |
| SimphonySim.GateByRef | SymphonyDHTSim/dhtmember.cc:400-405 | "prev" names prevShortLink$o and every other string nextShortLink$o |
| SimphonySim.RouteOf | SymphonyDHTSim/dhtmember.cc:225-235 | entry -2 selects the prev link, -1 the next link, k >= 0 long link k when k < K, and anything else no gate |
| SimphonySim.EntryRoundTrip | SymphonyDHTSim/dhtmember.cc:332-357 | the entry pushed for a route selects that same route on the way back |
| SimphonySim.ReturnLegAsWritten | SymphonyDHTSim/dhtmember.cc:213-223 | the return leg as written: it passes back only when rlSize - 1 > 0 and copies the rest into a reply whose list was never sized; ReturnLegAsWrittenFails and ReturnLegOffByOne show both faults |
| SimphonySim.ReturnLegAsWrittenFails | SymphonyDHTSim/dhtmember.cc:213-223 | as written, every return leg with two or more entries fails in setRoutingList, because the reply's list is never sized |
| SimphonySim.ReturnLeg | SymphonyDHTSim/dhtmember.cc:213-241 | corrected return leg: the requester is reached exactly when the list is empty; otherwise the last entry is popped, the rest is carried, and the hop goes where that entry selects |
| SimphonySim.RestIsPrefix | SymphonyDHTSim/dhtmember.cc:213-223 | the carried rest is the list without its last entry |
| SimphonySim.ReturnLegOffByOne | SymphonyDHTSim/dhtmember.cc:214 | with a one-entry list the code as written stops as if it were the requester, while the corrected leg still makes one hop |
| SimphonySim.ForwardList | SymphonyDHTSim/dhtmember.cc:332-357 | the corrected forward leg appends the entry to the list |
| SimphonySim.ForwardListAsWritten | SymphonyDHTSim/dhtmember.cc:333-342 | the forward leg as written: a fresh list sized to rlSize + 1 with only the new entry written; ForwardListAsWrittenLosesEntries shows the old entries read 0 |
| SimphonySim.ForwardListAsWrittenLosesEntries | SymphonyDHTSim/dhtmember.cc:333-342 | as written, the forward leg turns [first] into [0, second], losing the old entry |
| SimphonySim.ForwardThenReturn | SymphonyDHTSim/dhtmember.cc:332-357 | with the corrected forward leg, the entry a member pushes for its route is the one the next member pops: the return hop selects the receiver's own gate of the same name (prev, next, or long link k) and carries the old list |
| SimphonySim.CopyIntoSized | SymphonyDHTSim/dhtmember.cc:252-254 | copying a list into a buffer sized to it yields the list |
| SimphonySim.Fabs | SymphonyDHTSim/dhtmember.cc:310 | the absolute value is non-negative and equals r or -r |
| SimphonySim.Consider | SymphonyDHTSim/dhtmember.cc:310-323 | one reply keeps the best so far or replaces it by that reply, and the result is no farther than either |
| SimphonySim.Selected | SymphonyDHTSim/dhtmember.cc:310-325 | the best reply after the replies arrive in order, starting from distance 2 and kept only on a strictly smaller fabs distance; SelectedIsFirstMinimum states the result |
| SimphonySim.SelectedIsFirstMinimum | SymphonyDHTSim/dhtmember.cc:310-325 | over a sequence of replies the selection is the first reply with the strictly smallest distance |
| SimphonySim.LongQueries | SymphonyDHTSim/dhtmember.cc:265-274 | one long-link query per long link, in order |
| SimphonySim.PathQueriesCoverAllGates | SymphonyDHTSim/dhtmember.cc:245-274 | 2 + K queries, one per existing gate, each carrying the routing list |
| SimphonySim.Member.constructor | SymphonyDHTSim/dhtmember.cc:59-90 | initialize: position index * (1/dhtSize), estimates dhtSize, best distance 2, no replies; member 0 starts relinking |
| SimphonySim.Member.EstimateRatio | SymphonyDHTSim/dhtmember.cc:377-379 | the ratio of the two int estimates is their real quotient truncated toward zero; for non-negative estimates it is the whole number q >= 0 with q * nLinkEstimate <= nEstimate < (q + 1) * nLinkEstimate |
| SimphonySim.Member.NeedToRelink | SymphonyDHTSim/dhtmember.cc:381-384 | true exactly when the estimate is below the link estimate or at least three times it |
| SimphonySim.Member.OnAskForX | SymphonyDHTSim/dhtmember.cc:96-113 | the position goes back on the named gate, told where the sender sits |
| SimphonySim.Member.OnMyX | SymphonyDHTSim/dhtmember.cc:114-122 | the segment length becomes the one from the predecessor's position |
| SimphonySim.Member.OnAskForSegmentLength | SymphonyDHTSim/dhtmember.cc:123-134 | the position query and the scheduled segmentLengthCalculated |
| SimphonySim.Member.OnSegmentLengthCalculated | SymphonyDHTSim/dhtmember.cc:135-148 | the segment length goes back on the named gate |
| SimphonySim.Member.OnMySegmentLength | SymphonyDHTSim/dhtmember.cc:149-180 | the accumulator step; on the second reply the truncated estimate is stored and sent to both neighbours; it fails exactly when the sum is 0 |
| SimphonySim.Member.OnUpdateEstimate | SymphonyDHTSim/dhtmember.cc:181-189 | the estimate becomes the received one and nothing else changes |
| SimphonySim.Member.ReplyAsManager | SymphonyDHTSim/dhtmember.cc:210-241 | the corrected return leg: managerIndexIs with this member's index goes where the popped entry selects, and it fails on an entry that selects no gate |
| SimphonySim.Member.AskNeighbours | SymphonyDHTSim/dhtmember.cc:243-276 | the point is remembered and exactly the 2 + K path queries are sent |
| SimphonySim.Member.OnAmIXManager | SymphonyDHTSim/dhtmember.cc:190-278 | a manager answers back along the routing list; any other member asks all its neighbours |
| SimphonySim.Member.OnAskXToFindShortestPath | SymphonyDHTSim/dhtmember.cc:279-306 | the position goes back on the long link or the named short link the question came from |
| SimphonySim.Member.OnMyXToFindShortestPath | SymphonyDHTSim/dhtmember.cc:307-358 | the selection takes the reply step and the reply is counted; from 2 + K replies on the question goes to the best neighbour with its entry appended by the corrected forward leg (SimphonySim.ForwardList) |
| SimphonySim.Member.OnAreUXManager | SymphonyDHTSim/dhtmember.cc:359-373 | the position query, then the manager question scheduled with the same point and list |
| SimphonySim.Member.HandleMessage | SymphonyDHTSim/dhtmember.cc:92-373 | the dispatch keeps the accumulator waiting and ignores managerIndexIs and unknown messages |
| SymphonyMod.LongLinkSends | SymphonyDHTMod/dhtmember.cc:549-562 | broadcastOnLongLinks: one copy per connected gate from gate i on, in gate order; LongLinkSendsExactly states which gates and how many |
| SymphonyMod.LongLinkSendsExactly | SymphonyDHTMod/dhtmember.cc:549-562 | a copy is sent on exactly the connected gates from 2 on, one per gate |
| SymphonyMod.CountLongLink | SymphonyDHTMod/dhtmember.cc:413-421 | a completed long link is counted; relinking goes on while fewer than K are done, and the count returns to 0 at K |
| SymphonyMod.CountKeepsRange | SymphonyDHTMod/dhtmember.cc:413-421 | the count stays 0 or below K |
| SymphonyMod.BatchOfK | SymphonyDHTMod/dhtmember.cc:413-421 | from 0, K completed links give back the count 0 and ask for K - 1 further relinks |
| SymphonyMod.EvictionSucceeds | SymphonyDHTMod/dhtmember.cc:740-756 | with K > 0 and every gate connected, the last long link exists and a free gate of the other member stays free after the eviction |
| SymphonyMod.Overlay.constructor | SymphonyDHTMod/dhtmember.cc:95-150 | the overlay starts from a wiring of link pairs and an empty outbox |
| SymphonyMod.Overlay.DisconnectGate | SymphonyDHTMod/dhtmember.cc:717-726 | the corrected disconnectGate (Gates.DisconnectSpec) cuts exactly the link pair |
| SymphonyMod.Overlay.Link | SymphonyDHTMod/dhtmember.cc:700-715 | connectTo in both directions between two free gates |
| SymphonyMod.Overlay.DropAllLongLinks | SymphonyDHTMod/dhtmember.cc:728-735 | the loop cuts every long link of the member, as Gates.DropFromSpec describes, with the corrected disconnectGate |
| SymphonyMod.Overlay.LinkByFirstUnconnectedGate | SymphonyDHTMod/dhtmember.cc:700-715 | links the first free gates of both members |
| SymphonyMod.Overlay.LinkByLastConnectedGate | SymphonyDHTMod/dhtmember.cc:740-756 | with the corrected getLastConnectedGate (Gates.LastConnectedGate) and disconnectGate, cuts the last long link and reuses that gate for the new link; fails when there is no long link |
| SymphonyMod.Overlay.LinkToMember | SymphonyDHTMod/dhtmember.cc:770-787 | the wiring becomes exactly SymphonyMod.LongLinkWiring: below 2 + K neighbours the first free gates are linked, otherwise the last long link (found by the corrected loop) is cut and its gate linked to m's first free gate; it fails exactly when K = 0 and the member is full, and a failure changes nothing (the code as written also dereferences NULL for K = 1, see Findings) |
| SymphonyMod.CanLink | SymphonyDHTMod/dhtmember.cc:771 | the guard of createLongLinkToMember: m has a free gate, no gate of a leads to m, and m is not a; when it fails, CreateLongLinkToMember succeeds and leaves the wiring unchanged |
| SymphonyMod.Overlay.CreateLongLinkToMember | SymphonyDHTMod/dhtmember.cc:761-791 | a bad index fails and changes nothing; no change when m is the member itself, already linked or without a free gate; otherwise the wiring becomes exactly SymphonyMod.LongLinkWiring, failing exactly when that has no result |
| SymphonyMod.LongLinkWiring | SymphonyDHTMod/dhtmember.cc:740-787 | the wiring after linking to m has no result exactly when K = 0 and every gate of the member is connected |
| SymphonyMod.LongLinkByFreeGate | SymphonyDHTMod/dhtmember.cc:700-715 | below 2 + K neighbours the new wiring is still made of link pairs, the first free gates of the member and of m are linked to each other, and no other gate changes |
| SymphonyMod.LongLinkByEviction | SymphonyDHTMod/dhtmember.cc:740-756 | with every gate connected and K > 0 the last long link g is cut: the new wiring is still made of link pairs, g is linked to m's first free gate after the cut, the old far end of g (not on m) is freed unless g was wired to itself, and no other gate changes |
| SymphonyMod.CutThenConnect | SymphonyDHTMod/dhtmember.cc:740-756 | cutting gate g and linking it to a free gate of another member changes exactly the two new link ends and the old far end, which becomes free |
| SymphonyMod.CanJoin | SymphonyDHTMod/dhtmember.cc:910-950 | when the join splice does not fail: the manager exists and has a predecessor, the joiner is neither of them, and after the cut the joiner's short links and the predecessor's gate 1 are free; AddNodeWithSpecificIntervalPosition succeeds exactly then |
| SymphonyMod.Overlay.AddNodeWithSpecificIntervalPosition | SymphonyDHTMod/dhtmember.cc:910-950 | succeeds exactly when the join can be made, and then the wiring is the join splice with the four new links, with the corrected disconnectGate |
| SymphonyMod.Overlay.LeaveSplice | SymphonyDHTMod/dhtmember.cc:450-457 | succeeds exactly when the leave splice is defined, and then the wiring is that splice, with the corrected disconnectGate |
| SymphonyMod.Overlay.BroadcastOnLongLinks | SymphonyDHTMod/dhtmember.cc:549-562 | the message is sent on every connected long link and the wiring is unchanged |
| SymphonyMod.ChooseForward | SymphonyDHTMod/dhtmember.cc:319-320 | for a point in [0,1], the best neighbour for the point, and a gate of that neighbour leading back, exactly when some gate is connected |
| SymphonyMod.ReverseGate | SymphonyDHTMod/dhtmember.cc:630-640 | the reverse gate of a connected gate leads back; an unconnected gate has none |
| SymphonyMod.Member.constructor | SymphonyDHTMod/dhtmember.cc:95-135 | initialize: position index / connected, estimates connected, no protocol, best distance 42; a member outside the starting ring schedules its join |
| SymphonyMod.Member.CalculateSegmentLength | SymphonyDHTMod/dhtmember.cc:798-801 | the position query on gate 0 |
| SymphonyMod.Member.CalculateNEstimate | SymphonyDHTMod/dhtmember.cc:803-819 | exactly two segment-length queries, on gates 0 and 1, and the position query |
| SymphonyMod.Member.RoutingProtocol | SymphonyDHTMod/dhtmember.cc:824-843 | the protocol is recorded, then the position query and the scheduled manager question for the point |
| SymphonyMod.Member.Relink | SymphonyDHTMod/dhtmember.cc:848-871 | the estimate at linking becomes the estimate; at the start of a batch every long link is dropped; the search for the sample starts for RELINK, with the corrected disconnectGate |
| SymphonyMod.Member.CompleteLongLink | SymphonyDHTMod/dhtmember.cc:413-421 | the batch counter step, relinking while fewer than K links are done |
| SymphonyMod.Member.OnNeedYourIntervalPosition | SymphonyDHTMod/dhtmember.cc:168-176 | the position reply goes back on the gate to the sender, and fails exactly when there is none |
| SymphonyMod.Member.OnThisIsMyIntervalPosition | SymphonyDHTMod/dhtmember.cc:177-183 | the segment length from the predecessor's position; nothing else changes |
| SymphonyMod.Member.OnNeedYourSegmentLength | SymphonyDHTMod/dhtmember.cc:184-195 | the position query and the scheduled reply remembering the gate back |
| SymphonyMod.Member.OnMySegmentLengthIsReady | SymphonyDHTMod/dhtmember.cc:196-205 | the segment length goes out on the remembered gate, and fails exactly when that gate does not exist or is not connected (a relink may have cut it since) |
| SymphonyMod.Member.AddSegmentReply | SymphonyDHTMod/dhtmember.cc:206-235 | the accumulator takes the reply step; on the second reply the truncated estimate is stored and sent on gates 0 and 1; it fails exactly when the sum is 0 |
| SymphonyMod.Member.OnThisIsMySegmentLength | SymphonyDHTMod/dhtmember.cc:206-242 | the estimate step; when it completes a JOIN the protocol becomes RELINK, the estimate at linking the new estimate, the long links are dropped when no batch is running, and the search starts; otherwise the estimate at linking, the protocol and the wiring stay |
| SymphonyMod.Member.OnUpdateYourEstimate | SymphonyDHTMod/dhtmember.cc:243-255 | the estimate becomes the received value truncated to int; it relinks exactly when the relink test holds; it fails when the estimate at linking is 0 |
| SymphonyMod.Member.PassManagerBack | SymphonyDHTMod/dhtmember.cc:266-282 | the last routing-list entry is popped and managerIndexIs goes out on that gate with the rest of the list; it fails exactly when that gate is out of range or not connected |
| SymphonyMod.Member.JoinAt | SymphonyDHTMod/dhtmember.cc:296-303 | the join splice at the manager followed by the joiner's estimate queries, exactly when the join can be made, with the corrected disconnectGate |
| SymphonyMod.Member.ForwardTowards | SymphonyDHTMod/dhtmember.cc:305-325 | the point is remembered, the best neighbour is chosen, and areYouTheManager goes to it with a gate leading back appended; it fails exactly when no gate is connected |
| SymphonyMod.Member.OnAmITheManager | SymphonyDHTMod/dhtmember.cc:256-325 | a manager passes its index back or ends the search: for RELINK the link is counted and, while the count is below K, the estimate at linking becomes the estimate and a new RELINK search starts, else the estimate at linking and the protocol stay; for JOIN the joiner is spliced in; any other member forwards towards the point and keeps its estimates and protocol |
| SymphonyMod.Member.RecordPositionReply | SymphonyDHTMod/dhtmember.cc:339-351 | a strictly nearer reply replaces the best distance and gate; the reply is counted |
| SymphonyMod.AskThrough | SymphonyDHTMod/dhtmember.cc:362-368 | the question exists exactly when gate g is connected, and then it goes on gate g with a routing list one longer whose new last entry is a gate of the neighbour leading back to the member |
| SymphonyMod.Member.AskClosest | SymphonyDHTMod/dhtmember.cc:356-376 | areYouTheManager goes on the kept gate with a gate leading back appended, and the search state is reset; it fails when the kept gate is not connected |
| SymphonyMod.Member.OnPositionToFindShortestPath | SymphonyDHTMod/dhtmember.cc:326-376 | the reply step, and once as many replies as neighbours have come, the question to the closest one |
| SymphonyMod.Member.OnAreYouTheManager | SymphonyDHTMod/dhtmember.cc:377-386 | the position query, then the manager question scheduled with the same fields |
| SymphonyMod.Member.OnManagerIndexIs | SymphonyDHTMod/dhtmember.cc:387-430 | passed one hop back while the list is not empty, failing exactly when the popped gate is out of range or not connected; at the asker, for RELINK a bad manager index fails and changes nothing, a manager it may not link to leaves the wiring, and otherwise the wiring becomes exactly SymphonyMod.LongLinkWiring, failing exactly when that has no result; after a link the count moves on and, below K, the estimate at linking becomes the estimate and a new RELINK search starts, else the estimate at linking and the protocol stay; for JOIN the joiner is spliced in before the manager |
| SymphonyMod.Member.OnJoinNetwork | SymphonyDHTMod/dhtmember.cc:431-444 | the position becomes the drawn point and the protocol JOIN, the member's estimates, accumulator, search state and count stay; the friend starts the search for that point in JOIN and keeps its position, estimates, search state and count |
| SymphonyMod.Member.OnLeaveNetwork | SymphonyDHTMod/dhtmember.cc:445-461 | youMustRelink on every long link, the leave splice, and a join scheduled to itself |
| SymphonyMod.Member.OnYouMustRelink | SymphonyDHTMod/dhtmember.cc:462-464 | relink |
| SymphonyMod.Member.HandleMessage | SymphonyDHTMod/dhtmember.cc:152-468 | the overlay stays a wiring of link pairs, a step that does not fail keeps the member's invariant, and unknown messages change nothing |

## Left out

- The OMNeT++ host is not modelled: gate objects, `send`, `scheduleAt`, `Enter_Method`, `check_and_cast`, submodule lookup and message ownership (`delete request`). Gates are an explicit table and emissions go to an outbox.
- The 0.3 and other simulated-time delays and the order of events in virtual time are not modelled. A scheduled message carries no time.
- Randomness is an input: `uniform`, `intuniform`, `exponential`, `drand48` and the harmonic sample `exp(log(nEstimate)*(drand48()-1))`. Floating-point transcendental functions are not modelled.
- Statistics and logging (`EV`, `WATCH`, packet counters, histograms) are not modelled.
- `parsimPack`/`parsimUnpack`, `operator=` and the `PacketDescriptor` reflection classes are not modelled. They are serialization and string conversion around foreign simulator calls.
- simulazione/txc.cc, tutorial/src/Txc1.cpp, SymphonyDHTSim/internet.cc and SymphonyDHTSim/node.cc are not part of this model.
- `getMemberWithSpecificIntervalPosition` is not modelled. It finds the joining member by exact double equality; the joining member is an input instead.
- Positions are mathematical reals, not IEEE doubles. The handlers that route by distance require the point to lie in [0,1] (relink draws exactly 1 when the estimate is 1) and the positions of the neighbours the member is linked to to lie in [0,1); members that are not linked may sit anywhere, such as an unjoined member at index / connected >= 1.
- Each member is assumed to have 2 + K gates. The network description that fixes the gate vector sizes is not part of this model.
- A send on an unconnected gate is a runtime error of the simulator. The Mod and Basic members fault on the sends whose gate comes from a message (the remembered gate of mySegmentLengthIsReady, the popped gate of managerIndexIs), since a relink may have cut it. The sends on gates 0 and 1 are taken to succeed, as they do for a member on the ring; the Sim member's sends on named links are not checked either.
- Estimation.TruncateToInt: the conversion of a double to a C++ `int` is undefined when the value lies outside the `int` range (`3 / (…)` for a tiny positive sum, and a received estimate beyond INT_MAX); the model truncates an unbounded real to an unbounded integer.
- The state after an `Outcome.Fault` is not described. The simulator stops on those errors.
- The SimphonyDHT variant is given the Mod packet layout. Its own packet file is not part of this model.
- SimphonySim.Member.OnMyXToFindShortestPath: its counters are modelled as written, so `replies` and `bestPathDistance` are never reset between searches; the forward leg it sends uses the corrected SimphonySim.ForwardList, not the lossy copy listed under Findings.
- SimphonySim.Member.HandleMessage: the Sim member has no `managerIndexIs` branch, so that message is ignored.
- SymphonyMod.Member.ForwardTowards: the reply is sent on the neighbour that sendToBestNeighbour recomputes. Both loops scan the same gates with the same point, so this is the same gate as getBestNeighbourIndex returns. The model sends on the first result.
- SymphonyMod.Member.OnThisIsMySegmentLength: the source has no guard for a zero denominator. The model returns a fault there instead of requiring a positive sum.
- SymphonyMod.Member.OnLeaveNetwork: the leaving member's long links stay connected, as in the source.
- SymphonyMod.Member.HandleMessage: requires the point of an amITheManager message to lie in [0,1], and the positions of the members this member is linked to to lie in [0,1). Every point relink draws, exp(log(nEstimate) * (u - 1)) with u in [0,1) and nEstimate >= 1, is in that range; a point outside it is not modelled.
- SymphonyMod.Member.ForwardTowards: the gate pushed on the routing list is stated to lead back to this member, not to be the lowest such gate of the neighbour.
- SymphonyMod.Member.AskClosest: the pushed gate is stated to lead back to this member, not to be the lowest such gate of the neighbour.
- SimphonySim.Member.OnMyXToFindShortestPath: the -2 and -1 entries are taken as the source writes them; no claim is made about which neighbour each one should name.
- SimphonySim.ForwardThenReturn: it states that the return hop selects the receiver's own gate of the same name as the sender's route, not that the reply travels back over the link the request came in on. For the prev and next links that is the opposite link of the sender, so no such claim holds for them without a wiring of the Sim network, which is not part of this model.
- SymphonyMod.LongLinkByEviction: a table in which gate g of a member is wired to itself is not excluded by the link-pair invariant; in that case the far end is the reused gate itself and is not freed.

## Findings

| source | as written | input that shows it | evidently intended | confidence | as-written member | corrected member |
|---|---|---|---|---|---|---|
| SymphonyDHTSim/dhtmember.cc:220-223 | the reply `managerIndexIs` is a new packet whose routing list is never sized before `setRoutingList(k, …)` | any return leg with a routing list of two or more entries | size the reply's list to rlSize - 1 before copying | not executed | SimphonySim.ReturnLegAsWrittenFails | SimphonySim.ReturnLeg |
| SymphonyDHTSim/dhtmember.cc:333-342 | the forward reply is sized to rlSize + 1 but the old entries are never copied, so they read 0 | routing list [3] forwarded with entry 5 gives [0, 5] | the old list with the new entry appended | not executed | SimphonySim.ForwardListAsWrittenLosesEntries | SimphonySim.ForwardList |
| SymphonyDHTSim/dhtmember.cc:214 | `rlSize - 1 > 0` treats a one-entry list as if this member were the requester | routing list [0] at the manager | `rlSize > 0` (as in SymphonyDHTMod/dhtmember.cc:270) | not executed | SimphonySim.ReturnLegOffByOne | SimphonySim.ReturnLeg |
| SymphonyDHTMod/dhtmember.cc:717-726 | the reverse gate is the peer's first gate back to this member, which need not be the pair of the cut gate | two-member ring, disconnect gate 0 of member 0: gate 0 of member 1 is cut instead of gate 1 | cut the gate that the cut gate's link pair uses | not executed | Gates.DisconnectAsWrittenBreaksPairs | Gates.DisconnectSpec |
| SymphonyDHTMod/dhtmember.cc:673 | the loop `i>2` never looks at gate 2 | K = 1 with every gate connected: no last long link is found and the eviction dereferences NULL | `i>=2` | not executed | Gates.LastConnectedSkipsGateTwo | Gates.LastConnectedGate |
