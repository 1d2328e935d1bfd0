/** Packet events and the symmetric flow key (src/analysis/aggregator.rs:10-107). */
module Packets {

  const U64_LIMIT: int := 0x1_0000_0000_0000_0000

  type U8 = x: int | 0 <= x < 0x100
  type U16 = x: int | 0 <= x < 0x1_0000
  type U32 = x: int | 0 <= x < 0x1_0000_0000
  type U64 = x: int | 0 <= x < 0x1_0000_0000_0000_0000
  type U128 = x: int | 0 <= x < 0x1_0000_0000_0000_0000_0000_0000_0000_0000

  datatype Option<+T> = None | Some(value: T)

  datatype Direction = Forward | Backward

  datatype IpAddr = V4(v4: U32) | V6(v6: U128) {
    /** The order Rust derives on IpAddr: every V4 address comes before every V6 address. */
    predicate Below(other: IpAddr) {
      match (this, other)
      case (V4(a), V4(b)) => a < b
      case (V6(a), V6(b)) => a < b
      case (V4(_), V6(_)) => true
      case (V6(_), V4(_)) => false
    }
  }

  datatype Endpoint = Endpoint(ip: IpAddr, port: U16)

  datatype FlowKey = FlowKey(ipMin: IpAddr, ipMax: IpAddr, portMin: U16, portMax: U16, protocol: U8)

  /** timestamp counts nanoseconds from the epoch; it is negative before the epoch. */
  datatype PacketEvent = PacketEvent(timestamp: int, len: U32, srcIp: IpAddr, destIp: IpAddr,
                                     srcPort: U16, destPort: U16, protocol: U8, tcpFlags: Option<bv8>)
  {
    function Key(): FlowKey {
      KeyOf(srcIp, srcPort, destIp, destPort, protocol)
    }

    function Source(): Endpoint {
      Endpoint(srcIp, srcPort)
    }

    function Destination(): Endpoint {
      Endpoint(destIp, destPort)
    }
  }

  datatype PacketSummary = PacketSummary(timestampMs: U64, len: U32, direction: Direction, tcpFlags: bv8)

  const DEFAULT_SUMMARY := PacketSummary(0, 0, Forward, 0)

  function KeyOf(srcIp: IpAddr, srcPort: U16, destIp: IpAddr, destPort: U16, protocol: U8): FlowKey {
    if srcIp.Below(destIp) then
      FlowKey(srcIp, destIp, srcPort, destPort, protocol)
    else if destIp.Below(srcIp) then
      FlowKey(destIp, srcIp, destPort, srcPort, protocol)
    else if srcPort <= destPort then
      FlowKey(srcIp, destIp, srcPort, destPort, protocol)
    else
      FlowKey(destIp, srcIp, destPort, srcPort, protocol)
  }

  /** duration_since(UNIX_EPOCH).unwrap_or_default().as_millis() as u64 */
  function TimestampMs(timestamp: int): U64 {
    if timestamp < 0 then 0 else (timestamp / 1_000_000) % 0x1_0000_0000_0000_0000
  }

  function Summarize(timestamp: int, len: U32, direction: Direction, tcpFlags: Option<bv8>): PacketSummary {
    PacketSummary(TimestampMs(timestamp), len, direction, if tcpFlags.Some? then tcpFlags.value else 0)
  }

  /** Direction a resident flow assigns to a packet: only the source address is compared. */
  function DirectionFrom(initiator: IpAddr, e: PacketEvent): Direction {
    if e.srcIp == initiator then Forward else Backward
  }

  function SummaryFrom(initiator: IpAddr, e: PacketEvent): PacketSummary {
    Summarize(e.timestamp, e.len, DirectionFrom(initiator, e), e.tcpFlags)
  }

  /** The address order is a strict total order, so the three-way branch of KeyOf is exhaustive. */
  lemma AddressOrderIsTotal(a: IpAddr, b: IpAddr, c: IpAddr)
    ensures !a.Below(a)
    ensures a.Below(b) && b.Below(c) ==> a.Below(c)
    ensures a == b || a.Below(b) || b.Below(a)
  {
  }

  /** Addresses are ordered by number, V4 before V6. */
  lemma AddressOrderIsNumeric(x: U32, y: U32, u: U128, v: U128)
    ensures V4(x).Below(V4(y)) <==> x < y
    ensures V6(u).Below(V6(v)) <==> u < v
    ensures V4(x).Below(V6(v)) && !V6(v).Below(V4(x))
  {
  }

  /** The key holds the packet's two endpoints, each address with its own port, the smaller address first and for
      equal addresses the smaller port first. */
  lemma KeyHoldsEndpoints(e: PacketEvent)
    ensures var key := e.Key(); var least, most := Endpoint(key.ipMin, key.portMin), Endpoint(key.ipMax, key.portMax);
            && key.protocol == e.protocol
            && ((least == e.Source() && most == e.Destination()) || (least == e.Destination() && most == e.Source()))
            && !key.ipMax.Below(key.ipMin)
            && (key.ipMin == key.ipMax ==> key.portMin <= key.portMax)
  {
    AddressOrderIsTotal(e.srcIp, e.destIp, e.srcIp);
  }

  /** Timestamps are whole milliseconds since the epoch, and 0 for times before it; absent flags count as none. */
  lemma SummaryOfEvent(initiator: IpAddr, e: PacketEvent)
    ensures var p := SummaryFrom(initiator, e);
            && (e.timestamp < 0 ==> p.timestampMs == 0)
            && (0 <= e.timestamp < U64_LIMIT * 1_000_000 ==>
                  p.timestampMs * 1_000_000 <= e.timestamp < (p.timestampMs + 1) * 1_000_000)
            && p.len == e.len
            && p.tcpFlags == (if e.tcpFlags.Some? then e.tcpFlags.value else 0)
            && (p.direction == Forward <==> e.srcIp == initiator)
  {
  }

  /** Two packets belong to one flow exactly when they agree on the protocol and join the same two endpoints. */
  lemma SameFlowIff(a: PacketEvent, b: PacketEvent)
    ensures a.Key() == b.Key() <==>
            && a.protocol == b.protocol
            && (|| (a.Source() == b.Source() && a.Destination() == b.Destination())
                || (a.Source() == b.Destination() && a.Destination() == b.Source()))
  {
    AddressOrderIsTotal(a.srcIp, a.destIp, a.srcIp);
    AddressOrderIsTotal(b.srcIp, b.destIp, b.srcIp);
  }

  /** In a flow admitted by packet a, comparing only addresses identifies the admission packet's whole
      endpoint, unless both addresses coincide: such a flow never counts a backward packet. */
  lemma DirectionMeaning(a: PacketEvent, e: PacketEvent)
    requires a.Key() == e.Key()
    ensures a.srcIp != a.destIp ==> (DirectionFrom(a.srcIp, e) == Forward <==> e.Source() == a.Source())
    ensures a.srcIp == a.destIp ==> DirectionFrom(a.srcIp, e) == Forward
  {
    SameFlowIff(a, e);
  }

  /** The address reported (and blocklisted) for a flow is its smaller endpoint, so it is the sender of a
      packet exactly when the sender's address does not come after the receiver's. */
  lemma ReportedAddressIsSenderIff(e: PacketEvent)
    ensures e.Key().ipMin == e.srcIp <==> !e.destIp.Below(e.srcIp)
  {
    AddressOrderIsTotal(e.srcIp, e.destIp, e.srcIp);
  }
}
