/** Packets, direction-normalised flow keys and flow records: internal/flow/flow.go and
    internal/flow/wire.go, with the packet shape of internal/packet/packet.go. */
module Flow {
  import opened Common

  /** netip.Addr, of which only the total order of Compare matters here. */
  type Addr = int

  const PROTO_ICMP := 1
  const PROTO_TCP := 6
  const PROTO_UDP := 17
  const PROTO_ICMPV6 := 58

  /** The six TCP flag bits. */
  datatype Flags = Flags(fin: bool, syn: bool, rst: bool, psh: bool, ack: bool, urg: bool)

  datatype Packet = Packet(
    ts: Time, srcIP: Addr, dstIP: Addr, proto: int, srcPort: nat, dstPort: nat,
    flags: Flags, window: nat, totalLen: nat, payloadLen: nat, sensor: string)

  datatype Key = Key(a: Addr, b: Addr, portA: nat, portB: nat, proto: int, sensor: string)

  datatype Reason = Live | Snapshot | FinRst | Idle | MaxLife | CapEnd | Evicted

  /** One direction of a flow. */
  datatype Direction = Direction(
    packets: nat, bytes: nat, payload: nat, sizeSum: real, iatSum: real, iatCount: nat)

  datatype Sizes = Sizes(min: nat, max: nat, sum: real, sumSq: real, small: nat, large: nat)

  datatype Gaps = Gaps(sum: real, sumSq: real, min: real, max: real, count: nat)

  datatype Tcp = Tcp(
    syn: nat, ack: nat, fin: nat, rst: nat, psh: nat, urg: nat,
    initialWindow: nat, windowSum: real, windowCount: nat)

  datatype Ends = Ends(initIP: Addr, initPort: nat, respIP: Addr, respPort: nat, proto: int)

  /** The flat Record of the source, its fields gathered by subject. */
  datatype Record = Record(
    id: nat, key: Key, reason: Reason, snapshotIndex: nat, ends: Ends,
    firstSeen: Time, lastSeen: Time, fwd: Direction, bwd: Direction, size: Sizes, tcp: Tcp, iat: Gaps)
  {
    /** A record that ends its flow, as opposed to a periodic snapshot. */
    predicate Terminal() { reason != Snapshot }

    function Packets(): nat { fwd.packets + bwd.packets }
    function Bytes(): nat { fwd.bytes + bwd.bytes }
    function Payload(): nat { fwd.payload + bwd.payload }

    function Accumulators(): Accumulators {
      Sums(
        size.sum, size.sumSq, fwd.sizeSum, bwd.sizeSum, tcp.windowSum, tcp.windowCount,
        iat.sum, iat.sumSq, iat.min, iat.max, iat.count,
        fwd.iatSum, bwd.iatSum, fwd.iatCount, bwd.iatCount)
    }

    function WithAccumulators(acc: Accumulators): Record {
      this.(size := size.(sum := acc.pktSizeSum, sumSq := acc.pktSizeSumSq),
      fwd := fwd.(sizeSum := acc.fwdSizeSum, iatSum := acc.fwdIATSum, iatCount := acc.fwdIATCount),
      bwd := bwd.(sizeSum := acc.bwdSizeSum, iatSum := acc.bwdIATSum, iatCount := acc.bwdIATCount),
      tcp := tcp.(windowSum := acc.windowSum, windowCount := acc.windowCount),
      iat := Gaps(acc.iatSum, acc.iatSumSq, acc.iatMin, acc.iatMax, acc.iatCount))
    }

    function WithDerivedKey(): Record {
      this.(key := KeyOfEndpoints(ends.initIP, ends.initPort, ends.respIP, ends.respPort, ends.proto).0
      .(sensor := key.sensor))
    }
  }

  /** The private running sums of a record, in wire order. */
  datatype Accumulators = Sums(
    pktSizeSum: real, pktSizeSumSq: real, fwdSizeSum: real, bwdSizeSum: real,
    windowSum: real, windowCount: nat,
    iatSum: real, iatSumSq: real, iatMin: real, iatMax: real, iatCount: nat,
    fwdIATSum: real, bwdIATSum: real, fwdIATCount: nat, bwdIATCount: nat)

  function Compare(x: Addr, y: Addr): int {
    if x < y then -1 else if x > y then 1 else 0
  }

  /** The lower (address, port) endpoint goes first; the flag says whether (sa, pa) is that one. */
  function KeyOfEndpoints(sa: Addr, pa: nat, sb: Addr, pb: nat, proto: int): (Key, bool) {
    var less := if Compare(sa, sb) == -1 then true
                else if Compare(sa, sb) == 1 then false
                else pa <= pb;
    if less then (Key(sa, sb, pa, pb, proto, ""), true)
    else (Key(sb, sa, pb, pa, proto, ""), false)
  }

  function KeyOf(p: Packet): (Key, bool) {
    var (k, fwd) := KeyOfEndpoints(p.srcIP, p.srcPort, p.dstIP, p.dstPort, p.proto);
    (k.(sensor := p.sensor), fwd)
  }

  function Seconds(d: int): real {
    d as real / 1_000_000_000.0
  }

  /** Two endpoint pairs get the same key exactly when they are the same unordered pair under the
      same protocol: the normalisation forgets the direction and nothing else. */
  lemma KeyIdentifiesUnorderedPair(
    a: Addr, pa: nat, b: Addr, pb: nat, proto: int, c: Addr, pc: nat, d: Addr, pd: nat, proto': int)
    ensures KeyOfEndpoints(a, pa, b, pb, proto).0 == KeyOfEndpoints(c, pc, d, pd, proto').0
            <==> proto == proto' && multiset{(a, pa), (b, pb)} == multiset{(c, pc), (d, pd)}
  {}

  /** The flag is exactly "the packet travels from endpoint A to endpoint B". */
  lemma KeyOrientation(p: Packet)
    ensures KeyOf(p).1 ==> (p.srcIP, p.srcPort) == (KeyOf(p).0.a, KeyOf(p).0.portA)
    ensures !KeyOf(p).1 ==> (p.srcIP, p.srcPort) == (KeyOf(p).0.b, KeyOf(p).0.portB)
    ensures KeyOf(p).1 <==> p.srcIP < p.dstIP || (p.srcIP == p.dstIP && p.srcPort <= p.dstPort)
    ensures KeyOf(p).0.sensor == p.sensor && KeyOf(p).0.proto == p.proto
  {}

  /** A record keeps everything across the wire: its accumulators are put back field for field,
      and any other record with the same public fields is turned into it by them. */
  lemma AccumulatorsRoundTrip(r: Record, blank: Accumulators)
    ensures r.WithAccumulators(r.Accumulators()) == r
    ensures r.WithAccumulators(blank).WithAccumulators(r.Accumulators()) == r
    ensures r.WithAccumulators(blank).Accumulators() == blank
  {}
}
