/** The flow table as a state machine over values: what each call of internal/flow/table.go does to
    the table. Go's map iteration order is a choice the language makes; here it is part of the
    event (the order of a sweep, the victim of an eviction), so a statement about every legal
    event is a statement about every iteration order. */
module FlowSpec {
  import opened Common
  import opened Flow

  /** A duration of zero or less switches a timer off, as does maxFlows <= 0 the capacity. */
  datatype Options = Options(idleTimeout: int, maxLifetime: int, snapshotInterval: int, maxFlows: int)

  const GRACE_WINDOW := 3 * SECOND

  datatype Entry = Entry(
    rec: Record, lastFwdTS: Time, lastBwdTS: Time,
    finFromInit: bool, finFromResp: bool, rst: bool, nextSnapshotAt: Time)

  datatype Stats = Stats(started: nat, closed: nat, snapshots: nat, evicted: nat)

  /** `out` is the sequence of records handed to the onFlow callback. */
  datatype State = State(
    flows: map<Key, Entry>, recentDown: map<Key, Time>, nextID: nat, stats: Stats, out: seq<Record>)

  const EMPTY := State(map[], map[], 0, Stats(0, 0, 0, 0), [])

  datatype Event =
    | Arrive(p: Packet, victim: Key)
    | Sweep(now: Time, order: seq<Key>)
    | Drain(order: seq<Key>)

  // ---- one packet into one entry ----

  function NewEnds(p: Packet): Ends {
    if p.proto == PROTO_TCP && p.flags.syn && p.flags.ack
    then Ends(p.dstIP, p.dstPort, p.srcIP, p.srcPort, p.proto)
    else Ends(p.srcIP, p.srcPort, p.dstIP, p.dstPort, p.proto)
  }

  const NO_PACKETS := Direction(0, 0, 0, 0.0, 0.0, 0)

  function NewEntry(opt: Options, id: nat, k: Key, p: Packet): (e: Entry)
    ensures e.rec.key == k && e.rec.id == id
  {
    Entry(
      Record(
        id, k, Live, 0, NewEnds(p), p.ts, p.ts, NO_PACKETS, NO_PACKETS,
        Sizes(p.totalLen, p.totalLen, 0.0, 0.0, 0, 0),
        Tcp(0, 0, 0, 0, 0, 0, if p.proto == PROTO_TCP then p.window else 0, 0.0, 0),
        Gaps(0.0, 0.0, 0.0, 0.0, 0)),
      ZERO_TIME, ZERO_TIME, false, false, false,
      if opt.snapshotInterval > 0 then p.ts + opt.snapshotInterval else ZERO_TIME)
  }

  function IsForward(r: Record, p: Packet, fwdFromA: bool): bool {
    if (p.srcIP, p.srcPort) == (r.ends.initIP, r.ends.initPort) then true
    else if (p.srcIP, p.srcPort) == (r.ends.respIP, r.ends.respPort) then false
    else fwdFromA
  }

  function One(b: bool): nat { if b then 1 else 0 }

  function FoldSize(z: Sizes, p: Packet): Sizes {
    var size := p.totalLen as real;
    Sizes(
      if p.totalLen < z.min then p.totalLen else z.min,
      if p.totalLen > z.max then p.totalLen else z.max,
      z.sum + size, z.sumSq + size * size,
      z.small + One(p.totalLen <= 100), z.large + One(p.totalLen >= 1000))
  }

  function AddGap(g: Gaps, gap: real): Gaps {
    Gaps(
      g.sum + gap, g.sumSq + gap * gap,
      if g.count == 0 || gap < g.min then gap else g.min,
      if gap > g.max then gap else g.max,
      g.count + 1)
  }

  function FoldGap(g: Gaps, last: Time, ts: Time): Gaps {
    if last != ZERO_TIME && ts > last then AddGap(g, Seconds(ts - last)) else g
  }

  /** One more packet in a direction whose previous packet was at `last`. */
  function FoldDirection(d: Direction, last: Time, p: Packet): Direction {
    var timed := last != ZERO_TIME && p.ts > last;
    Direction(
      d.packets + 1, d.bytes + p.totalLen, d.payload + p.payloadLen, d.sizeSum + p.totalLen as real,
      if timed then d.iatSum + Seconds(p.ts - last) else d.iatSum, d.iatCount + One(timed))
  }

  function FoldTCP(t: Tcp, p: Packet): Tcp {
    if p.proto == PROTO_TCP then
      Tcp(
        t.syn + One(p.flags.syn), t.ack + One(p.flags.ack), t.fin + One(p.flags.fin),
        t.rst + One(p.flags.rst), t.psh + One(p.flags.psh), t.urg + One(p.flags.urg),
        t.initialWindow, t.windowSum + p.window as real, t.windowCount + 1)
    else t
  }

  function Fold(e: Entry, p: Packet, forward: bool): Entry {
    var r := e.rec;
    e.(rec := r.(
        size := FoldSize(r.size, p), iat := FoldGap(r.iat, r.lastSeen, p.ts),
        lastSeen := if p.ts > r.lastSeen then p.ts else r.lastSeen,
        fwd := if forward then FoldDirection(r.fwd, e.lastFwdTS, p) else r.fwd,
        bwd := if forward then r.bwd else FoldDirection(r.bwd, e.lastBwdTS, p),
        tcp := FoldTCP(r.tcp, p)),
    lastFwdTS := if forward then p.ts else e.lastFwdTS,
    lastBwdTS := if forward then e.lastBwdTS else p.ts)
  }

  /** The teardown flags a packet raises. */
  function Mark(e: Entry, p: Packet, forward: bool): Entry {
    if p.proto != PROTO_TCP then e
    else e.(rst := e.rst || p.flags.rst,
         finFromInit := e.finFromInit || (p.flags.fin && forward),
         finFromResp := e.finFromResp || (p.flags.fin && !forward))
  }

  /** One packet folded into one entry, direction and teardown flags included. */
  function Account(e: Entry, p: Packet): Entry {
    var forward := IsForward(e.rec, p, KeyOf(p).1);
    Mark(Fold(e, p, forward), p, forward)
  }

  predicate TornDown(e: Entry, p: Packet) {
    p.proto == PROTO_TCP && (e.rst || (e.finFromInit && e.finFromResp))
  }

  // ---- one packet into the table ----

  /** A trailing packet of a flow that was torn down less than three seconds ago. */
  predicate Absorbed(s: State, p: Packet) {
    var k := KeyOf(p).0;
    && k !in s.flows && k in s.recentDown
    && p.ts - s.recentDown[k] < GRACE_WINDOW && !(p.proto == PROTO_TCP && p.flags.syn)
  }

  predicate Opens(s: State, p: Packet) {
    KeyOf(p).0 !in s.flows && !Absorbed(s, p)
  }

  predicate Overflows(opt: Options, s: State, p: Packet) {
    Opens(s, p) && opt.maxFlows > 0 && |s.flows| + 1 > opt.maxFlows
  }

  ghost predicate IsOldest(flows: map<Key, Entry>, v: Key) {
    v in flows && forall k :: k in flows ==> flows[v].rec.lastSeen <= flows[k].rec.lastSeen
  }

  function EmitAs(r: Record, reason: Reason): Record { r.(reason := reason) }

  /** Emits an entry's terminal record, drops it from the table and counts the closing. */
  function Close(s: State, k: Key, e: Entry, reason: Reason): State {
    s.(out := s.out + [EmitAs(e.rec, reason)], flows := s.flows - {k},
    stats := s.stats.(closed := s.stats.closed + 1))
  }

  /** A new flow for p, before any eviction. */
  function Insert(opt: Options, s: State, p: Packet): State {
    var k := KeyOf(p).0;
    s.(recentDown := s.recentDown - {k}, nextID := s.nextID + 1,
    stats := s.stats.(started := s.stats.started + 1),
    flows := s.flows[k := NewEntry(opt, s.nextID + 1, k, p)])
  }

  function Evict(s: State, victim: Key): State
    requires victim in s.flows
  {
    var s' := Close(s, victim, s.flows[victim], Evicted);
    s'.(stats := s'.stats.(evicted := s'.stats.evicted + 1))
  }

  function Open(opt: Options, s: State, p: Packet, victim: Key): State
    requires Overflows(opt, s, p) ==> victim in Insert(opt, s, p).flows
  {
    if Overflows(opt, s, p) then Evict(Insert(opt, s, p), victim) else Insert(opt, s, p)
  }

  /** Folds p into entry e, which is the one stored under k unless it has just been evicted. */
  function Deliver(s: State, k: Key, e: Entry, p: Packet): State {
    var e' := Account(e, p);
    if TornDown(e', p) then
      var s' := Close(s, k, e', FinRst);
      s'.(recentDown := s'.recentDown[k := p.ts])
    else if k in s.flows then s.(flows := s.flows[k := e'])
    else s
  }

  function Observe(opt: Options, s: State, p: Packet, victim: Key): State
    requires Legal(opt, s, Arrive(p, victim))
  {
    var k := KeyOf(p).0;
    if k in s.flows then Deliver(s, k, s.flows[k], p)
    else if Absorbed(s, p) then s
    else Deliver(Open(opt, s, p, victim), k, NewEntry(opt, s.nextID + 1, k, p), p)
  }

  // ---- sweeps ----

  /** The entry after a periodic snapshot, which is due again one interval from now. */
  function Snapped(opt: Options, e: Entry, now: Time): Entry {
    e.(rec := e.rec.(snapshotIndex := e.rec.snapshotIndex + 1), nextSnapshotAt := now + opt.snapshotInterval)
  }

  function TakeSnapshot(opt: Options, s: State, now: Time, k: Key): State
    requires k in s.flows
  {
    var e := Snapped(opt, s.flows[k], now);
    s.(flows := s.flows[k := e], out := s.out + [EmitAs(e.rec, Snapshot)],
    stats := s.stats.(snapshots := s.stats.snapshots + 1))
  }

  predicate SnapshotDue(opt: Options, e: Entry, now: Time) {
    opt.snapshotInterval > 0 && e.nextSnapshotAt != ZERO_TIME && now >= e.nextSnapshotAt
  }

  predicate OverAge(opt: Options, e: Entry, now: Time) {
    opt.maxLifetime > 0 && now - e.rec.firstSeen >= opt.maxLifetime
  }

  predicate IdleFor(opt: Options, e: Entry, now: Time) {
    opt.idleTimeout > 0 && now - e.rec.lastSeen >= opt.idleTimeout
  }

  function TickKey(opt: Options, s: State, now: Time, k: Key): State {
    if k !in s.flows then s
    else if OverAge(opt, s.flows[k], now) then Close(s, k, s.flows[k], MaxLife)
    else if IdleFor(opt, s.flows[k], now) then Close(s, k, s.flows[k], Idle)
    else if SnapshotDue(opt, s.flows[k], now) then TakeSnapshot(opt, s, now, k)
    else s
  }

  function TickKeys(opt: Options, s: State, now: Time, order: seq<Key>): State {
    if order == [] then s
    else TickKey(opt, TickKeys(opt, s, now, order[..|order| - 1]), now, order[|order| - 1])
  }

  /** The grace set after a sweep. */
  function Forget(down: map<Key, Time>, now: Time): map<Key, Time> {
    map k | k in down && now - down[k] < GRACE_WINDOW :: down[k]
  }

  function Tick(opt: Options, s: State, now: Time, order: seq<Key>): State {
    TickKeys(opt, s.(recentDown := Forget(s.recentDown, now)), now, order)
  }

  function Flush(s: State, order: seq<Key>): State {
    if order == [] then s
    else
      var s' := Flush(s, order[..|order| - 1]);
      var k := order[|order| - 1];
      if k in s'.flows then Close(s', k, s'.flows[k], CapEnd) else s'
  }

  // ---- runs ----

  /** Each key of the map exactly once, in some order. */
  ghost predicate Enumerates<V>(order: seq<Key>, m: map<Key, V>) {
    && (forall k :: k in m <==> k in order)
    && (forall i, j :: 0 <= i < j < |order| ==> order[i] != order[j])
  }

  /** What the source leaves to map iteration order, and no more. */
  ghost predicate Legal(opt: Options, s: State, ev: Event) {
    match ev
    case Arrive(p, victim) =>
      Overflows(opt, s, p) ==>
        IsOldest(Insert(opt, s, p).flows, victim)
    case Sweep(_, order) => Enumerates(order, s.flows)
    case Drain(order) => Enumerates(order, s.flows)
  }

  function Step(opt: Options, s: State, ev: Event): State
    requires Legal(opt, s, ev)
  {
    match ev
    case Arrive(p, victim) => Observe(opt, s, p, victim)
    case Sweep(now, order) => Tick(opt, s, now, order)
    case Drain(order) => Flush(s, order)
  }

  ghost predicate LegalRun(opt: Options, evs: seq<Event>)
    decreases |evs|, 0
  {
    evs == [] || (LegalRun(opt, evs[..|evs| - 1]) && Legal(opt, Run(opt, evs[..|evs| - 1]), evs[|evs| - 1]))
  }

  ghost function Run(opt: Options, evs: seq<Event>): State
    requires LegalRun(opt, evs)
    decreases |evs|, 1
  {
    if evs == [] then EMPTY else Step(opt, Run(opt, evs[..|evs| - 1]), evs[|evs| - 1])
  }

  lemma RunSnoc(opt: Options, evs: seq<Event>, ev: Event)
    requires LegalRun(opt, evs) && Legal(opt, Run(opt, evs), ev)
    ensures LegalRun(opt, evs + [ev]) && Run(opt, evs + [ev]) == Step(opt, Run(opt, evs), ev)
  {
    hide Step, Legal;
    assert (evs + [ev])[..|evs + [ev]| - 1] == evs;
  }
}
