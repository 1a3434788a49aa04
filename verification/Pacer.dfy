/** When expiry runs: internal/flow/pacer.go, composed with the table the way the packet loop of
    internal/pipeline/pipeline.go composes them. */
module Pacing {
  import opened Common
  import opened Flow
  import opened FlowSpec

  const TICK_EVERY := 512
  const TICK_INTERVAL := SECOND

  datatype Clock = Clock(n: nat, last: Time)

  /** The zero value of a Pacer. */
  const START := Clock(0, ZERO_TIME)

  function Advance(c: Clock, ts: Time): (Clock, bool) {
    var n := c.n + 1;
    if c.last == ZERO_TIME || ts < c.last then (Clock(n, ts), false)
    else if n % TICK_EVERY == 0 || ts - c.last >= TICK_INTERVAL then (Clock(n, ts), true)
    else (Clock(n, c.last), false)
  }

  class Pacer {
    var n: nat
    var last: Time

    function Model(): Clock
      reads this
    {
      Clock(n, last)
    }

    constructor ()
      ensures Model() == START
    {
      n, last := 0, ZERO_TIME;
    }

    method Due(ts: Time) returns (due: bool)
      modifies this
      ensures (Model(), due) == Advance(old(Model()), ts)
    {
      n := n + 1;
      if last == ZERO_TIME {
        last := ts;
        return false;
      }
      if ts < last {
        last := ts;
        return false;
      }
      if n % TICK_EVERY == 0 || ts - last >= TICK_INTERVAL {
        last := ts;
        return true;
      }
      return false;
    }
  }

  // ---- the count arm ----

  function Clocked(tss: seq<Time>): Clock {
    if tss == [] then START else Advance(Clocked(tss[..|tss| - 1]), tss[|tss| - 1]).0
  }

  /** Does the i-th packet of the stream cause a tick? */
  predicate TicksAt(tss: seq<Time>, i: nat)
    requires i < |tss|
  {
    Advance(Clocked(tss[..i]), tss[i]).1
  }

  lemma {:induction false} ClockCounts(tss: seq<Time>)
    ensures Clocked(tss).n == |tss|
  {
    if tss != [] {
      ClockCounts(tss[..|tss| - 1]);
    }
  }

  // ---- 512 packets without a tick ----

  /** The running minimum of xs below last, begun anew by whatever follows a zero. */
  function Lowest(last: Time, xs: seq<Time>): Time {
    if xs == [] then last
    else
      var m, x := Lowest(last, xs[..|xs| - 1]), xs[|xs| - 1];
      if m == ZERO_TIME || x < m then x else m
  }

  /** Without ticks the clock is that minimum. */
  lemma {:induction false} QuietClock(tss: seq<Time>, from: nat, i: nat)
    requires from <= i <= |tss| && forall k :: from <= k < i ==> !TicksAt(tss, k)
    ensures Clocked(tss[..i]).last == Lowest(Clocked(tss[..from]).last, tss[from..i])
  {
    if from < i {
      QuietClock(tss, from, i - 1);
      assert tss[..i][..i - 1] == tss[..i - 1] && tss[from..i][..i - 1 - from] == tss[from..i - 1];
      assert !TicksAt(tss, i - 1);
    } else {
      assert tss[from..i] == [];
    }
  }

  /** The packet of the window at which the count arm is due. */
  function DueIn(from: nat): (i: nat)
    ensures from <= i < from + TICK_EVERY && (i + 1) % TICK_EVERY == 0
  {
    from + (TICK_EVERY - 1 - from % TICK_EVERY)
  }

  lemma OnlyDue(from: nat, i: nat)
    requires from <= i < from + TICK_EVERY && (i + 1) % TICK_EVERY == 0
    ensures i == DueIn(from)
  {}

  /** What the clock shows to packet i, if nothing has ticked since from. */
  function Base(tss: seq<Time>, from: nat, i: nat): Time
    requires from <= i <= |tss|
  {
    Lowest(Clocked(tss[..from]).last, tss[from..i])
  }

  lemma TicksIff(tss: seq<Time>, from: nat, i: nat)
    requires from <= i < |tss| && forall k :: from <= k < i ==> !TicksAt(tss, k)
    ensures var base := Base(tss, from, i);
            TicksAt(tss, i) <==>
            base != ZERO_TIME && base <= tss[i] && ((i + 1) % TICK_EVERY == 0 || tss[i] - base >= TICK_INTERVAL)
  {
    QuietClock(tss, from, i);
    ClockCounts(tss[..i]);
  }

  /** Any 512 consecutive packets, in any order and with any timestamps: there is no tick among them exactly when the
      packet at which the count arm is due comes below the minimum since the window began (or finds the clock unseeded)
      and none is a second ahead of that minimum. */
  lemma WindowQuietIff(tss: seq<Time>, from: nat)
    requires from + TICK_EVERY <= |tss|
    ensures (forall i :: from <= i < from + TICK_EVERY ==> !TicksAt(tss, i))
            <==> (var due := DueIn(from);
                  && (Base(tss, from, due) == ZERO_TIME || tss[due] < Base(tss, from, due))
                  && (forall i :: from <= i < from + TICK_EVERY ==>
                        Base(tss, from, i) == ZERO_TIME || tss[i] - Base(tss, from, i) < TICK_INTERVAL))
  {
    hide TicksAt, Base;
    if forall i :: from <= i < from + TICK_EVERY ==> !TicksAt(tss, i) {
      forall i | from <= i < from + TICK_EVERY
        ensures Base(tss, from, i) == ZERO_TIME || tss[i] - Base(tss, from, i) < TICK_INTERVAL
      {
        TicksIff(tss, from, i);
      }
      TicksIff(tss, from, DueIn(from));
    } else {
      var i := FirstTick(tss, from, from + TICK_EVERY);
      TicksIff(tss, from, i);
      if (i + 1) % TICK_EVERY == 0 {
        OnlyDue(from, i);
      }
    }
  }

  lemma {:induction false} FirstTick(tss: seq<Time>, from: nat, until: nat) returns (i: nat)
    requires from <= until <= |tss| && exists k :: from <= k < until && TicksAt(tss, k)
    ensures from <= i < until && TicksAt(tss, i) && forall k :: from <= k < i ==> !TicksAt(tss, k)
    decreases until
  {
    hide TicksAt;
    i := until - 1;
    if exists k :: from <= k < until - 1 && TicksAt(tss, k) {
      i := FirstTick(tss, from, until - 1);
    }
  }

  /** Over an ordered stream the clock never runs ahead of the packets, and once seeded it stays so. */
  lemma {:induction false} ClockBehind(tss: seq<Time>, from: nat)
    requires from <= |tss| && Clocked(tss[..from]).last != ZERO_TIME
    requires forall i :: 0 < i < |tss| ==> tss[i - 1] <= tss[i]
    requires tss != [] ==> tss[0] >= ZERO_TIME
    ensures tss != [] && Clocked(tss).last != ZERO_TIME && ZERO_TIME <= Clocked(tss).last <= tss[|tss| - 1]
    decreases |tss|
  {
    if tss != [] {
      var init := tss[..|tss| - 1];
      if from == |tss| {
        assert tss[..from] == tss;
        Unseeded(init);
      } else {
        assert init[..from] == tss[..from];
        ClockBehind(init, from);
        assert init[|init| - 1] == tss[|tss| - 2] <= tss[|tss| - 1];
      }
    }
  }

  /** Over an ordered stream the clock shows a packet's time, or none. */
  lemma {:induction false} Unseeded(tss: seq<Time>)
    requires forall i :: 0 < i < |tss| ==> tss[i - 1] <= tss[i]
    requires tss != [] ==> tss[0] >= ZERO_TIME
    ensures ZERO_TIME <= Clocked(tss).last && (tss != [] ==> Clocked(tss).last <= tss[|tss| - 1])
  {
    if tss != [] {
      var init := tss[..|tss| - 1];
      Unseeded(init);
      assert init != [] ==> init[|init| - 1] == tss[|tss| - 2] <= tss[|tss| - 1];
    }
  }

  /** After the seed, any 512 consecutive packets of an ordered stream contain a tick, however many packets without a
      timestamp come first. */
  lemma WindowTicks(tss: seq<Time>, from: nat) returns (i: nat)
    requires forall i :: 0 < i < |tss| ==> tss[i - 1] <= tss[i]
    requires tss != [] ==> tss[0] >= ZERO_TIME
    requires from + TICK_EVERY <= |tss| && Clocked(tss[..from]).last != ZERO_TIME
    ensures from <= i < from + TICK_EVERY && TicksAt(tss, i)
  {
    i := DueIn(from);
    ClockCounts(tss[..i]);
    assert tss[..i][..from] == tss[..from];
    ClockBehind(tss[..i], from);
  }

  /** Order is needed: a stream that only ever steps back re-seeds the clock with every packet. */
  lemma {:induction false} DecreasingNeverTicks(tss: seq<Time>, i: nat)
    requires i < |tss|
    requires forall j :: 0 < j < |tss| ==> tss[j] < tss[j - 1]
    ensures !TicksAt(tss, i)
    decreases i
  {
    if i > 0 {
      DecreasingNeverTicks(tss[..i], i - 1);
      assert tss[..i][..i - 1] == tss[..i - 1];
      SeededTo(tss, i);
    }
  }

  lemma SeededTo(tss: seq<Time>, i: nat)
    requires 0 < i < |tss| && !TicksAt(tss, i - 1)
    requires tss[i] < tss[i - 1]
    requires forall j :: 0 < j < |tss| ==> tss[j] < tss[j - 1]
    ensures Clocked(tss[..i]).last == tss[i - 1]
  {
    assert tss[..i][..i - 1] == tss[..i - 1];
    if i > 1 {
      LastOfDecreasing(tss, i - 1);
    }
  }

  lemma {:induction false} LastOfDecreasing(tss: seq<Time>, i: nat)
    requires 0 < i < |tss|
    requires forall j :: 0 < j < |tss| ==> tss[j] < tss[j - 1]
    ensures Clocked(tss[..i]).last == tss[i - 1]
  {
    assert tss[..i][..i - 1] == tss[..i - 1];
    if i > 1 {
      LastOfDecreasing(tss, i - 1);
    } else {
      assert tss[..i - 1] == [];
    }
  }

  // ---- the packet loop ----

  /** One packet, with the iteration choices the table makes while it is processed. */
  datatype Turn = Turn(p: Packet, victim: Key, order: seq<Key>)

  datatype Loop = Loop(table: State, clock: Clock)

  ghost predicate LegalTurn(opt: Options, l: Loop, t: Turn) {
    && Legal(opt, l.table, Arrive(t.p, t.victim))
    && (Advance(l.clock, t.p.ts).1 ==> Legal(opt, Observe(opt, l.table, t.p, t.victim), Sweep(t.p.ts, t.order)))
  }

  function Take(opt: Options, l: Loop, t: Turn): Loop
    requires LegalTurn(opt, l, t)
  {
    var s := Observe(opt, l.table, t.p, t.victim);
    var (c, due) := Advance(l.clock, t.p.ts);
    Loop(if due then Tick(opt, s, t.p.ts, t.order) else s, c)
  }

  ghost predicate LegalLoop(opt: Options, ts: seq<Turn>)
    decreases |ts|, 0
  {
    ts == [] ||
    (LegalLoop(opt, ts[..|ts| - 1]) && LegalTurn(opt, LoopRun(opt, ts[..|ts| - 1]), ts[|ts| - 1]))
  }

  ghost function LoopRun(opt: Options, ts: seq<Turn>): Loop
    requires LegalLoop(opt, ts)
    decreases |ts|, 1
  {
    if ts == [] then Loop(EMPTY, START) else Take(opt, LoopRun(opt, ts[..|ts| - 1]), ts[|ts| - 1])
  }

  /** No live flow is more than a time limit, and `slack` on top of it, behind the time now. */
  ghost predicate Fresh(opt: Options, s: State, now: Time, slack: int) {
    forall k :: k in s.flows ==>
                  && (opt.idleTimeout > 0 ==> now - s.flows[k].rec.lastSeen < opt.idleTimeout + slack)
                  && (opt.maxLifetime > 0 ==> now - s.flows[k].rec.firstSeen < opt.maxLifetime + slack)
  }

  // ---- one packet ----

  lemma AccountTimes(e: Entry, p: Packet)
    ensures Account(e, p).rec.firstSeen == e.rec.firstSeen
    ensures Account(e, p).rec.lastSeen == if p.ts > e.rec.lastSeen then p.ts else e.rec.lastSeen
  {
    hide FoldSize, FoldGap, FoldDirection, FoldTCP, KeyOf, IsForward;
  }

  ghost predicate FreshEntry(opt: Options, e: Entry, now: Time) {
    && (opt.idleTimeout > 0 ==> now - e.rec.lastSeen < opt.idleTimeout)
    && (opt.maxLifetime > 0 ==> now - e.rec.firstSeen < opt.maxLifetime)
  }

  lemma DeliverFresh(opt: Options, s: State, k: Key, e: Entry, p: Packet, now: Time)
    requires Fresh(opt, s, now, 0) && FreshEntry(opt, e, now)
    ensures Fresh(opt, Deliver(s, k, e, p), now, 0)
  {
    hide Account;
    AccountTimes(e, p);
  }

  lemma OpenFresh(opt: Options, s: State, p: Packet, victim: Key, now: Time)
    requires Legal(opt, s, Arrive(p, victim)) && Fresh(opt, s, now, 0) && now <= p.ts
    ensures Fresh(opt, Open(opt, s, p, victim), now, 0)
  {
    hide KeyOf, NewEnds, Absorbed;
  }

  /** An arrival makes no flow older than it was; the flow of the packet is seen at its timestamp
      or later, and if it is new it starts there. */
  lemma ObserveFresh(opt: Options, s: State, p: Packet, victim: Key, now: Time)
    requires Legal(opt, s, Arrive(p, victim)) && Fresh(opt, s, now, 0)
    ensures Fresh(opt, Observe(opt, s, p, victim), if now <= p.ts then now else p.ts, 0)
  {
    hide Deliver, KeyOf, NewEnds, Absorbed, Open;
    var k, t := KeyOf(p).0, if now <= p.ts then now else p.ts;
    if k in s.flows {
      DeliverFresh(opt, s, k, s.flows[k], p, t);
    } else if !Absorbed(s, p) {
      OpenFresh(opt, s, p, victim, t);
      DeliverFresh(opt, Open(opt, s, p, victim), k, NewEntry(opt, s.nextID + 1, k, p), p, t);
    }
  }

  lemma TickKeyFresh(opt: Options, s: State, now: Time, k: Key)
    ensures var s' := TickKey(opt, s, now, k);
            && s'.flows.Keys <= s.flows.Keys
            && (forall j :: j in s'.flows ==> s'.flows[j].rec.lastSeen == s.flows[j].rec.lastSeen &&
                                              s'.flows[j].rec.firstSeen == s.flows[j].rec.firstSeen)
            && (k in s'.flows ==> !OverAge(opt, s'.flows[k], now) && !IdleFor(opt, s'.flows[k], now))
  {}

  lemma {:induction false} TickKeysFresh(opt: Options, s: State, now: Time, order: seq<Key>)
    ensures var s' := TickKeys(opt, s, now, order);
            && s'.flows.Keys <= s.flows.Keys
            && (forall j :: j in s'.flows ==> s'.flows[j].rec.lastSeen == s.flows[j].rec.lastSeen &&
                                              s'.flows[j].rec.firstSeen == s.flows[j].rec.firstSeen)
            && forall j :: j in s'.flows && j in order ==>
                             !OverAge(opt, s'.flows[j], now) && !IdleFor(opt, s'.flows[j], now)
  {
    hide TickKey;
    if order != [] {
      var s1 := TickKeys(opt, s, now, order[..|order| - 1]);
      TickKeysFresh(opt, s, now, order[..|order| - 1]);
      TickKeyFresh(opt, s1, now, order[|order| - 1]);
      assert order == order[..|order| - 1] + [order[|order| - 1]];
    }
  }

  lemma TickFresh(opt: Options, s: State, now: Time, order: seq<Key>)
    requires Legal(opt, s, Sweep(now, order))
    ensures Fresh(opt, Tick(opt, s, now, order), now, 0)
  {
    TickKeysFresh(opt, s.(recentDown := Forget(s.recentDown, now)), now, order);
  }

  lemma TakeFresh(opt: Options, l: Loop, t: Turn)
    requires LegalTurn(opt, l, t) && l.clock.last != ZERO_TIME && Fresh(opt, l.table, l.clock.last, 0)
    ensures Fresh(opt, Take(opt, l, t).table, t.p.ts, TICK_INTERVAL)
  {
    hide Observe, Tick, Absorbed;
    ObserveFresh(opt, l.table, t.p, t.victim, l.clock.last);
    if Advance(l.clock, t.p.ts).1 {
      TickFresh(opt, Observe(opt, l.table, t.p, t.victim), t.p.ts, t.order);
    }
  }

  /** One packet at ts, for a table that is up to date at the clock: it is sure to be up to date afterwards, to within
      a second, exactly when the clock is seeded, or the packet comes within a second of the zero time, or no timer is
      set. */
  lemma TurnIff(opt: Options, c: Clock, ts: Time)
    ensures (forall s, t ::
               (Fresh(opt, s, c.last, 0) && LegalTurn(opt, Loop(s, c), t) && t.p.ts == ts) ==>
                 Fresh(opt, Take(opt, Loop(s, c), t).table, ts, TICK_INTERVAL))
            <==> c.last != ZERO_TIME || ts <= TICK_INTERVAL || (opt.idleTimeout <= 0 && opt.maxLifetime <= 0)
  {
    hide Take, Fresh, LegalTurn;
    if c.last != ZERO_TIME || ts <= TICK_INTERVAL || (opt.idleTimeout <= 0 && opt.maxLifetime <= 0) {
      forall s, t | Fresh(opt, s, c.last, 0) && LegalTurn(opt, Loop(s, c), t) && t.p.ts == ts
        ensures Fresh(opt, Take(opt, Loop(s, c), t).table, ts, TICK_INTERVAL)
      {
        if c.last != ZERO_TIME {
          TakeFresh(opt, Loop(s, c), t);
        } else {
          SeedFresh(opt, s, c, t);
        }
      }
    } else {
      var s, t := SeedStrands(opt, c, ts);
    }
  }

  lemma SeedFresh(opt: Options, s: State, c: Clock, t: Turn)
    requires c.last == ZERO_TIME && Fresh(opt, s, ZERO_TIME, 0) && LegalTurn(opt, Loop(s, c), t)
    requires t.p.ts <= TICK_INTERVAL || (opt.idleTimeout <= 0 && opt.maxLifetime <= 0)
    ensures Fresh(opt, Take(opt, Loop(s, c), t).table, t.p.ts, TICK_INTERVAL)
  {
    hide Observe, Absorbed;
    ObserveFresh(opt, s, t.p, t.victim, ZERO_TIME);
  }

  /** Otherwise a packet that seeds the clock, absorbed or not, leaves behind a flow that was just short of a timer. */
  lemma SeedStrands(opt: Options, c: Clock, ts: Time) returns (s: State, t: Turn)
    requires c.last == ZERO_TIME && ts > TICK_INTERVAL && (opt.idleTimeout > 0 || opt.maxLifetime > 0)
    ensures Fresh(opt, s, c.last, 0) && LegalTurn(opt, Loop(s, c), t) && t.p.ts == ts
    ensures !Fresh(opt, Take(opt, Loop(s, c), t).table, ts, TICK_INTERVAL)
  {
    hide KeyOfEndpoints, NewEnds;
    var limit := if opt.idleTimeout <= 0 then opt.maxLifetime
                 else if opt.maxLifetime <= 0 || opt.idleTimeout <= opt.maxLifetime then opt.idleTimeout
                 else opt.maxLifetime;
    var stale := At(1 - limit, 7000);
    var k := KeyOf(stale).0;
    var e := NewEntry(opt, 1, k, stale);
    var p := At(ts, 7001);
    s := EMPTY.(flows := map[k := e], recentDown := map[KeyOf(p).0 := ts]);
    t := Turn(p, k, []);
    PortsApart(ts, 1 - limit);
    assert Observe(opt, s, p, k) == s;
    assert k in s.flows && s.flows[k].rec.lastSeen == s.flows[k].rec.firstSeen == 1 - limit;
  }

  // ---- the zero timestamp ----

  function At(ts: Time, port: nat): Packet {
    Packet(ts, 1, 2, PROTO_UDP, port, 53, Flags(false, false, false, false, false, false), 0, 80, 52, "")
  }

  /** The hypothesis is needed, whatever the idle timeout: a packet without a timestamp leaves the
      clock unseeded, so the next packet seeds it instead of expiring the flow left behind. */
  lemma ZeroTimestampStrands(opt: Options, t0: Turn, t1: Turn)
    requires opt.idleTimeout > 0 && opt.maxFlows <= 0
    requires t0.p == At(ZERO_TIME, 7000) && t1.p == At(opt.idleTimeout + TICK_INTERVAL, 7001)
    ensures LegalLoop(opt, [t0, t1])
    ensures !Fresh(opt, LoopRun(opt, [t0, t1]).table, t1.p.ts, TICK_INTERVAL)
  {
    hide KeyOfEndpoints, NewEnds, Account;
    assert [t0, t1][..|[t0, t1]| - 1] == [t0] && [t0][..|[t0]| - 1] == [];
    var s0 := Observe(opt, EMPTY, t0.p, t0.victim);
    var k0 := KeyOf(t0.p).0;
    assert LegalLoop(opt, []) && LegalLoop(opt, [t0]) && LoopRun(opt, [t0]) == Loop(s0, Clock(1, ZERO_TIME));
    AccountTimes(NewEntry(opt, 1, k0, t0.p), t0.p);
    var s1 := Observe(opt, s0, t1.p, t1.victim);
    assert LegalTurn(opt, Loop(s0, Clock(1, ZERO_TIME)), t1);
    assert LegalLoop(opt, [t0, t1]) && LoopRun(opt, [t0, t1]).table == s1;
    PortsApart(opt.idleTimeout + TICK_INTERVAL, ZERO_TIME);
    assert k0 in s1.flows && s1.flows[k0].rec.lastSeen == ZERO_TIME;
  }

  lemma PortsApart(ts: Time, ts': Time)
    ensures KeyOf(At(ts, 7001)).0 != KeyOf(At(ts', 7000)).0
    ensures KeyOf(At(ts, 7000)).0 == KeyOf(At(ts', 7000)).0 && KeyOf(At(ts, 7001)).0 == KeyOf(At(ts', 7001)).0
  {}
}
