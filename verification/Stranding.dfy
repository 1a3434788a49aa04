/** Exactly which streams of timestamps let a flow outlive its timers: the pacer of internal/flow/pacer.go and the
    sweep of internal/flow/table.go, over whole runs. */
module Stranding {
  import opened Common
  import opened Flow
  import opened FlowSpec
  import opened Pacing

  function Stamps(ts: seq<Turn>): (tss: seq<Time>)
    ensures |tss| == |ts|
  {
    seq(|ts|, i requires 0 <= i < |ts| => ts[i].p.ts)
  }

  /** A flow that starts at packet j is not closed by a tick before packet `until`: not for its age and, if no later
      packet of its own comes, not for being idle either. */
  predicate Survives(opt: Options, tss: seq<Time>, j: nat, until: nat, alone: bool)
    requires j < |tss| && until <= |tss|
  {
    forall k :: j <= k < until && TicksAt(tss, k) ==>
      && (opt.maxLifetime > 0 ==> tss[k] - tss[j] < opt.maxLifetime)
      && (alone && opt.idleTimeout > 0 ==> tss[k] - tss[j] < opt.idleTimeout)
  }

  /** At the last packet some flow would be a second and a timer behind: one that packet j started or, for the idle
      timer, last touched. */
  predicate StrandedAt(opt: Options, tss: seq<Time>, j: nat, alone: bool)
    requires j < |tss|
  {
    var behind := tss[|tss| - 1] - tss[j];
    && Survives(opt, tss, j, |tss|, alone)
    && if alone then opt.idleTimeout > 0 && behind >= opt.idleTimeout + TICK_INTERVAL
       else opt.maxLifetime > 0 && behind >= opt.maxLifetime + TICK_INTERVAL
  }

  // ---- room for one flow ----

  /** Before packet `until` no tick forgets a teardown by packet m. */
  predicate Recalled(tss: seq<Time>, m: nat, until: nat)
    requires m < |tss| && until <= |tss|
  {
    forall i :: m <= i < until && TicksAt(tss, i) ==> tss[i] - tss[m] < GRACE_WINDOW
  }

  /** Packet m may tear down another flow and yet leave room for the one last touched by packet l: because it comes
      first, or because its flow is no later than that one and can be evicted at once. */
  predicate MayClose(tss: seq<Time>, l: nat, m: nat)
    requires m < |tss|
  {
    m < l || (m > l && tss[m] <= tss[l])
  }

  /** Packet k may be a trailing packet of such a flow. */
  predicate Absorbable(tss: seq<Time>, l: nat, k: nat)
    requires k < |tss|
  {
    exists m: nat :: m < k && tss[k] - tss[m] < GRACE_WINDOW && Recalled(tss, m, k) && MayClose(tss, l, m)
  }

  /** None of the packets l+1..n need take the only place from the flow last touched by packet l. */
  predicate Solitary(tss: seq<Time>, l: nat, n: nat)
    requires l < |tss| && n <= |tss|
  {
    forall k :: l < k < n && tss[k] > tss[l] ==> Absorbable(tss, l, k)
  }

  predicate Strands(opt: Options, tss: seq<Time>) {
    exists j, alone :: 0 <= j < |tss| && StrandedAt(opt, tss, j, alone) &&
                       (alone && opt.maxFlows == 1 ==> Solitary(tss, j, |tss|))
  }

  // ---- what the table says about the stream ----

  /** Packet m, one of the first n, tore a flow down at that time, next to the flow last touched by packet l. */
  ghost predicate Mourned(tss: seq<Time>, n: nat, until: nat, down: Time, l: nat)
    requires until <= n <= |tss|
  {
    exists m: nat :: m < n && tss[m] == down && Recalled(tss, m, until) && MayClose(tss, l, m)
  }

  /** After n packets e started at packet j, was last seen at packet l, and no tick before packet `until` was due to
      close it; if it is the only one, the others since then were closed at once or were absorbed. */
  ghost predicate DatedBy(
    opt: Options, tss: seq<Time>, n: nat, until: nat, down: map<Key, Time>, e: Entry, j: nat, l: nat)
    requires until <= n <= |tss|
  {
    && j <= l < n && e.rec.firstSeen == tss[j] && e.rec.lastSeen == tss[l] && tss[j] <= tss[l]
    && Survives(opt, tss, j, until, false) && Survives(opt, tss, l, until, true)
    && (opt.maxFlows == 1 ==>
          Solitary(tss, l, n) && forall d :: d in down ==> Mourned(tss, n, until, down[d], l))
  }

  ghost predicate Dated(opt: Options, tss: seq<Time>, n: nat, until: nat, down: map<Key, Time>, e: Entry)
    requires until <= n <= |tss|
  {
    exists j: nat, l: nat :: DatedBy(opt, tss, n, until, down, e, j, l)
  }

  ghost predicate AllDated(opt: Options, tss: seq<Time>, n: nat, until: nat, s: State)
    requires until <= n <= |tss|
  {
    && (forall d :: d in s.recentDown ==> Mourned(tss, n, until, s.recentDown[d], n))
    && (forall k :: k in s.flows ==> Dated(opt, tss, n, until, s.recentDown, s.flows[k]))
    && (opt.maxFlows == 1 ==> forall a, b :: a in s.flows && b in s.flows ==> a == b)
  }

  lemma MournedLater(tss: seq<Time>, n: nat, down: Time, l: nat, l': nat)
    requires n < |tss| && Mourned(tss, n, n, down, l) && (l == l' || n <= l')
    ensures Mourned(tss, n + 1, n, down, l')
  {
    hide Recalled;
  }

  lemma MournedNow(tss: seq<Time>, n: nat, l: nat)
    requires n < |tss| && MayClose(tss, l, n)
    ensures Mourned(tss, n + 1, n, tss[n], l)
  {
    assert Recalled(tss, n, n);
  }

  lemma MournedTick(tss: seq<Time>, n: nat, down: Time, l: nat)
    requires n < |tss| && Mourned(tss, n + 1, n, down, l)
    requires TicksAt(tss, n) ==> tss[n] - down < GRACE_WINDOW
    ensures Mourned(tss, n + 1, n + 1, down, l)
  {
    hide TicksAt;
    var m: nat :| m < n + 1 && tss[m] == down && Recalled(tss, m, n) && MayClose(tss, l, m);
    assert Recalled(tss, m, n + 1);
  }

  /** Packet n is not the flow's own, or is no later than it. */
  lemma DatedKept(
    opt: Options, tss: seq<Time>, n: nat, down: map<Key, Time>, down': map<Key, Time>, e: Entry, e': Entry)
    requires n < |tss| && Dated(opt, tss, n, n, down, e)
    requires e'.rec.firstSeen == e.rec.firstSeen && e'.rec.lastSeen == e.rec.lastSeen
    requires forall d :: d in down' ==> (d in down && down'[d] == down[d]) || down'[d] == tss[n]
    requires opt.maxFlows == 1 ==>
               || tss[n] <= e.rec.lastSeen
               || (down' == down && exists d :: d in down && tss[n] - down[d] < GRACE_WINDOW)
    ensures Dated(opt, tss, n + 1, n, down', e')
  {
    hide Survives, Recalled;
    var j: nat, l: nat :| DatedBy(opt, tss, n, n, down, e, j, l);
    if opt.maxFlows == 1 {
      forall d | d in down' ensures Mourned(tss, n + 1, n, down'[d], l) {
        if d in down && down'[d] == down[d] {
          MournedLater(tss, n, down[d], l, l);
        } else {
          MournedNow(tss, n, l);
        }
      }
      assert Solitary(tss, l, n + 1);
    }
    assert DatedBy(opt, tss, n + 1, n, down', e', j, l);
  }

  /** Packet n is the flow's own and moves the last time seen, if it is later. */
  lemma DatedAccount(opt: Options, tss: seq<Time>, n: nat, s: State, k: Key, p: Packet)
    requires n < |tss| && p.ts == tss[n] && AllDated(opt, tss, n, n, s) && k in s.flows
    ensures Dated(opt, tss, n + 1, n, s.recentDown, Account(s.flows[k], p))
  {
    hide Account, Survives, Mourned;
    var e := s.flows[k];
    AccountTimes(e, p);
    if p.ts > e.rec.lastSeen {
      var j: nat, l: nat :| DatedBy(opt, tss, n, n, s.recentDown, e, j, l);
      forall d | d in s.recentDown ensures Mourned(tss, n + 1, n, s.recentDown[d], n) {
        MournedLater(tss, n, s.recentDown[d], n, n);
      }
      SurvivesNothing(opt, tss, n);
      assert DatedBy(opt, tss, n + 1, n, s.recentDown, Account(e, p), j, n);
    } else {
      DatedKept(opt, tss, n, s.recentDown, s.recentDown, e, Account(e, p));
    }
  }

  lemma SurvivesNothing(opt: Options, tss: seq<Time>, n: nat)
    requires n < |tss|
    ensures forall alone :: Survives(opt, tss, n, n, alone)
  {}

  lemma DatedNew(opt: Options, tss: seq<Time>, n: nat, down: map<Key, Time>, e: Entry)
    requires n < |tss| && e.rec.firstSeen == e.rec.lastSeen == tss[n]
    requires forall d :: d in down ==> Mourned(tss, n, n, down[d], n)
    ensures Dated(opt, tss, n + 1, n, down, e)
  {
    hide Survives, Mourned;
    SurvivesNothing(opt, tss, n);
    forall d | d in down ensures Mourned(tss, n + 1, n, down[d], n) {
      MournedLater(tss, n, down[d], n, n);
    }
    assert DatedBy(opt, tss, n + 1, n, down, e, n, n);
  }

  lemma DownDated(opt: Options, tss: seq<Time>, n: nat, s: State, down': map<Key, Time>)
    requires n < |tss| && AllDated(opt, tss, n, n, s)
    requires forall d :: d in down' ==> (d in s.recentDown && down'[d] == s.recentDown[d]) || down'[d] == tss[n]
    ensures forall d :: d in down' ==> Mourned(tss, n + 1, n, down'[d], n + 1)
  {
    hide Mourned, Dated;
    forall d | d in down' ensures Mourned(tss, n + 1, n, down'[d], n + 1) {
      if d in s.recentDown && down'[d] == s.recentDown[d] {
        MournedLater(tss, n, s.recentDown[d], n, n + 1);
      } else {
        MournedNow(tss, n, n + 1);
      }
    }
  }

  /** A packet of a live flow. */
  lemma KnownDated(opt: Options, tss: seq<Time>, n: nat, s: State, k: Key, p: Packet)
    requires n < |tss| && p.ts == tss[n] && AllDated(opt, tss, n, n, s) && k in s.flows
    ensures AllDated(opt, tss, n + 1, n, Deliver(s, k, s.flows[k], p))
  {
    hide Account, Dated, Mourned;
    var s' := Deliver(s, k, s.flows[k], p);
    DownDated(opt, tss, n, s, s'.recentDown);
    DatedAccount(opt, tss, n, s, k, p);
    forall o | o in s'.flows && o != k ensures Dated(opt, tss, n + 1, n, s'.recentDown, s'.flows[o]) {
      DatedKept(opt, tss, n, s.recentDown, s'.recentDown, s.flows[o], s'.flows[o]);
    }
  }

  lemma AbsorbedDated(opt: Options, tss: seq<Time>, n: nat, s: State, p: Packet)
    requires n < |tss| && p.ts == tss[n] && AllDated(opt, tss, n, n, s) && Absorbed(s, p)
    ensures AllDated(opt, tss, n + 1, n, s)
  {
    hide Dated, Mourned, KeyOf;
    DownDated(opt, tss, n, s, s.recentDown);
    forall o | o in s.flows ensures Dated(opt, tss, n + 1, n, s.recentDown, s.flows[o]) {
      DatedKept(opt, tss, n, s.recentDown, s.recentDown, s.flows[o], s.flows[o]);
    }
  }

  /** What opening a flow leaves: the others, unless there is room for one only and it is no later than packet n, and
      the new flow, unless it was torn down or evicted. */
  lemma OpenedDated(opt: Options, tss: seq<Time>, n: nat, s: State, k: Key, s': State)
    requires n < |tss| && AllDated(opt, tss, n, n, s) && k !in s.flows
    requires forall d :: d in s'.recentDown ==>
                           || (d in s.recentDown && s'.recentDown[d] == s.recentDown[d])
                           || (s'.recentDown[d] == tss[n] && k !in s'.flows)
    requires forall o :: o in s'.flows && o != k ==>
                           o in s.flows && s'.flows[o] == s.flows[o] &&
                           (opt.maxFlows == 1 ==> tss[n] <= s.flows[o].rec.lastSeen && k !in s'.flows)
    requires k in s'.flows ==> s'.flows[k].rec.firstSeen == s'.flows[k].rec.lastSeen == tss[n]
    ensures AllDated(opt, tss, n + 1, n, s')
  {
    hide Dated, Mourned;
    DownDated(opt, tss, n, s, s'.recentDown);
    forall o | o in s'.flows ensures Dated(opt, tss, n + 1, n, s'.recentDown, s'.flows[o]) {
      if o == k {
        DatedNew(opt, tss, n, s'.recentDown, s'.flows[k]);
      } else {
        DatedKept(opt, tss, n, s.recentDown, s'.recentDown, s.flows[o], s.flows[o]);
      }
    }
  }

  lemma NewTimes(opt: Options, id: nat, k: Key, p: Packet)
    ensures var r := NewEntry(opt, id, k, p).rec; r.firstSeen == r.lastSeen == p.ts
  {}

  /** With room for one flow, a flow that is still there was no earlier than the new one, which was evicted. */
  lemma EvictedOrAlone(opt: Options, s: State, p: Packet, victim: Key)
    requires Legal(opt, s, Arrive(p, victim)) && Opens(s, p) && opt.maxFlows == 1
    requires forall a, b :: a in s.flows && b in s.flows ==> a == b
    ensures var s' := Open(opt, s, p, victim);
            forall o :: o in s'.flows && o != KeyOf(p).0 ==>
                          KeyOf(p).0 !in s'.flows && p.ts <= s.flows[o].rec.lastSeen
  {
    hide KeyOf, NewEntry, Absorbed;
    var k := KeyOf(p).0;
    if s.flows == map[] {
    } else {
      assert |s.flows| > 0 && Overflows(opt, s, p);
      NewTimes(opt, s.nextID + 1, k, p);
      var s1 := Insert(opt, s, p);
      assert IsOldest(s1.flows, victim) && Open(opt, s, p, victim).flows == s1.flows - {victim};
      forall o | o in s.flows && o != victim ensures victim == k && p.ts <= s.flows[o].rec.lastSeen {
        assert s1.flows[o] == s.flows[o];
      }
    }
  }

  lemma OneLeft(opt: Options, tss: seq<Time>, n: nat, s: State, p: Packet, victim: Key)
    requires n < |tss| && AllDated(opt, tss, n, n, s) && Legal(opt, s, Arrive(p, victim)) && Opens(s, p)
    ensures var s' := Open(opt, s, p, victim);
            opt.maxFlows == 1 ==> forall o :: o in s'.flows && o != KeyOf(p).0 ==>
              KeyOf(p).0 !in s'.flows && p.ts <= s.flows[o].rec.lastSeen
  {
    hide KeyOf, Open, Opens, Legal, Dated, Mourned;
    if opt.maxFlows == 1 {
      EvictedOrAlone(opt, s, p, victim);
    }
  }

  /** What the table holds after a packet that opens a flow. */
  lemma NewEffect(opt: Options, s: State, p: Packet, victim: Key)
    requires Legal(opt, s, Arrive(p, victim)) && Opens(s, p)
    ensures var s', k, held := Observe(opt, s, p, victim), KeyOf(p).0, Open(opt, s, p, victim).flows;
            && (forall d :: d in s'.recentDown ==>
                  || (d in s.recentDown && s'.recentDown[d] == s.recentDown[d])
                  || (s'.recentDown[d] == p.ts && k !in s'.flows))
            && (forall o :: o in s'.flows && o != k ==> o in held && o in s.flows && s'.flows[o] == s.flows[o])
            && (k in s'.flows ==> k in held && s'.flows[k].rec.firstSeen == s'.flows[k].rec.lastSeen == p.ts)
  {
    hide KeyOf, NewEntry, Absorbed, Account;
    var e := NewEntry(opt, s.nextID + 1, KeyOf(p).0, p);
    NewTimes(opt, s.nextID + 1, KeyOf(p).0, p);
    AccountTimes(e, p);
  }

  lemma NewDated(opt: Options, tss: seq<Time>, n: nat, s: State, p: Packet, victim: Key)
    requires n < |tss| && p.ts == tss[n] && AllDated(opt, tss, n, n, s)
    requires Legal(opt, s, Arrive(p, victim)) && Opens(s, p)
    ensures AllDated(opt, tss, n + 1, n, Observe(opt, s, p, victim))
  {
    hide KeyOf, Observe, Open, Absorbed, Legal, AllDated;
    NewEffect(opt, s, p, victim);
    OneLeft(opt, tss, n, s, p, victim);
    OpenedDated(opt, tss, n, s, KeyOf(p).0, Observe(opt, s, p, victim));
  }

  lemma ObserveDated(opt: Options, tss: seq<Time>, n: nat, s: State, p: Packet, victim: Key)
    requires n < |tss| && p.ts == tss[n] && AllDated(opt, tss, n, n, s) && Legal(opt, s, Arrive(p, victim))
    ensures AllDated(opt, tss, n + 1, n, Observe(opt, s, p, victim))
  {
    hide KeyOf, NewEntry, Absorbed, Deliver, Open, AllDated;
    var k := KeyOf(p).0;
    if k in s.flows {
      KnownDated(opt, tss, n, s, k, p);
    } else if Absorbed(s, p) {
      AbsorbedDated(opt, tss, n, s, p);
    } else {
      NewDated(opt, tss, n, s, p, victim);
    }
  }

  /** The tick, if there is one, leaves no flow it was due to close and no teardown it was due to forget. */
  lemma DatedTick(
    opt: Options, tss: seq<Time>, n: nat, down: map<Key, Time>, down': map<Key, Time>, e: Entry, e': Entry)
    requires n < |tss| && Dated(opt, tss, n + 1, n, down, e)
    requires e'.rec.firstSeen == e.rec.firstSeen && e'.rec.lastSeen == e.rec.lastSeen
    requires TicksAt(tss, n) ==> !OverAge(opt, e', tss[n]) && !IdleFor(opt, e', tss[n])
    requires forall d :: d in down' ==>
                           d in down && down'[d] == down[d] && (TicksAt(tss, n) ==> tss[n] - down[d] < GRACE_WINDOW)
    ensures Dated(opt, tss, n + 1, n + 1, down', e')
  {
    hide TicksAt, Mourned, Solitary;
    var j: nat, l: nat :| DatedBy(opt, tss, n + 1, n, down, e, j, l);
    if opt.maxFlows == 1 {
      forall d | d in down' ensures Mourned(tss, n + 1, n + 1, down'[d], l) {
        MournedTick(tss, n, down[d], l);
      }
    }
    assert DatedBy(opt, tss, n + 1, n + 1, down', e', j, l);
  }

  lemma {:induction false} TickKeysDown(opt: Options, s: State, now: Time, order: seq<Key>)
    ensures TickKeys(opt, s, now, order).recentDown == s.recentDown
  {
    if order != [] {
      TickKeysDown(opt, s, now, order[..|order| - 1]);
    }
  }

  lemma TickDated(opt: Options, tss: seq<Time>, n: nat, s: State, order: seq<Key>)
    requires n < |tss| && AllDated(opt, tss, n + 1, n, s)
    requires TicksAt(tss, n) ==> Legal(opt, s, Sweep(tss[n], order))
    ensures AllDated(opt, tss, n + 1, n + 1, if TicksAt(tss, n) then Tick(opt, s, tss[n], order) else s)
  {
    hide TicksAt, Dated, Mourned, TickKeys;
    var s1 := s.(recentDown := Forget(s.recentDown, tss[n]));
    var s' := if TicksAt(tss, n) then Tick(opt, s, tss[n], order) else s;
    TickKeysFresh(opt, s1, tss[n], order);
    TickKeysDown(opt, s1, tss[n], order);
    forall d | d in s'.recentDown ensures Mourned(tss, n + 1, n + 1, s'.recentDown[d], n + 1) {
      MournedTick(tss, n, s.recentDown[d], n + 1);
    }
    forall k | k in s'.flows ensures Dated(opt, tss, n + 1, n + 1, s'.recentDown, s'.flows[k]) {
      DatedTick(opt, tss, n, s.recentDown, s'.recentDown, s.flows[k], s'.flows[k]);
    }
  }

  lemma {:induction false} ClockOfLoop(opt: Options, ts: seq<Turn>)
    requires LegalLoop(opt, ts)
    ensures LoopRun(opt, ts).clock == Clocked(Stamps(ts))
  {
    if ts != [] {
      hide Observe, Tick;
      ClockOfLoop(opt, ts[..|ts| - 1]);
      assert Stamps(ts)[..|ts| - 1] == Stamps(ts[..|ts| - 1]);
    }
  }

  lemma TurnDated(opt: Options, tss: seq<Time>, n: nat, l: Loop, t: Turn)
    requires n < |tss| && LegalTurn(opt, l, t) && l.clock == Clocked(tss[..n]) && t.p.ts == tss[n]
    requires AllDated(opt, tss, n, n, l.table)
    ensures AllDated(opt, tss, n + 1, n + 1, Take(opt, l, t).table)
  {
    hide Observe, Tick, AllDated;
    ObserveDated(opt, tss, n, l.table, t.p, t.victim);
    TickDated(opt, tss, n, Observe(opt, l.table, t.p, t.victim), t.order);
  }

  lemma {:induction false} LoopDated(opt: Options, tss: seq<Time>, ts: seq<Turn>)
    requires LegalLoop(opt, ts) && |ts| <= |tss| && Stamps(ts) == tss[..|ts|]
    ensures AllDated(opt, tss, |ts|, |ts|, LoopRun(opt, ts).table)
    decreases |ts|
  {
    hide Take, LegalTurn, Clocked;
    if ts != [] {
      hide AllDated;
      var n, init, t := |ts| - 1, ts[..|ts| - 1], ts[|ts| - 1];
      assert Stamps(init) == tss[..n] by {
        assert Stamps(init) == Stamps(ts)[..n];
      }
      assert t.p.ts == Stamps(ts)[n] == tss[n];
      LoopDated(opt, tss, init);
      ClockOfLoop(opt, init);
      TurnDated(opt, tss, n, LoopRun(opt, init), t);
    }
  }

  /** A run that ends with an overdue flow has a stream that strands. */
  lemma OverdueStrands(opt: Options, ts: seq<Turn>)
    requires LegalLoop(opt, ts) && ts != []
    requires !Fresh(opt, LoopRun(opt, ts).table, ts[|ts| - 1].p.ts, TICK_INTERVAL)
    ensures Strands(opt, Stamps(ts))
  {
    hide LoopRun, LegalLoop, Dated, Strands;
    var s, tss := LoopRun(opt, ts).table, Stamps(ts);
    assert tss[..|ts|] == tss;
    LoopDated(opt, tss, ts);
    var now := tss[|tss| - 1];
    assert now == ts[|ts| - 1].p.ts;
    var k :| k in s.flows && !FreshEntry(opt, s.flows[k], now - TICK_INTERVAL);
    OverdueEntry(opt, tss, s.recentDown, s.flows[k]);
  }

  lemma OverdueEntry(opt: Options, tss: seq<Time>, down: map<Key, Time>, e: Entry)
    requires tss != [] && Dated(opt, tss, |tss|, |tss|, down, e)
    requires !FreshEntry(opt, e, tss[|tss| - 1] - TICK_INTERVAL)
    ensures Strands(opt, tss)
  {
    hide Survives, Solitary, Mourned;
    var j: nat, l: nat :| DatedBy(opt, tss, |tss|, |tss|, down, e, j, l);
    if opt.idleTimeout > 0 && tss[|tss| - 1] - TICK_INTERVAL - tss[l] >= opt.idleTimeout {
      assert StrandedAt(opt, tss, l, true);
    } else {
      assert StrandedAt(opt, tss, j, false);
    }
  }

  // ---- which packets are to blame ----

  /** After packet z the clock is unseeded, and nothing has ticked since. */
  predicate GapAt(tss: seq<Time>, z: nat) {
    && z + 1 < |tss| && Clocked(tss[..z + 1]).last == ZERO_TIME
    && forall k :: z < k < |tss| ==> !TicksAt(tss, k)
  }

  ghost predicate Gap(tss: seq<Time>) { exists z: nat :: GapAt(tss, z) }

  lemma TicksPrefix(tss: seq<Time>, t: Time, k: nat)
    requires k < |tss|
    ensures TicksAt(tss + [t], k) == TicksAt(tss, k)
  {
    assert (tss + [t])[..k] == tss[..k];
  }

  /** Only a packet with the zero timestamp leaves the clock unseeded. */
  lemma OnlyZeroUnseeds(tss: seq<Time>)
    requires tss != [] && Clocked(tss).last == ZERO_TIME
    ensures tss[|tss| - 1] == ZERO_TIME
  {}

  predicate Current(opt: Options, tss: seq<Time>) {
    && tss != [] && tss[|tss| - 1] - Clocked(tss).last < TICK_INTERVAL
    && forall j, alone :: 0 <= j < |tss| && Survives(opt, tss, j, |tss|, alone) ==>
         && (alone && opt.idleTimeout > 0 ==> Clocked(tss).last - tss[j] < opt.idleTimeout)
         && (!alone && opt.maxLifetime > 0 ==> Clocked(tss).last - tss[j] < opt.maxLifetime)
  }

  lemma {:induction false} GapOrCurrent(opt: Options, tss: seq<Time>)
    requires tss != []
    ensures Gap(tss) || Current(opt, tss)
  {
    var n, init := |tss| - 1, tss[..|tss| - 1];
    assert tss == init + [tss[n]];
    if init == [] {
      assert Clocked(tss).last == tss[n];
    } else {
      GapOrCurrent(opt, init);
      if !TicksAt(tss, n) {
        if z: nat :| GapAt(init, z) {
          GapGrows(init, tss[n], z);
        } else if Clocked(init).last == ZERO_TIME {
          assert tss[..n] == init;
          assert GapAt(tss, n - 1);
        } else {
          StaysCurrent(opt, init, tss[n]);
        }
      }
    }
  }

  lemma GapGrows(tss: seq<Time>, t: Time, z: nat)
    requires GapAt(tss, z) && !TicksAt(tss + [t], |tss|)
    ensures GapAt(tss + [t], z)
  {
    hide TicksAt;
    assert (tss + [t])[..z + 1] == tss[..z + 1];
    forall k | z < k < |tss| ensures !TicksAt(tss + [t], k) {
      TicksPrefix(tss, t, k);
    }
  }

  lemma StaysCurrent(opt: Options, tss: seq<Time>, t: Time)
    requires Current(opt, tss) && Clocked(tss).last != ZERO_TIME && !TicksAt(tss + [t], |tss|)
    ensures Current(opt, tss + [t])
  {
    assert (tss + [t])[..|tss|] == tss;
    var c := Clocked(tss + [t]).last;
    assert c <= Clocked(tss).last && c <= t;
    var both := tss + [t];
    forall j, alone | 0 <= j < |both| && Survives(opt, both, j, |both|, alone)
      ensures alone && opt.idleTimeout > 0 ==> c - both[j] < opt.idleTimeout
      ensures !alone && opt.maxLifetime > 0 ==> c - both[j] < opt.maxLifetime
    {
      if j < |tss| {
        SurvivesShrinks(opt, tss, t, j, alone);
      }
    }
  }

  lemma SurvivesShrinks(opt: Options, tss: seq<Time>, t: Time, j: nat, alone: bool)
    requires j < |tss| && Survives(opt, tss + [t], j, |tss| + 1, alone)
    ensures Survives(opt, tss, j, |tss|, alone)
  {
    hide TicksAt;
    forall k | j <= k < |tss| ensures TicksAt(tss + [t], k) == TicksAt(tss, k) {
      TicksPrefix(tss, t, k);
    }
  }

  /** A stream strands a flow only after a packet with the zero timestamp that left the clock unseeded, and only until
      the next tick. */
  lemma OnlyZerosStrand(opt: Options, tss: seq<Time>)
    requires Strands(opt, tss)
    ensures exists z: nat :: GapAt(tss, z) && tss[z] == ZERO_TIME
  {
    hide Clocked, Survives, TicksAt;
    GapOrCurrent(opt, tss);
    assert Gap(tss);
    var z: nat :| GapAt(tss, z);
    OnlyZeroUnseeds(tss[..z + 1]);
  }

  /** So in every run: as long as each packet that leaves the clock unseeded is the last one or was followed by a tick,
      no live flow outlives a timer by a second. */
  lemma ExpiryIsTimely(opt: Options, ts: seq<Turn>)
    requires LegalLoop(opt, ts) && ts != [] && !Gap(Stamps(ts))
    ensures Fresh(opt, LoopRun(opt, ts).table, ts[|ts| - 1].p.ts, TICK_INTERVAL)
  {
    hide LoopRun, LegalLoop, Strands, Stamps, Fresh;
    if !Fresh(opt, LoopRun(opt, ts).table, ts[|ts| - 1].p.ts, TICK_INTERVAL) {
      OverdueStrands(opt, ts);
      OnlyZerosStrand(opt, Stamps(ts));
    }
  }
}
