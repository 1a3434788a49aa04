/** A run for every stream of timestamps that strands a flow, so that the condition of module Stranding is exact. */
module StrandedRuns {
  import opened Common
  import opened Flow
  import opened FlowSpec
  import opened Pacing
  import opened Stranding

  // ---- three kinds of packets ----

  /** A packet of the flow to be stranded. */
  function Own(ts: Time): Packet { At(ts, 7000) }

  /** A packet that opens a flow of its own and tears it down. */
  function Reset(ts: Time, m: nat): Packet {
    Packet(ts, m, -1, PROTO_TCP, 7000, 80, Flags(false, true, true, false, false, false), 0, 80, 40, "")
  }

  /** A trailing packet of that flow. */
  function Tail(ts: Time, m: nat): Packet { Reset(ts, m).(flags := Flags(false, false, false, false, true, false)) }

  const OWN := Key(1, 2, 7000, 53, PROTO_UDP, "")

  function ResetKey(m: nat): Key { Key(-1, m, 80, 7000, PROTO_TCP, "") }

  lemma KeysApart(ts: Time, m: nat)
    ensures KeyOf(Own(ts)).0 == OWN && KeyOf(Reset(ts, m)).0 == KeyOf(Tail(ts, m)).0 == ResetKey(m) != OWN
  {}

  // ---- the plan ----

  /** Packet m closes a flow of its own at once: before packet j, and after it if the flow of packet j is to be idle and
      keeps its place. */
  predicate Closes(opt: Options, tss: seq<Time>, j: nat, alone: bool, m: nat)
    requires j < |tss| && m < |tss|
  {
    m < j || (m > j && alone && (opt.maxFlows == 1 ==> tss[m] <= tss[j]))
  }

  /** The table after n packets and the ticks before packet `until`. */
  ghost predicate Planned(opt: Options, tss: seq<Time>, j: nat, alone: bool, n: nat, until: nat, s: State)
    requires j < |tss| && until <= n <= |tss|
  {
    && (forall d :: d in s.recentDown ==> d != OWN)
    && (forall m: nat :: m < n && Closes(opt, tss, j, alone, m) && Recalled(tss, m, until) ==>
          ResetKey(m) in s.recentDown && s.recentDown[ResetKey(m)] == tss[m])
    && s.flows.Keys == (if j < n then {OWN} else {})
    && (j < n ==>
          var r := s.flows[OWN].rec;
          r.firstSeen == tss[j] && r.lastSeen >= tss[j] && (alone ==> r.lastSeen == tss[j])
          && (!alone ==> r.lastSeen >= tss[n - 1]))
  }

  /** Packet n belongs to the flow. */
  lemma OwnObserve(opt: Options, tss: seq<Time>, j: nat, alone: bool, n: nat, s: State, victim: Key)
    requires j < |tss| && n < |tss| && Planned(opt, tss, j, alone, n, n, s)
    requires n == j || (n > j && !alone)
    ensures Legal(opt, s, Arrive(Own(tss[n]), victim))
    ensures Planned(opt, tss, j, alone, n + 1, n, Observe(opt, s, Own(tss[n]), victim))
  {
    hide KeyOf, NewEntry, Account, Recalled;
    var p := Own(tss[n]);
    KeysApart(tss[n], n);
    if n == j {
      assert s.flows == map[];
      NewTimes(opt, s.nextID + 1, OWN, p);
      AccountTimes(NewEntry(opt, s.nextID + 1, OWN, p), p);
    } else {
      AccountTimes(s.flows[OWN], p);
    }
  }

  /** The state that such a packet leaves, whether its flow was evicted in between or not. */
  lemma ResetEffect(opt: Options, s: State, p: Packet)
    requires p.proto == PROTO_TCP && p.flags.rst && p.flags.syn && KeyOf(p).0 !in s.flows
    requires Legal(opt, s, Arrive(p, KeyOf(p).0))
    ensures var s' := Observe(opt, s, p, KeyOf(p).0);
            s'.flows == s.flows && s'.recentDown == s.recentDown[KeyOf(p).0 := p.ts]
  {
    hide KeyOf, NewEntry, Account;
    ResetTearsDown(NewEntry(opt, s.nextID + 1, KeyOf(p).0, p), p);
  }

  lemma ResetLegal(opt: Options, s: State, p: Packet)
    requires KeyOf(p).0 !in s.flows && |s.flows| <= 1
    requires opt.maxFlows == 1 ==> forall k :: k in s.flows ==> p.ts <= s.flows[k].rec.lastSeen
    ensures Legal(opt, s, Arrive(p, KeyOf(p).0))
  {
    hide KeyOf, NewEntry, Absorbed;
    NewTimes(opt, s.nextID + 1, KeyOf(p).0, p);
  }

  lemma ResetPlanned(opt: Options, tss: seq<Time>, j: nat, alone: bool, n: nat, s: State, s': State)
    requires j < |tss| && n < |tss| && Planned(opt, tss, j, alone, n, n, s) && Closes(opt, tss, j, alone, n)
    requires s'.flows == s.flows && s'.recentDown == s.recentDown[ResetKey(n) := tss[n]]
    ensures Planned(opt, tss, j, alone, n + 1, n, s')
  {
    hide Recalled;
  }

  lemma RoomForReset(opt: Options, tss: seq<Time>, j: nat, alone: bool, n: nat, s: State)
    requires j < |tss| && n < |tss| && Planned(opt, tss, j, alone, n, n, s) && Closes(opt, tss, j, alone, n)
    ensures ResetKey(n) !in s.flows && |s.flows| <= 1
    ensures opt.maxFlows == 1 ==> forall k :: k in s.flows ==> tss[n] <= s.flows[k].rec.lastSeen
  {
    hide Recalled;
    assert |s.flows| == |s.flows.Keys| <= 1;
  }

  /** Packet n opens and closes a flow of its own. */
  lemma ResetObserve(opt: Options, tss: seq<Time>, j: nat, alone: bool, n: nat, s: State)
    requires j < |tss| && n < |tss| && Planned(opt, tss, j, alone, n, n, s) && Closes(opt, tss, j, alone, n)
    ensures Legal(opt, s, Arrive(Reset(tss[n], n), ResetKey(n)))
    ensures Planned(opt, tss, j, alone, n + 1, n, Observe(opt, s, Reset(tss[n], n), ResetKey(n)))
  {
    hide KeyOf, Planned, Closes, Observe, Legal;
    KeysApart(tss[n], n);
    RoomForReset(opt, tss, j, alone, n, s);
    ResetLegal(opt, s, Reset(tss[n], n));
    ResetEffect(opt, s, Reset(tss[n], n));
    ResetPlanned(opt, tss, j, alone, n, s, Observe(opt, s, Reset(tss[n], n), ResetKey(n)));
  }

  lemma ResetTearsDown(e: Entry, p: Packet)
    requires p.proto == PROTO_TCP && p.flags.rst
    ensures TornDown(Account(e, p), p)
  {
    hide Fold, KeyOf, IsForward;
  }

  /** Packet n trails a flow that was closed. */
  lemma TailObserve(opt: Options, tss: seq<Time>, j: nat, n: nat, m: nat, s: State, victim: Key)
    requires j < n < |tss| && m < n && opt.maxFlows == 1 && Planned(opt, tss, j, true, n, n, s)
    requires tss[n] > tss[j] && tss[n] - tss[m] < GRACE_WINDOW && Recalled(tss, m, n) && MayClose(tss, j, m)
    ensures Legal(opt, s, Arrive(Tail(tss[n], m), victim))
    ensures Planned(opt, tss, j, true, n + 1, n, Observe(opt, s, Tail(tss[n], m), victim))
  {
    hide KeyOf, Recalled;
    KeysApart(tss[n], m);
    assert Closes(opt, tss, j, true, m);
    assert Absorbed(s, Tail(tss[n], m));
  }

  lemma PlannedObserve(opt: Options, tss: seq<Time>, j: nat, alone: bool, n: nat, s: State)
    returns (p: Packet, victim: Key)
    requires j < |tss| && n < |tss| && Planned(opt, tss, j, alone, n, n, s)
    requires alone && opt.maxFlows == 1 ==> Solitary(tss, j, |tss|)
    ensures p.ts == tss[n] && Legal(opt, s, Arrive(p, victim))
    ensures Planned(opt, tss, j, alone, n + 1, n, Observe(opt, s, p, victim))
  {
    hide Planned, Legal, Recalled, KeyOf;
    if n == j || (n > j && !alone) {
      p, victim := Own(tss[n]), OWN;
      OwnObserve(opt, tss, j, alone, n, s, victim);
    } else if Closes(opt, tss, j, alone, n) {
      p, victim := Reset(tss[n], n), ResetKey(n);
      ResetObserve(opt, tss, j, alone, n, s);
    } else {
      var m: nat :| m < n && tss[n] - tss[m] < GRACE_WINDOW && Recalled(tss, m, n) && MayClose(tss, j, m);
      p, victim := Tail(tss[n], m), OWN;
      TailObserve(opt, tss, j, n, m, s, victim);
    }
  }

  lemma {:induction false} Enumeration(keys: set<Key>) returns (order: seq<Key>)
    ensures (forall k :: k in keys <==> k in order) && forall i, j :: 0 <= i < j < |order| ==> order[i] != order[j]
    decreases keys
  {
    order := [];
    if x :| x in keys {
      var rest := Enumeration(keys - {x});
      order := rest + [x];
    }
  }

  /** A sweep keeps a flow that is due for no timer. */
  lemma {:induction false} TickKeysKeep(opt: Options, s: State, now: Time, order: seq<Key>, k: Key)
    requires k in s.flows && !OverAge(opt, s.flows[k], now) && !IdleFor(opt, s.flows[k], now)
    ensures var s' := TickKeys(opt, s, now, order);
            && k in s'.flows && s'.flows[k].rec.firstSeen == s.flows[k].rec.firstSeen
            && s'.flows[k].rec.lastSeen == s.flows[k].rec.lastSeen
  {
    if order != [] {
      TickKeysKeep(opt, s, now, order[..|order| - 1], k);
    }
  }

  lemma PlannedTick(opt: Options, tss: seq<Time>, j: nat, alone: bool, n: nat, s: State, order: seq<Key>)
    requires j < |tss| && n < |tss| && Planned(opt, tss, j, alone, n + 1, n, s) && TicksAt(tss, n)
    requires Legal(opt, s, Sweep(tss[n], order)) && Survives(opt, tss, j, |tss|, alone)
    ensures Planned(opt, tss, j, alone, n + 1, n + 1, Tick(opt, s, tss[n], order))
  {
    hide TickKeys, TicksAt;
    var s1 := s.(recentDown := Forget(s.recentDown, tss[n]));
    TickKeysDown(opt, s1, tss[n], order);
    TickKeysFresh(opt, s1, tss[n], order);
    if j <= n {
      TickKeysKeep(opt, s1, tss[n], order, OWN);
    }
  }

  lemma PlannedTurn(opt: Options, tss: seq<Time>, j: nat, alone: bool, n: nat, l: Loop) returns (t: Turn)
    requires j < |tss| && n < |tss| && Survives(opt, tss, j, |tss|, alone)
    requires alone && opt.maxFlows == 1 ==> Solitary(tss, j, |tss|)
    requires l.clock == Clocked(tss[..n]) && Planned(opt, tss, j, alone, n, n, l.table)
    ensures LegalTurn(opt, l, t) && t.p.ts == tss[n]
    ensures Planned(opt, tss, j, alone, n + 1, n + 1, Take(opt, l, t).table)
  {
    hide Planned, Observe, Tick, Survives, Solitary;
    var p, victim := PlannedObserve(opt, tss, j, alone, n, l.table);
    var s := Observe(opt, l.table, p, victim);
    var order := Enumeration(s.flows.Keys);
    assert Legal(opt, s, Sweep(tss[n], order));
    t := Turn(p, victim, order);
    if TicksAt(tss, n) {
      PlannedTick(opt, tss, j, alone, n, s, order);
    } else {
      PlannedPause(opt, tss, j, alone, n, s);
    }
  }

  lemma PlannedPause(opt: Options, tss: seq<Time>, j: nat, alone: bool, n: nat, s: State)
    requires j < |tss| && n < |tss| && Planned(opt, tss, j, alone, n + 1, n, s) && !TicksAt(tss, n)
    ensures Planned(opt, tss, j, alone, n + 1, n + 1, s)
  {
    hide TicksAt;
  }

  /** Turn by turn, as the plan says. */
  lemma {:induction false} PlannedRun(opt: Options, tss: seq<Time>, j: nat, alone: bool, n: nat) returns (ts: seq<Turn>)
    requires j < |tss| && n <= |tss| && Survives(opt, tss, j, |tss|, alone)
    requires alone && opt.maxFlows == 1 ==> Solitary(tss, j, |tss|)
    ensures |ts| == n && LegalLoop(opt, ts) && Stamps(ts) == tss[..n]
    ensures Planned(opt, tss, j, alone, n, n, LoopRun(opt, ts).table)
    decreases n
  {
    hide Planned, Survives, Solitary, Take, LegalTurn, Clocked;
    if n == 0 {
      ts := [];
      PlannedStart(opt, tss, j, alone);
    } else {
      var init := PlannedRun(opt, tss, j, alone, n - 1);
      ClockOfLoop(opt, init);
      var t := PlannedTurn(opt, tss, j, alone, n - 1, LoopRun(opt, init));
      ts := init + [t];
      assert ts[..n - 1] == init;
      assert tss[..n] == tss[..n - 1] + [tss[n - 1]];
    }
  }

  lemma PlannedStart(opt: Options, tss: seq<Time>, j: nat, alone: bool)
    requires j < |tss|
    ensures Planned(opt, tss, j, alone, 0, 0, EMPTY)
  {}

  /** Every stream that strands has a run that ends with an overdue flow. */
  lemma StrandedRun(opt: Options, tss: seq<Time>) returns (ts: seq<Turn>)
    requires Strands(opt, tss)
    ensures LegalLoop(opt, ts) && Stamps(ts) == tss && ts != []
    ensures !Fresh(opt, LoopRun(opt, ts).table, ts[|ts| - 1].p.ts, TICK_INTERVAL)
  {
    hide Survives, Solitary, LoopRun, LegalLoop;
    var j, alone :| 0 <= j < |tss| && StrandedAt(opt, tss, j, alone) &&
                    (alone && opt.maxFlows == 1 ==> Solitary(tss, j, |tss|));
    ts := PlannedRun(opt, tss, j, alone, |tss|);
    assert tss[..|tss|] == tss;
    assert ts[|ts| - 1].p.ts == Stamps(ts)[|ts| - 1];
    assert OWN in LoopRun(opt, ts).table.flows;
  }

  /** Exactly these streams of timestamps, in any order and with or without zeros, let a flow outlive a timer by a
      second, whatever the packets are. */
  lemma StrandsIff(opt: Options, tss: seq<Time>)
    ensures (exists ts: seq<Turn> :: LegalLoop(opt, ts) && Stamps(ts) == tss && ts != [] &&
                          !Fresh(opt, LoopRun(opt, ts).table, ts[|ts| - 1].p.ts, TICK_INTERVAL))
            <==> Strands(opt, tss)
  {
    hide Strands, Fresh, LegalLoop, LoopRun, Stamps;
    if Strands(opt, tss) {
      var ts := StrandedRun(opt, tss);
    } else {
      forall ts: seq<Turn> | LegalLoop(opt, ts) && Stamps(ts) == tss && ts != []
        ensures Fresh(opt, LoopRun(opt, ts).table, ts[|ts| - 1].p.ts, TICK_INTERVAL)
      {
        if !Fresh(opt, LoopRun(opt, ts).table, ts[|ts| - 1].p.ts, TICK_INTERVAL) {
          OverdueStrands(opt, ts);
        }
      }
    }
  }
}
