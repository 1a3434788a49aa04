/** The life of a flow as its consumers see it: snapshots numbered from one, then one terminal
    record; and the counters and the capacity bound of the table. */
module FlowLife {
  import opened Common
  import opened Flow
  import opened FlowSpec
  import opened FlowLedger

  /** The records emitted for one flow ID. */
  function LifeOf(out: seq<Record>, id: nat): seq<Record> {
    if out == [] then []
    else
      var r := out[|out| - 1];
      LifeOf(out[..|out| - 1], id) + if r.id == id then [r] else []
  }

  /** Only snapshots so far, numbered 1, 2, ..., n. */
  predicate Running(life: seq<Record>, n: nat) {
    && |life| == n
    && forall i :: 0 <= i < n ==> !life[i].Terminal() && life[i].snapshotIndex == i + 1
  }

  /** n snapshots numbered 1, 2, ..., n, then one terminal record that carries n. */
  predicate Ended(life: seq<Record>) {
    && life != []
    && var n := |life| - 1;
       Running(life[..n], n) && life[n].Terminal() && life[n].snapshotIndex == n
  }

  ghost predicate LiveID(s: State, id: nat) {
    exists k :: k in s.flows && s.flows[k].rec.id == id
  }

  /** Live flows have distinct IDs that have been handed out, and are stored under their own key. */
  ghost predicate Identified(s: State) {
    && (forall k :: k in s.flows ==> s.flows[k].rec.key == k && 1 <= s.flows[k].rec.id <= s.nextID)
    && (forall j, k :: j in s.flows && k in s.flows && s.flows[j].rec.id == s.flows[k].rec.id ==> j == k)
  }

  /** What the consumers have been told about flow ID `id`, at any moment. */
  ghost predicate LifeOK(s: State, id: nat) {
    var life := LifeOf(s.out, id);
    && (id == 0 || id > s.nextID ==> life == [])
    && (forall k :: k in s.flows && s.flows[k].rec.id == id ==> Running(life, s.flows[k].rec.snapshotIndex))
    && (1 <= id <= s.nextID && !LiveID(s, id) ==> Ended(life))
  }

  ghost predicate Lives(s: State) {
    Identified(s) && forall id: nat :: LifeOK(s, id)
  }

  ghost predicate Counted(s: State) {
    && s.stats.started == s.nextID
    && s.stats.started == s.stats.closed + |s.flows|
    && s.stats.evicted <= s.stats.closed
  }

  ghost predicate Bounded(opt: Options, s: State) {
    opt.maxFlows > 0 ==> |s.flows| <= opt.maxFlows
  }

  lemma LifeSnoc(out: seq<Record>, r: Record, id: nat)
    ensures LifeOf(out + [r], id) == if r.id == id then LifeOf(out, id) + [r] else LifeOf(out, id)
  {
    assert (out + [r])[..|out|] == out;
  }

  lemma RunningThenTerminal(life: seq<Record>, n: nat, r: Record)
    requires Running(life, n) && r.Terminal() && r.snapshotIndex == n
    ensures Ended(life + [r])
  {
    assert (life + [r])[..n] == life;
  }

  // ---- the three things that happen to an entry ----

  lemma CloseLives(s: State, k: Key, reason: Reason)
    requires Lives(s) && k in s.flows && reason != Snapshot
    ensures Lives(Close(s, k, s.flows[k], reason))
    ensures |Close(s, k, s.flows[k], reason).flows| == |s.flows| - 1
  {
    var s' := Close(s, k, s.flows[k], reason);
    assert s.flows == s'.flows[k := s.flows[k]];
    forall id: nat ensures LifeOK(s', id) {
      CloseLife(s, k, reason, id);
    }
  }

  lemma CloseLife(s: State, k: Key, reason: Reason, id: nat)
    requires Identified(s) && LifeOK(s, id) && k in s.flows && reason != Snapshot
    ensures LifeOK(Close(s, k, s.flows[k], reason), id)
  {
    hide Running, Ended, LifeOf;
    var e := s.flows[k];
    var r := EmitAs(e.rec, reason);
    LifeSnoc(s.out, r, id);
    if id == e.rec.id {
      RunningThenTerminal(LifeOf(s.out, id), e.rec.snapshotIndex, r);
    } else if j :| j in s.flows && s.flows[j].rec.id == id {
      assert j in Close(s, k, e, reason).flows;
    }
  }

  /** Replaces the entry under k by one with the same identity. */
  lemma UpdateLives(s: State, k: Key, e: Entry)
    requires Lives(s) && k in s.flows
    requires e.rec.key == k && e.rec.id == s.flows[k].rec.id
    requires e.rec.snapshotIndex == s.flows[k].rec.snapshotIndex
    ensures Lives(s.(flows := s.flows[k := e])) && |s.flows[k := e]| == |s.flows|
  {
    var s' := s.(flows := s.flows[k := e]);
    assert s'.flows.Keys == s.flows.Keys;
    assert Identified(s');
    forall id: nat ensures LifeOK(s', id) {
      SameIDs(s, s', id);
    }
  }

  lemma SameIDs(s: State, s': State, id: nat)
    requires s.flows.Keys == s'.flows.Keys && s.nextID == s'.nextID && s.out == s'.out && LifeOK(s, id)
    requires forall k :: k in s.flows ==>
                           s.flows[k].rec.id == s'.flows[k].rec.id &&
                           s.flows[k].rec.snapshotIndex == s'.flows[k].rec.snapshotIndex
    ensures LifeOK(s', id) && (LiveID(s, id) <==> LiveID(s', id))
  {
    hide Running, Ended, LifeOf;
    if j :| j in s.flows && s.flows[j].rec.id == id {
      assert s'.flows[j].rec.id == id;
    }
  }

  lemma SnapshotLives(opt: Options, s: State, now: Time, k: Key)
    requires Lives(s) && k in s.flows
    ensures Lives(TakeSnapshot(opt, s, now, k))
    ensures |TakeSnapshot(opt, s, now, k).flows| == |s.flows|
  {
    var s' := TakeSnapshot(opt, s, now, k);
    assert s'.flows.Keys == s.flows.Keys;
    forall id: nat ensures LifeOK(s', id) {
      SnapshotLife(opt, s, now, k, id);
    }
  }

  lemma SnapshotLife(opt: Options, s: State, now: Time, k: Key, id: nat)
    requires Identified(s) && LifeOK(s, id) && k in s.flows
    ensures LifeOK(TakeSnapshot(opt, s, now, k), id)
  {
    hide Ended, LifeOf;
    var s' := TakeSnapshot(opt, s, now, k);
    LifeSnoc(s.out, EmitAs(Snapped(opt, s.flows[k], now).rec, Snapshot), id);
    assert s'.flows[k].rec.id == s.flows[k].rec.id;
    if j :| j in s.flows && s.flows[j].rec.id == id {
      assert s'.flows[j].rec.id == id;
    }
  }

  lemma InsertLives(opt: Options, s: State, p: Packet)
    requires Lives(s) && KeyOf(p).0 !in s.flows
    ensures Lives(Insert(opt, s, p)) && |Insert(opt, s, p).flows| == |s.flows| + 1
  {
    hide KeyOf, NewEnds;
    var s' := Insert(opt, s, p);
    forall id: nat ensures LifeOK(s', id) {
      InsertLife(opt, s, p, id);
    }
  }

  lemma InsertLife(opt: Options, s: State, p: Packet, id: nat)
    requires Identified(s) && LifeOK(s, id) && KeyOf(p).0 !in s.flows
    ensures LifeOK(Insert(opt, s, p), id)
  {
    hide Ended, LifeOf, KeyOf, NewEnds;
    var s' := Insert(opt, s, p);
    assert s'.flows[KeyOf(p).0].rec.id == s.nextID + 1;
    if j :| j in s.flows && s.flows[j].rec.id == id {
      assert s'.flows[j].rec.id == id;
    }
  }

  // ---- one step ----

  lemma AccountIdentity(e: Entry, p: Packet)
    ensures var r := Account(e, p).rec;
            r.key == e.rec.key && r.id == e.rec.id && r.snapshotIndex == e.rec.snapshotIndex
  {
    hide FoldSize, FoldGap, FoldDirection, FoldTCP, KeyOf, IsForward;
  }

  lemma DeliverLives(opt: Options, s: State, p: Packet)
    requires Lives(s) && Counted(s) && Bounded(opt, s) && KeyOf(p).0 in s.flows
    ensures var s' := Deliver(s, KeyOf(p).0, s.flows[KeyOf(p).0], p);
            Lives(s') && Counted(s') && Bounded(opt, s')
  {
    hide Account, KeyOf, Lives;
    var k := KeyOf(p).0;
    var e' := Account(s.flows[k], p);
    AccountIdentity(s.flows[k], p);
    LivesKey(s, k);
    UpdateLives(s, k, e');
    var s1 := s.(flows := s.flows[k := e']);
    CloseLives(s1, k, FinRst);
    var s2 := Close(s1, k, e', FinRst);
    assert s2.flows == s.flows - {k};
    LivesIgnoresGrace(s2, s2.recentDown[k := p.ts]);
  }

  lemma LivesKey(s: State, k: Key)
    requires Lives(s) && k in s.flows
    ensures s.flows[k].rec.key == k
  {}

  lemma LivesIgnoresGrace(s: State, down: map<Key, Time>)
    requires Lives(s)
    ensures Lives(s.(recentDown := down))
  {
    forall id: nat ensures LifeOK(s.(recentDown := down), id) {
      SameIDs(s, s.(recentDown := down), id);
    }
  }

  lemma LivesIgnoresStats(s: State, st: Stats)
    requires Lives(s)
    ensures Lives(s.(stats := st))
  {
    forall id: nat ensures LifeOK(s.(stats := st), id) {
      SameIDs(s, s.(stats := st), id);
    }
  }

  lemma EvictLives(s: State, victim: Key)
    requires Lives(s) && victim in s.flows
    ensures var s' := Evict(s, victim);
            && Lives(s') && |s'.flows| == |s.flows| - 1 && s'.nextID == s.nextID
            && s'.stats == s.stats.(closed := s.stats.closed + 1, evicted := s.stats.evicted + 1)
  {
    hide Lives;
    CloseLives(s, victim, Evicted);
    LivesIgnoresStats(Close(s, victim, s.flows[victim], Evicted), Evict(s, victim).stats);
  }

  lemma VictimThere(opt: Options, s: State, p: Packet, victim: Key)
    requires Overflows(opt, s, p) && Legal(opt, s, Arrive(p, victim))
    ensures victim in Insert(opt, s, p).flows
  {
    hide KeyOf, NewEntry, Absorbed;
  }

  lemma OpenCounts(opt: Options, s: State, p: Packet, victim: Key)
    requires Lives(s) && Counted(s) && Bounded(opt, s) && Opens(s, p) && Legal(opt, s, Arrive(p, victim))
    ensures var s' := Open(opt, s, p, victim); Lives(s') && Counted(s') && Bounded(opt, s')
  {
    hide Lives, KeyOf, NewEntry, Absorbed, IsOldest, Evict;
    InsertLives(opt, s, p);
    if Overflows(opt, s, p) {
      VictimThere(opt, s, p, victim);
      EvictLives(Insert(opt, s, p), victim);
    }
  }

  lemma Newcomer(opt: Options, s: State, p: Packet, victim: Key)
    requires Opens(s, p) && Legal(opt, s, Arrive(p, victim))
    ensures var k, s' := KeyOf(p).0, Open(opt, s, p, victim);
            if SelfEvicts(opt, s, Arrive(p, victim)) then k !in s'.flows
            else k in s'.flows && s'.flows[k] == NewEntry(opt, s.nextID + 1, k, p)
  {
    hide KeyOf, NewEntry, Absorbed, IsOldest;
    if Overflows(opt, s, p) {
      VictimThere(opt, s, p, victim);
    }
  }

  lemma OpenLives(opt: Options, s: State, p: Packet, victim: Key)
    requires Lives(s) && Counted(s) && Bounded(opt, s) && Opens(s, p) && Legal(opt, s, Arrive(p, victim))
    ensures var s' := Open(opt, s, p, victim);
            Lives(s') && Counted(s') && Bounded(opt, s') &&
            if SelfEvicts(opt, s, Arrive(p, victim)) then KeyOf(p).0 !in s'.flows
            else KeyOf(p).0 in s'.flows && s'.flows[KeyOf(p).0] == NewEntry(opt, s.nextID + 1, KeyOf(p).0, p)
  {
    hide Lives, Counted, Bounded, KeyOf, NewEntry, SelfEvicts, Open, Opens, Legal;
    OpenCounts(opt, s, p, victim);
    Newcomer(opt, s, p, victim);
  }

  /** An evicted newcomer that is no reset leaves nothing more to do. */
  lemma OrphanIgnored(opt: Options, s: State, id: nat, p: Packet)
    requires KeyOf(p).0 !in s.flows && !IsReset(p)
    ensures Deliver(s, KeyOf(p).0, NewEntry(opt, id, KeyOf(p).0, p), p) == s
  {
    hide Account, KeyOf, NewEnds;
    FirstPacketTearsDown(NewEntry(opt, id, KeyOf(p).0, p), p);
  }

  lemma TickKeyLives(opt: Options, s: State, now: Time, k: Key)
    requires Lives(s) && Counted(s) && Bounded(opt, s)
    ensures var s' := TickKey(opt, s, now, k); Lives(s') && Counted(s') && Bounded(opt, s')
  {
    hide Lives;
    if k in s.flows {
      CloseLives(s, k, MaxLife);
      CloseLives(s, k, Idle);
      SnapshotLives(opt, s, now, k);
    }
  }

  lemma {:induction false} TickKeysLive(opt: Options, s: State, now: Time, order: seq<Key>)
    requires Lives(s) && Counted(s) && Bounded(opt, s)
    ensures var s' := TickKeys(opt, s, now, order); Lives(s') && Counted(s') && Bounded(opt, s')
  {
    hide Lives, Counted, Bounded, TickKey;
    if order != [] {
      TickKeysLive(opt, s, now, order[..|order| - 1]);
      TickKeyLives(opt, TickKeys(opt, s, now, order[..|order| - 1]), now, order[|order| - 1]);
    }
  }

  lemma {:induction false} FlushLives(opt: Options, s: State, order: seq<Key>)
    requires Lives(s) && Counted(s) && Bounded(opt, s)
    ensures var s' := Flush(s, order); Lives(s') && Counted(s') && Bounded(opt, s')
  {
    hide Lives;
    if order != [] {
      var s' := Flush(s, order[..|order| - 1]);
      var k := order[|order| - 1];
      FlushLives(opt, s, order[..|order| - 1]);
      if k in s'.flows {
        CloseLives(s', k, CapEnd);
      }
    }
  }

  /** A reset that evicts its own flow. */
  predicate Doubles(opt: Options, s: State, ev: Event) {
    SelfEvicts(opt, s, ev) && IsReset(ev.p)
  }

  lemma StepLives(opt: Options, s: State, ev: Event)
    requires Lives(s) && Counted(s) && Bounded(opt, s) && Legal(opt, s, ev) && !Doubles(opt, s, ev)
    ensures var s' := Step(opt, s, ev); Lives(s') && Counted(s') && Bounded(opt, s')
  {
    hide Lives, Deliver, TickKeys, Flush, NewEntry, KeyOf;
    match ev {
      case Arrive(p, victim) =>
        if KeyOf(p).0 in s.flows {
          DeliverLives(opt, s, p);
        } else if !Absorbed(s, p) {
          OpenLives(opt, s, p, victim);
          if SelfEvicts(opt, s, ev) {
            OrphanIgnored(opt, Open(opt, s, p, victim), s.nextID + 1, p);
          } else {
            DeliverLives(opt, Open(opt, s, p, victim), p);
          }
        }
      case Sweep(now, order) =>
        LivesIgnoresGrace(s, Forget(s.recentDown, now));
        TickKeysLive(opt, s.(recentDown := Forget(s.recentDown, now)), now, order);
      case Drain(order) =>
        FlushLives(opt, s, order);
    }
  }

  // ---- every run ----

  /** No reset evicts its own flow. */
  ghost predicate TidyRun(opt: Options, evs: seq<Event>)
    requires LegalRun(opt, evs)
  {
    evs == [] ||
    (TidyRun(opt, evs[..|evs| - 1]) && !Doubles(opt, Run(opt, evs[..|evs| - 1]), evs[|evs| - 1]))
  }

  lemma {:induction false} SafeIsTidy(opt: Options, evs: seq<Event>)
    requires LegalRun(opt, evs) && SafeRun(opt, evs)
    ensures TidyRun(opt, evs)
  {
    hide Step, Legal, SelfEvicts;
    if evs != [] {
      SafeIsTidy(opt, evs[..|evs| - 1]);
    }
  }

  /** In every such run: started = closed + live, evicted <= closed, the capacity is respected, and each
      flow ID shows snapshots 1..n and then, once it is no longer live, one terminal record. */
  lemma {:induction false} EveryFlowLivesOnce(opt: Options, evs: seq<Event>)
    requires LegalRun(opt, evs) && TidyRun(opt, evs)
    ensures var s := Run(opt, evs); Lives(s) && Counted(s) && Bounded(opt, s)
  {
    if evs == [] {
    } else {
      hide Lives, Counted, Bounded, Step, Doubles;
      var init := evs[..|evs| - 1];
      EveryFlowLivesOnce(opt, init);
      StepLives(opt, Run(opt, init), evs[|evs| - 1]);
    }
  }

  /** After the final flush every flow that was ever started has then exactly one terminal record, its last. */
  lemma EveryFlowIsReported(opt: Options, evs: seq<Event>, id: nat)
    requires LegalRun(opt, evs) && TidyRun(opt, evs)
    requires evs != [] && evs[|evs| - 1].Drain?
    ensures var s := Run(opt, evs);
            s.stats.started == s.stats.closed &&
            if 1 <= id <= s.stats.started then Ended(LifeOf(s.out, id)) else LifeOf(s.out, id) == []
  {
    hide LifeOf, Ended, Flush;
    EveryFlowLivesOnce(opt, evs);
    var s0 := Run(opt, evs[..|evs| - 1]);
    FlushEmpties(s0, evs[|evs| - 1].order);
    assert Run(opt, evs).flows == map[];
    assert LifeOK(Run(opt, evs), id) && !LiveID(Run(opt, evs), id);
  }

  // ---- without the hypothesis ----

  lemma NewcomerTearsDown(opt: Options, id: nat, k: Key, p: Packet)
    requires IsReset(p)
    ensures TornDown(Account(NewEntry(opt, id, k, p), p), p)
  {
    hide Account, NewEnds;
    FirstPacketTearsDown(NewEntry(opt, id, k, p), p);
  }

  /** A reset that evicts its own flow: it is emitted as evicted, and once more as reset. */
  lemma ResetObserved(opt: Options, s: State, p: Packet) returns (r1: Record, r2: Record)
    requires Overflows(opt, s, p) && Legal(opt, s, Arrive(p, KeyOf(p).0))
    requires IsReset(p)
    ensures var s' := Observe(opt, s, p, KeyOf(p).0);
            && s'.out == s.out + [r1] + [r2] && s'.flows == s.flows
            && s'.stats.started == s.stats.started + 1 && s'.stats.closed == s.stats.closed + 2
    ensures r1.id == r2.id == s.nextID + 1 && r1.Terminal() && r2.Terminal()
  {
    hide Account, KeyOf, NewEntry, TornDown;
    var k := KeyOf(p).0;
    var e := NewEntry(opt, s.nextID + 1, k, p);
    assert Evict(Insert(opt, s, p), k).flows == s.flows;
    NewcomerTearsDown(opt, s.nextID + 1, k, p);
    AccountIdentity(e, p);
    r1, r2 := EmitAs(e.rec, Evicted), EmitAs(Account(e, p).rec, FinRst);
    assert s.flows - {k} == s.flows;
  }

  /** So it has two terminal records under one ID, and one start is closed twice. */
  lemma ResetReportedTwice(opt: Options, s: State, p: Packet)
    requires Lives(s) && Counted(s) && Overflows(opt, s, p) && Legal(opt, s, Arrive(p, KeyOf(p).0))
    requires IsReset(p)
    ensures var s' := Observe(opt, s, p, KeyOf(p).0);
            && s'.stats.started == s'.stats.closed + |s'.flows| - 1
            && var life := LifeOf(s'.out, s.nextID + 1);
               |life| == 2 && life[0].Terminal() && life[1].Terminal()
  {
    hide Observe, KeyOf, Overflows, LifeOf;
    var r1, r2 := ResetObserved(opt, s, p);
    assert LifeOK(s, s.nextID + 1);
    LifeSnoc(s.out, r1, s.nextID + 1);
    LifeSnoc(s.out + [r1], r2, s.nextID + 1);
  }

  /** Starts and closings stay balanced in every map iteration order exactly when the table spares
      the newcomer or the packet is no reset. */
  lemma BalancedIff(opt: Options, s: State, p: Packet)
    requires Lives(s) && Counted(s) && Bounded(opt, s)
    ensures (forall v :: Legal(opt, s, Arrive(p, v)) ==> Counted(Observe(opt, s, p, v)))
            <==> Spares(opt, s, p) || !IsReset(p)
  {
    hide Lives, Counted, Bounded, Observe, KeyOf, Spares;
    if Spares(opt, s, p) || !IsReset(p) {
      forall v | Legal(opt, s, Arrive(p, v)) ensures Counted(Observe(opt, s, p, v)) {
        if Spares(opt, s, p) {
          SparedNotSelfEvicted(opt, s, Arrive(p, v));
        }
        StepLives(opt, s, Arrive(p, v));
      }
    } else {
      NotSpared(opt, s, p);
      ResetReportedTwice(opt, s, p);
      Unbalanced(Observe(opt, s, p, KeyOf(p).0));
    }
  }

  lemma NotSpared(opt: Options, s: State, p: Packet)
    requires !Spares(opt, s, p)
    ensures Overflows(opt, s, p) && Legal(opt, s, Arrive(p, KeyOf(p).0)) && SelfEvicts(opt, s, Arrive(p, KeyOf(p).0))
  {
    hide KeyOf, NewEnds;
    SparesIffNewcomerSafe(opt, s, p);
  }

  lemma Unbalanced(s: State)
    requires s.stats.started == s.stats.closed + |s.flows| - 1
    ensures !Counted(s)
  {}

  const TIGHT := Options(0, 0, 0, 1)

  function Datagram(ts: Time, srcPort: nat): Packet {
    Packet(ts, 1, 2, PROTO_UDP, srcPort, 53, Flags(false, false, false, false, false, false), 0, 80, 52, "")
  }

  function Reset(ts: Time, srcPort: nat): Packet {
    Packet(ts, 1, 2, PROTO_TCP, srcPort, 53, Flags(false, false, true, false, false, false), 0, 60, 0, "")
  }

  /** The flaw is reachable: a capacity-one table and two packets out of order. The late one evicts
      its own flow; as a datagram it is counted nowhere, as a reset it is reported twice. */
  lemma OutOfOrderWitness(late: Packet)
    requires late == Datagram(5, 7001) || late == Reset(5, 7001)
    ensures var evs := [Arrive(Datagram(10, 7000), KeyOf(late).0), Arrive(late, KeyOf(late).0)];
            && LegalRun(TIGHT, evs)
            && var s := Run(TIGHT, evs);
               && (late.proto == PROTO_UDP ==>
                     Accounted(Packets, s) + AbsorbedIn(Packets, TIGHT, evs) < Observed(Packets, evs))
               && (late.proto == PROTO_TCP ==> !Counted(s) && |LifeOf(s.out, 2)| == 2 && LifeOf(s.out, 2)[0].Terminal())
  {
    hide Step, Legal, Lives, Counted, Accounted, LifeOf, KeyOfEndpoints;
    var a, b := Arrive(Datagram(10, 7000), KeyOf(late).0), Arrive(late, KeyOf(late).0);
    FirstFlow(a.victim);
    RunSnoc(TIGHT, [], a);
    var s1 := Run(TIGHT, [] + [a]);
    assert [] + [a] == [a];
    LateFlow(s1, late);
    RunSnoc(TIGHT, [a], b);
    assert [a] + [b] == [a, b];
    if late.proto == PROTO_TCP {
      ResetReportedTwice(TIGHT, s1, late);
      assert Run(TIGHT, [a, b]) == Observe(TIGHT, s1, late, b.victim) by { ArriveStep(TIGHT, s1, late, b.victim); }
      Unbalanced(Run(TIGHT, [a, b]));
    } else {
      ArrivalAccounts(Packets, TIGHT, s1, late, b.victim);
      ArriveStep(TIGHT, s1, late, b.victim);
      NoneAbsorbed(a, b);
    }
  }

  lemma NoneAbsorbed(a: Event, b: Event)
    requires LegalRun(TIGHT, [a]) && LegalRun(TIGHT, [a, b]) && a.Arrive? && b.Arrive?
    requires !Absorbed(EMPTY, a.p) && !Absorbed(Run(TIGHT, [a]), b.p)
    ensures AbsorbedIn(Packets, TIGHT, [a, b]) == 0 && Observed(Packets, [a, b]) == 2
  {
    hide Step, Legal, Absorbed;
    assert [a, b][..|[a, b]| - 1] == [a] && [a][..|[a]| - 1] == [];
    assert Observed(Packets, [a]) == 1;
    assert AbsorbedIn(Packets, TIGHT, []) == 0;
    assert AbsorbedIn(Packets, TIGHT, [a]) == 0;
  }

  lemma ArriveStep(opt: Options, s: State, p: Packet, victim: Key)
    requires Legal(opt, s, Arrive(p, victim))
    ensures Step(opt, s, Arrive(p, victim)) == Observe(opt, s, p, victim)
  {}

  lemma FirstFlow(victim: Key)
    ensures Legal(TIGHT, EMPTY, Arrive(Datagram(10, 7000), victim))
    ensures var s := Step(TIGHT, EMPTY, Arrive(Datagram(10, 7000), victim));
            && Lives(s) && Counted(s) && s.nextID == 1 && s.recentDown == map[]
            && s.flows.Keys == {KeyOf(Datagram(10, 7000)).0} && Accounted(Packets, s) == 1
            && s.flows[KeyOf(Datagram(10, 7000)).0].rec.lastSeen == 10
  {
    hide KeyOf, KeyOfEndpoints, Lives, Counted, Account, Accounted;
    var p := Datagram(10, 7000);
    assert Lives(EMPTY) && Counted(EMPTY) && Accounted(Packets, EMPTY) == 0 by { EmptyLives(); }
    ArriveStep(TIGHT, EMPTY, p, victim);
    StepLives(TIGHT, EMPTY, Arrive(p, victim));
    ArrivalAccounts(Packets, TIGHT, EMPTY, p, victim);
    AccountLastSeen(NewEntry(TIGHT, 1, KeyOf(p).0, p), p);
  }

  lemma EmptyLives()
    ensures Lives(EMPTY) && Counted(EMPTY) && Accounted(Packets, EMPTY) == 0
  {}

  lemma AccountLastSeen(e: Entry, p: Packet)
    ensures Account(e, p).rec.lastSeen == if p.ts > e.rec.lastSeen then p.ts else e.rec.lastSeen
  {
    hide FoldSize, FoldGap, FoldDirection, FoldTCP, KeyOf, IsForward;
  }

  lemma LateFlow(s: State, late: Packet)
    requires late == Datagram(5, 7001) || late == Reset(5, 7001)
    requires s.recentDown == map[] && s.flows.Keys == {KeyOf(Datagram(10, 7000)).0}
    requires s.flows[KeyOf(Datagram(10, 7000)).0].rec.lastSeen == 10
    ensures Overflows(TIGHT, s, late) && Legal(TIGHT, s, Arrive(late, KeyOf(late).0)) && !Absorbed(s, late)
  {
    assert |s.flows| == |s.flows.Keys| == 1;
    assert KeyOf(late).0 != KeyOf(Datagram(10, 7000)).0;
    assert Insert(TIGHT, s, late).flows[KeyOf(late).0].rec.lastSeen == 5;
  }
}
