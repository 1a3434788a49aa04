/** What a record says, in terms of the packets that made it. The table keeps running sums and no
    packets; here every live flow and every emitted record is shown to be the batch summary of a
    list of packets, and the laws its statistics obey follow from the list. */
module FlowBatch {
  import opened Common
  import opened Flow
  import opened FlowSpec
  import opened FlowLedger
  import opened FlowLife

  // ---- the packets of a flow ----

  /** Packet lists by flow ID: each packet that is not absorbed is appended to exactly one list. */
  ghost function Trace(opt: Options, evs: seq<Event>): map<nat, seq<Packet>>
    requires LegalRun(opt, evs)
  {
    if evs == [] then map[]
    else TraceStep(Run(opt, evs[..|evs| - 1]), Trace(opt, evs[..|evs| - 1]), evs[|evs| - 1])
  }

  function TraceStep(s: State, t: map<nat, seq<Packet>>, ev: Event): map<nat, seq<Packet>> {
    if !ev.Arrive? || Absorbed(s, ev.p) then t
    else
      var k := KeyOf(ev.p).0;
      if k !in s.flows then t[s.nextID + 1 := [ev.p]]
      else
        var id := s.flows[k].rec.id;
        if id in t then t[id := t[id] + [ev.p]] else t
  }

  /** A fresh entry fed a list of packets. */
  function Replay(opt: Options, id: nat, ps: seq<Packet>): Entry
    requires ps != []
  {
    var p := ps[|ps| - 1];
    if |ps| == 1 then Account(NewEntry(opt, id, KeyOf(p).0, p), p)
    else Account(Replay(opt, id, ps[..|ps| - 1]), p)
  }

  /** Equal but for the fields that sweeps and emission set. */
  predicate SameFlow(r: Record, r': Record) {
    r.(snapshotIndex := 0, reason := Live) == r'.(snapshotIndex := 0, reason := Live)
  }

  predicate SameEntry(e: Entry, e': Entry) {
    SameFlow(e.rec, e'.rec) && e.(rec := e'.rec, nextSnapshotAt := 0) == e'.(nextSnapshotAt := 0)
  }

  predicate OfKey(ps: seq<Packet>, k: Key) {
    ps != [] && forall i :: 0 <= i < |ps| ==> KeyOf(ps[i]).0 == k
  }

  ghost predicate TracedFlow(opt: Options, e: Entry, t: map<nat, seq<Packet>>) {
    && e.rec.id in t && OfKey(t[e.rec.id], e.rec.key)
    && SameEntry(e, Replay(opt, e.rec.id, t[e.rec.id]))
  }

  /** r summarises the first n packets of its flow; all of them if it is terminal. */
  ghost predicate TracedRecord(opt: Options, r: Record, t: map<nat, seq<Packet>>, n: nat) {
    && r.id in t && OfKey(t[r.id], r.key) && 1 <= n <= |t[r.id]|
    && SameFlow(r, Replay(opt, r.id, t[r.id][..n]).rec)
    && (r.Terminal() ==> n == |t[r.id]|)
  }

  ghost predicate Explained(opt: Options, r: Record, t: map<nat, seq<Packet>>) {
    exists n: nat :: TracedRecord(opt, r, t, n)
  }

  ghost predicate Traced(opt: Options, s: State, t: map<nat, seq<Packet>>) {
    && (forall id :: id in t ==> 1 <= id <= s.nextID)
    && (forall k :: k in s.flows ==> TracedFlow(opt, s.flows[k], t))
    && (forall i :: 0 <= i < |s.out| ==> Explained(opt, s.out[i], t))
    && (forall i :: 0 <= i < |s.out| && s.out[i].Terminal() ==> !LiveID(s, s.out[i].id))
  }

  lemma AccountSame(e: Entry, e': Entry, p: Packet)
    requires SameEntry(e, e')
    ensures SameEntry(Account(e, p), Account(e', p))
  {
    hide FoldSize, FoldGap, FoldDirection, FoldTCP, KeyOf;
  }

  lemma ReplaySnoc(opt: Options, id: nat, ps: seq<Packet>, p: Packet)
    requires ps != []
    ensures Replay(opt, id, ps + [p]) == Account(Replay(opt, id, ps), p)
  {
    hide Account;
    assert (ps + [p])[..|ps|] == ps;
  }

  /** What an entry that is traced amounts to is a traced record. */
  lemma EmitExplained(opt: Options, e: Entry, r: Record, t: map<nat, seq<Packet>>)
    requires TracedFlow(opt, e, t) && SameFlow(r, e.rec)
    ensures Explained(opt, r, t)
  {
    hide Replay;
    var ps := t[e.rec.id];
    assert ps[..|ps|] == ps;
    assert TracedRecord(opt, r, t, |ps|);
  }

  /** Emitting an entry that is traced yields a traced record; closing it ends the flow. */
  lemma EmitTraced(opt: Options, s: State, t: map<nat, seq<Packet>>, k: Key, reason: Reason, s': State)
    requires Traced(opt, s, t) && Identified(s) && k in s.flows
    requires reason != Snapshot ==> s' == Close(s, k, s.flows[k], reason)
    requires reason == Snapshot ==>
               && s'.flows.Keys == s.flows.Keys && s'.nextID == s.nextID
               && (forall j :: j in s.flows && j != k ==> s'.flows[j] == s.flows[j])
               && SameEntry(s'.flows[k], s.flows[k])
               && s'.out == s.out + [EmitAs(s'.flows[k].rec, Snapshot)]
    ensures Traced(opt, s', t)
  {
    hide Replay, Explained, TracedFlow;
    EmitExplained(opt, s.flows[k], s'.out[|s.out|], t);
    forall j | j in s'.flows ensures TracedFlow(opt, s'.flows[j], t) && s'.flows[j].rec.id == s.flows[j].rec.id {
      SameTraced(opt, s.flows[j], s'.flows[j], t);
    }
    forall i | 0 <= i < |s'.out| && s'.out[i].Terminal() ensures !LiveID(s', s'.out[i].id) {
      if i < |s.out| {
        assert s'.out[i] == s.out[i];
        assert !LiveID(s, s.out[i].id);
      }
    }
  }

  lemma SameTraced(opt: Options, e: Entry, e': Entry, t: map<nat, seq<Packet>>)
    requires TracedFlow(opt, e, t) && SameEntry(e', e)
    ensures TracedFlow(opt, e', t)
  {
    hide Replay;
  }

  lemma TickKeyTraced(opt: Options, s: State, t: map<nat, seq<Packet>>, now: Time, k: Key)
    requires Traced(opt, s, t) && Identified(s)
    ensures Traced(opt, TickKey(opt, s, now, k), t)
  {
    hide Traced, Identified;
    if k in s.flows {
      EmitTraced(opt, s, t, k, MaxLife, Close(s, k, s.flows[k], MaxLife));
      EmitTraced(opt, s, t, k, Idle, Close(s, k, s.flows[k], Idle));
      EmitTraced(opt, s, t, k, Snapshot, TakeSnapshot(opt, s, now, k));
    }
  }

  lemma {:induction false} TickKeysTraced(opt: Options, s: State, t: map<nat, seq<Packet>>, now: Time, order: seq<Key>)
    requires Traced(opt, s, t) && Lives(s) && Counted(s) && Bounded(opt, s)
    ensures Traced(opt, TickKeys(opt, s, now, order), t)
  {
    hide Traced, Identified, TickKey, Counted, Bounded;
    if order != [] {
      var s' := TickKeys(opt, s, now, order[..|order| - 1]);
      TickKeysTraced(opt, s, t, now, order[..|order| - 1]);
      TickKeysLive(opt, s, now, order[..|order| - 1]);
      TickKeyTraced(opt, s', t, now, order[|order| - 1]);
    }
  }

  lemma {:induction false} FlushTraced(opt: Options, s: State, t: map<nat, seq<Packet>>, order: seq<Key>)
    requires Traced(opt, s, t) && Lives(s) && Counted(s) && Bounded(opt, s)
    ensures Traced(opt, Flush(s, order), t)
  {
    hide Traced, Identified, Counted, Bounded;
    if order != [] {
      var s' := Flush(s, order[..|order| - 1]);
      var k := order[|order| - 1];
      FlushTraced(opt, s, t, order[..|order| - 1]);
      FlushLives(opt, s, order[..|order| - 1]);
      if k in s'.flows {
        EmitTraced(opt, s', t, k, CapEnd, Close(s', k, s'.flows[k], CapEnd));
      }
    }
  }

  /** A record of a flow that has not ended is not disturbed by one more packet. */
  lemma ExplainedGrows(opt: Options, r: Record, t: map<nat, seq<Packet>>, id: nat, p: Packet)
    requires Explained(opt, r, t) && id in t
    requires r.id == id ==> !r.Terminal() && OfKey(t[id] + [p], KeyOf(p).0)
    ensures Explained(opt, r, t[id := t[id] + [p]])
  {
    hide KeyOf, SameFlow;
    var n: nat :| TracedRecord(opt, r, t, n);
    if r.id == id {
      assert (t[id] + [p])[..n] == t[id][..n];
    }
    assert TracedRecord(opt, r, t[id := t[id] + [p]], n);
  }

  /** One more packet of a flow. */
  lemma GrowFlow(opt: Options, e: Entry, t: map<nat, seq<Packet>>, p: Packet)
    requires TracedFlow(opt, e, t) && KeyOf(p).0 == e.rec.key
    ensures TracedFlow(opt, Account(e, p), t[e.rec.id := t[e.rec.id] + [p]])
  {
    hide Account, KeyOf, SameEntry, Replay;
    AccountIdentity(e, p);
    AccountSame(e, Replay(opt, e.rec.id, t[e.rec.id]), p);
    ReplaySnoc(opt, e.rec.id, t[e.rec.id], p);
  }

  lemma GrowRecords(opt: Options, s: State, t: map<nat, seq<Packet>>, id: nat, p: Packet)
    requires Traced(opt, s, t) && LiveID(s, id) && id in t && OfKey(t[id] + [p], KeyOf(p).0)
    ensures forall i :: 0 <= i < |s.out| ==> Explained(opt, s.out[i], t[id := t[id] + [p]])
  {
    hide KeyOf, Explained, TracedFlow, LiveID;
    forall i | 0 <= i < |s.out| ensures Explained(opt, s.out[i], t[id := t[id] + [p]]) {
      ExplainedGrows(opt, s.out[i], t, id, p);
    }
  }

  /** A packet of flow k moves that flow's list and its entry together, and nothing else. */
  lemma GrowTraced(opt: Options, s: State, t: map<nat, seq<Packet>>, p: Packet)
    requires Traced(opt, s, t) && Identified(s) && KeyOf(p).0 in s.flows
    ensures var k := KeyOf(p).0;
            var id := s.flows[k].rec.id;
            id in t && Traced(opt, s.(flows := s.flows[k := Account(s.flows[k], p)]), t[id := t[id] + [p]])
  {
    hide Account, KeyOf, SameEntry, Replay, Explained;
    var k := KeyOf(p).0;
    var e := s.flows[k];
    assert TracedFlow(opt, e, t);
    var id := e.rec.id;
    var t' := t[id := t[id] + [p]];
    var s' := s.(flows := s.flows[k := Account(e, p)]);
    AccountIdentity(e, p);
    GrowFlow(opt, e, t, p);
    GrowRecords(opt, s, t, id, p);
    forall j | j in s'.flows && j != k ensures TracedFlow(opt, s'.flows[j], t') {
      assert TracedFlow(opt, s.flows[j], t);
    }
    forall i | 0 <= i < |s.out| && s.out[i].Terminal() ensures !LiveID(s', s.out[i].id) {
      SameIDsLive(s, s', s.out[i].id);
    }
  }

  lemma SameIDsLive(s: State, s': State, id: nat)
    requires s.flows.Keys == s'.flows.Keys
    requires forall k :: k in s.flows ==> s.flows[k].rec.id == s'.flows[k].rec.id
    ensures LiveID(s, id) <==> LiveID(s', id)
  {
    if j :| j in s.flows && s.flows[j].rec.id == id {
      assert s'.flows[j].rec.id == id;
    }
  }

  lemma DeliverTraced(opt: Options, s: State, t: map<nat, seq<Packet>>, p: Packet)
    requires Traced(opt, s, t) && Identified(s) && KeyOf(p).0 in s.flows
    ensures var k := KeyOf(p).0;
            var id := s.flows[k].rec.id;
            id in t && Traced(opt, Deliver(s, k, s.flows[k], p), t[id := t[id] + [p]])
  {
    hide Account, KeyOf, Traced, Identified;
    var k := KeyOf(p).0;
    GrowTraced(opt, s, t, p);
    var s1 := s.(flows := s.flows[k := Account(s.flows[k], p)]);
    var t' := t[s.flows[k].rec.id := t[s.flows[k].rec.id] + [p]];
    AccountIdentity(s.flows[k], p);
    IdentifiedUpdate(s, k, Account(s.flows[k], p));
    EmitTraced(opt, s1, t', k, FinRst, Close(s1, k, s1.flows[k], FinRst));
    var s2 := Close(s1, k, s1.flows[k], FinRst);
    assert s1.flows - {k} == s.flows - {k};
    TracedIgnoresGrace(opt, s2, t', s2.(recentDown := s2.recentDown[k := p.ts]));
  }

  lemma IdentifiedUpdate(s: State, k: Key, e: Entry)
    requires Identified(s) && k in s.flows && e.rec.id == s.flows[k].rec.id && e.rec.key == s.flows[k].rec.key
    ensures Identified(s.(flows := s.flows[k := e]))
  {}

  lemma TracedIgnoresGrace(opt: Options, s: State, t: map<nat, seq<Packet>>, s': State)
    requires Traced(opt, s, t) && s' == s.(recentDown := s'.recentDown, stats := s'.stats)
    ensures Traced(opt, s', t)
  {
    forall i | 0 <= i < |s.out| && s.out[i].Terminal() ensures !LiveID(s', s.out[i].id) {
      SameIDsLive(s, s', s.out[i].id);
    }
  }

  /** Eviction only: closing an old flow while the newcomer k is not yet in the table. */
  lemma EvictTraced(opt: Options, s: State, t: map<nat, seq<Packet>>, victim: Key)
    requires Traced(opt, s, t) && Identified(s) && victim in s.flows
    ensures Traced(opt, Evict(s, victim), t)
  {
    hide Traced, Identified;
    EmitTraced(opt, s, t, victim, Evicted, Close(s, victim, s.flows[victim], Evicted));
    TracedIgnoresGrace(opt, Close(s, victim, s.flows[victim], Evicted), t, Evict(s, victim));
  }

  /** The first packet of a flow: opening it and folding the packet in are one move of the trace. */
  lemma StartTraced(opt: Options, s: State, t: map<nat, seq<Packet>>, p: Packet)
    requires Traced(opt, s, t) && Identified(s) && KeyOf(p).0 !in s.flows
    ensures var k := KeyOf(p).0;
            var s1 := Insert(opt, s, p);
            Traced(opt, s1.(flows := s1.flows[k := Account(s1.flows[k], p)]), t[s.nextID + 1 := [p]])
  {
    hide Account, KeyOf, SameEntry, SameFlow, NewEnds;
    var k := KeyOf(p).0;
    var id := s.nextID + 1;
    var e := NewEntry(opt, id, k, p);
    var t' := t[id := [p]];
    var s1 := Insert(opt, s, p);
    var s2 := s1.(flows := s1.flows[k := Account(e, p)]);
    AccountIdentity(e, p);
    assert Replay(opt, id, [p]) == Account(e, p);
    SameItself(Account(e, p));
    assert TracedFlow(opt, s2.flows[k], t');
    forall j | j in s2.flows && j != k ensures TracedFlow(opt, s2.flows[j], t') {
      assert TracedFlow(opt, s.flows[j], t);
    }
    forall i | 0 <= i < |s.out| ensures Explained(opt, s.out[i], t') {
      assert Explained(opt, s.out[i], t);
      var n: nat :| TracedRecord(opt, s.out[i], t, n);
      assert TracedRecord(opt, s.out[i], t', n);
    }
    forall i | 0 <= i < |s.out| && s.out[i].Terminal() ensures !LiveID(s2, s.out[i].id) {
      assert Explained(opt, s.out[i], t);
      assert !LiveID(s, s.out[i].id);
      forall j | j in s2.flows ensures s2.flows[j].rec.id != s.out[i].id {
        if j != k {
          assert s.flows[j].rec.id == s2.flows[j].rec.id;
        }
      }
    }
  }

  lemma SameItself(e: Entry)
    ensures SameEntry(e, e)
  {}

  lemma OpenTraced(opt: Options, s: State, t: map<nat, seq<Packet>>, p: Packet, victim: Key)
    requires Traced(opt, s, t) && Lives(s) && Opens(s, p)
    requires Legal(opt, s, Arrive(p, victim)) && !SelfEvicts(opt, s, Arrive(p, victim))
    ensures Traced(opt, Observe(opt, s, p, victim), t[s.nextID + 1 := [p]])
  {
    hide Account, KeyOf, Traced, Identified, LifeOK, NewEntry, Absorbed;
    var k := KeyOf(p).0;
    var e := NewEntry(opt, s.nextID + 1, k, p);
    var t' := t[s.nextID + 1 := [p]];
    var s1 := Insert(opt, s, p);
    var s2 := s1.(flows := s1.flows[k := Account(e, p)]);
    StartTraced(opt, s, t, p);
    InsertLives(opt, s, p);
    AccountIdentity(e, p);
    IdentifiedUpdate(s1, k, Account(e, p));
    var s3 := s2;
    if Overflows(opt, s, p) {
      EvictTraced(opt, s2, t', victim);
      s3 := Evict(s2, victim);
      IdentifiedEvict(s2, victim);
      assert s3 == Evict(s1, victim).(flows := Evict(s1, victim).flows[k := Account(e, p)]);
    }
    assert Observe(opt, s, p, victim) == Deliver(Open(opt, s, p, victim), k, e, p);
    TearDownTraced(opt, Open(opt, s, p, victim), s3, t', k, e, p);
  }

  lemma IdentifiedEvict(s: State, victim: Key)
    requires Identified(s) && victim in s.flows
    ensures Identified(Evict(s, victim))
  {}

  /** s1 is s with p already folded into the entry of k; what remains of Deliver is the teardown. */
  lemma TearDownTraced(
    opt: Options, s: State, s1: State, t: map<nat, seq<Packet>>, k: Key, e: Entry, p: Packet)
    requires k in s.flows && s1 == s.(flows := s.flows[k := Account(e, p)])
    requires Traced(opt, s1, t) && Identified(s1)
    ensures Traced(opt, Deliver(s, k, e, p), t)
  {
    hide Account, Traced, Identified;
    EmitTraced(opt, s1, t, k, FinRst, Close(s1, k, s1.flows[k], FinRst));
    var s2 := Close(s1, k, s1.flows[k], FinRst);
    assert s1.flows - {k} == s.flows - {k};
    TracedIgnoresGrace(opt, s2, t, s2.(recentDown := s2.recentDown[k := p.ts]));
  }

  lemma StepTraced(opt: Options, s: State, t: map<nat, seq<Packet>>, ev: Event)
    requires Traced(opt, s, t) && Lives(s) && Counted(s) && Bounded(opt, s) && Legal(opt, s, ev)
    requires !SelfEvicts(opt, s, ev)
    ensures Traced(opt, Step(opt, s, ev), TraceStep(s, t, ev))
  {
    hide Traced, LifeOK, Identified, Counted, Bounded, Deliver, TickKeys, Flush, KeyOf, SelfEvicts;
    match ev {
      case Arrive(p, victim) =>
        if KeyOf(p).0 in s.flows {
          DeliverTraced(opt, s, t, p);
        } else if !Absorbed(s, p) {
          OpenTraced(opt, s, t, p, victim);
        }
      case Sweep(now, order) =>
        var s1 := s.(recentDown := Forget(s.recentDown, now));
        TracedIgnoresGrace(opt, s, t, s1);
        LivesIgnoresGrace(s, Forget(s.recentDown, now));
        assert Counted(s1) && Bounded(opt, s1) by { CountsIgnoreGrace(opt, s, s1.recentDown); }
        TickKeysTraced(opt, s1, t, now, order);
      case Drain(order) =>
        FlushTraced(opt, s, t, order);
    }
  }

  lemma CountsIgnoreGrace(opt: Options, s: State, down: map<Key, Time>)
    requires Counted(s) && Bounded(opt, s)
    ensures Counted(s.(recentDown := down)) && Bounded(opt, s.(recentDown := down))
  {}

  /** In every run in which no packet evicts its own flow, each live flow is the replay of its packets, and each
      record is the replay of a prefix of its flow's packets: all of them, if it is terminal. */
  lemma {:induction false} RecordsAreReplays(opt: Options, evs: seq<Event>)
    requires LegalRun(opt, evs) && SafeRun(opt, evs)
    ensures Traced(opt, Run(opt, evs), Trace(opt, evs))
  {
    if evs != [] {
      hide Traced, Step, Lives, Counted, Bounded, TraceStep, SelfEvicts;
      var init := evs[..|evs| - 1];
      RecordsAreReplays(opt, init);
      SafeIsTidy(opt, init);
      EveryFlowLivesOnce(opt, init);
      StepTraced(opt, Run(opt, init), Trace(opt, init), evs[|evs| - 1]);
    }
  }
}
