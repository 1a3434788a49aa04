/** When TCP ends a flow, in terms of the flow's packets. */
module FlowTeardown {
  import opened Common
  import opened Flow
  import opened FlowSpec
  import opened FlowLife
  import opened FlowLedger
  import opened FlowBatch
  import opened FlowEmission
  import opened FlowSummary
  import opened FlowOrigins

  // ---- the packets that end a flow ----

  predicate Resets(p: Packet) { p.proto == PROTO_TCP && p.flags.rst }

  /** The i-th packet closes the half of the connection that goes forward, or the other one. */
  predicate Finishes(ps: seq<Packet>, i: nat, forward: bool) {
    i < |ps| && ps[i].proto == PROTO_TCP && ps[i].flags.fin && FromStarter(ps[0], ps[i]) == forward
  }

  /** A reset, or a FIN each way. */
  ghost predicate Down(ps: seq<Packet>) {
    || (exists i :: 0 <= i < |ps| && Resets(ps[i]))
    || ((exists i :: 0 <= i < |ps| && Finishes(ps, i, true)) && (exists i :: 0 <= i < |ps| && Finishes(ps, i, false)))
  }

  lemma {:induction false} CountPositive(ps: seq<Packet>, t: Trait)
    ensures Count(ps, t) > 0 <==> exists i :: 0 <= i < |ps| && Has(ps[i], t)
  {
    if ps != [] {
      var init := ps[..|ps| - 1];
      CountPositive(init, t);
      assert forall i :: 0 <= i < |init| ==> init[i] == ps[i];
      if Count(init, t) > 0 {
        var i :| 0 <= i < |init| && Has(init[i], t);
        assert Has(ps[i], t);
      }
    }
  }

  /** Some packet of that direction has the trait. */
  ghost predicate AnyGoing(ends: Ends, ps: seq<Packet>, t: Trait, forward: bool) {
    exists i :: 0 <= i < |ps| && Has(ps[i], t) && FromInitiator(ends, ps[i]) == forward
  }

  lemma AnySnoc(ends: Ends, ps: seq<Packet>, p: Packet, t: Trait, forward: bool)
    ensures AnyGoing(ends, ps + [p], t, forward) <==>
            AnyGoing(ends, ps, t, forward) || (Has(p, t) && FromInitiator(ends, p) == forward)
  {
    hide Has, FromInitiator;
    var qs := ps + [p];
    assert qs[|ps|] == p && forall i :: 0 <= i < |ps| ==> qs[i] == ps[i];
  }

  lemma {:induction false} GoingPositive(ends: Ends, ps: seq<Packet>, t: Trait, forward: bool)
    ensures Count(Going(ends, ps, forward), t) > 0 <==> AnyGoing(ends, ps, t, forward)
  {
    if ps != [] {
      hide Has, FromInitiator, AnyGoing, Count, Going;
      var init, p := ps[..|ps| - 1], ps[|ps| - 1];
      GoingPositive(ends, init, t, forward);
      assert init + [p] == ps;
      GoingSnoc(ends, init, p, forward);
      CountSnoc(Going(ends, init, forward), p, t);
      AnySnoc(ends, init, p, t, forward);
    }
  }

  /** The flags of an entry after a teardown. */
  predicate Torn(e: Entry) { e.rst || (e.finFromInit && e.finFromResp) }

  lemma FinishedIff(ends: Ends, ps: seq<Packet>, forward: bool)
    requires ps != [] && ends == NewEnds(ps[0])
    ensures Count(Going(ends, ps, forward), Fin) > 0 <==> exists i :: 0 <= i < |ps| && Finishes(ps, i, forward)
  {
    hide Count, Going;
    GoingPositive(ends, ps, Fin, forward);
    if i :| 0 <= i < |ps| && Has(ps[i], Fin) && FromInitiator(ends, ps[i]) == forward {
      assert Finishes(ps, i, forward);
    }
    if i :| 0 <= i < |ps| && Finishes(ps, i, forward) {
      assert Has(ps[i], Fin) && FromInitiator(ends, ps[i]) == forward;
    }
  }

  lemma ResetIff(ps: seq<Packet>)
    ensures Count(ps, Rst) > 0 <==> exists i :: 0 <= i < |ps| && Resets(ps[i])
  {
    hide Count;
    CountPositive(ps, Rst);
    if i :| 0 <= i < |ps| && Has(ps[i], Rst) {
      assert Resets(ps[i]);
    }
    if i :| 0 <= i < |ps| && Resets(ps[i]) {
      assert Has(ps[i], Rst);
    }
  }

  lemma TornIff(e: Entry, ps: seq<Packet>)
    requires ps != [] && Summarises(e, ps)
    ensures Torn(e) <==> Down(ps)
  {
    hide SummarisesSizes, SummarisesGaps, TcpOf, DirectionOf, Count, Going, KeyOf, GapsOf, Latest, LastTS, Finishes,
         Resets, NewEnds;
    ResetIff(ps);
    FinishedIff(e.rec.ends, ps, true);
    FinishedIff(e.rec.ends, ps, false);
  }

  // ---- what a step emits, and why ----

  ghost predicate AllUp(s: State) { forall k :: k in s.flows ==> !Torn(s.flows[k]) }

  /** The entry that p goes to: the live one of its key, or a new one. */
  function EntryFor(opt: Options, s: State, p: Packet): Entry {
    var k := KeyOf(p).0;
    if k in s.flows then s.flows[k] else NewEntry(opt, s.nextID + 1, k, p)
  }

  /** r was emitted because of p: it is the flow of p with p accounted for, and that tore it down. */
  ghost predicate ByTeardown(opt: Options, s: State, ev: Event, r: Record) {
    ev.Arrive? && !Absorbed(s, ev.p) &&
    var e := EntryFor(opt, s, ev.p);
    !Torn(e) && Torn(Account(e, ev.p)) && r == EmitAs(Account(e, ev.p).rec, FinRst)
  }

  /** r was emitted for another reason: it is what a live flow amounted to, of another key than a packet that
      arrived. */
  ghost predicate ByTable(s: State, ev: Event, r: Record) {
    r.reason != FinRst &&
    exists k :: k in s.flows && SameFlow(r, s.flows[k].rec) && (ev.Arrive? ==> k != KeyOf(ev.p).0)
  }

  ghost predicate Why(opt: Options, s: State, ev: Event, r: Record) {
    r.Terminal() ==> ByTeardown(opt, s, ev, r) || ByTable(s, ev, r)
  }

  ghost predicate AllWhy(opt: Options, s: State, ev: Event, s': State) {
    s.out <= s'.out && forall i :: |s.out| <= i < |s'.out| ==> Why(opt, s, ev, s'.out[i])
  }

  lemma MarkTears(e: Entry, p: Packet)
    requires !Torn(e)
    ensures TornDown(Account(e, p), p) <==> Torn(Account(e, p))
  {
    hide FoldSize, FoldGap, FoldDirection, FoldTCP, KeyOf, IsForward;
  }

  /** An entry that is stored or new, with p accounted for. */
  lemma DeliverWhy(opt: Options, s: State, s1: State, p: Packet, victim: Key)
    requires AllUp(s) && AllUp(s1) && !Absorbed(s, p) && AllWhy(opt, s, Arrive(p, victim), s1)
    ensures var s' := Deliver(s1, KeyOf(p).0, EntryFor(opt, s, p), p);
            AllUp(s') && AllWhy(opt, s, Arrive(p, victim), s')
  {
    hide KeyOf, Account, Absorbed, NewEnds, ByTable;
    var e := EntryFor(opt, s, p);
    MarkTears(e, p);
  }

  lemma OpenWhy(opt: Options, s: State, p: Packet, victim: Key)
    requires AllUp(s) && Legal(opt, s, Arrive(p, victim)) && !SelfEvicts(opt, s, Arrive(p, victim)) && Opens(s, p)
    ensures var s' := Open(opt, s, p, victim);
            AllUp(s') && AllWhy(opt, s, Arrive(p, victim), s')
  {
    hide KeyOf, Absorbed, NewEnds, ByTeardown;
    var k := KeyOf(p).0;
    if Overflows(opt, s, p) && victim != k {
      var r := EmitAs(s.flows[victim].rec, Evicted);
      assert SameFlow(r, s.flows[victim].rec);
    }
  }

  lemma NothingWhy(opt: Options, s: State, ev: Event)
    ensures AllWhy(opt, s, ev, s)
  {}

  lemma ArrivalWhy(opt: Options, s: State, p: Packet, victim: Key)
    requires AllUp(s) && Legal(opt, s, Arrive(p, victim)) && !SelfEvicts(opt, s, Arrive(p, victim))
    ensures var s' := Observe(opt, s, p, victim);
            AllUp(s') && AllWhy(opt, s, Arrive(p, victim), s')
  {
    hide KeyOf, AllUp, AllWhy, Absorbed, Deliver, Open, NewEntry, SelfEvicts;
    NothingWhy(opt, s, Arrive(p, victim));
    if KeyOf(p).0 in s.flows {
      assert !Absorbed(s, p) by { LiveNotAbsorbed(s, p); }
      DeliverWhy(opt, s, s, p, victim);
    } else if !Absorbed(s, p) {
      OpenWhy(opt, s, p, victim);
      DeliverWhy(opt, s, Open(opt, s, p, victim), p, victim);
    }
  }

  lemma LiveNotAbsorbed(s: State, p: Packet)
    requires KeyOf(p).0 in s.flows
    ensures !Absorbed(s, p)
  {
    hide KeyOf;
  }

  /** Between two states of a sweep or a drain: flows are only closed, and reported. */
  ghost predicate Stays(s: State, s': State) {
    forall k :: k in s'.flows ==> k in s.flows && SameEntry(s'.flows[k], s.flows[k])
  }

  lemma StepWhy(opt: Options, s: State, ev: Event)
    requires AllUp(s) && Legal(opt, s, ev) && !SelfEvicts(opt, s, ev)
    ensures AllUp(Step(opt, s, ev)) && AllWhy(opt, s, ev, Step(opt, s, ev))
  {
    hide AllUp, AllWhy, Observe, TickKeys, Flush, Stays, SelfEvicts;
    match ev
    case Arrive(p, victim) => ArrivalWhy(opt, s, p, victim);
    case Sweep(now, order) =>
      var s1 := s.(recentDown := Forget(s.recentDown, now));
      TickKeysWhy(opt, s, s1, now, order, ev);
      StaysUp(s, TickKeys(opt, s1, now, order));
    case Drain(order) =>
      FlushWhy(opt, s, order, ev);
      StaysUp(s, Flush(s, order));
  }

  lemma StaysUp(s: State, s': State)
    requires AllUp(s) && Stays(s, s')
    ensures AllUp(s')
  {}

  lemma {:induction false} TickKeysWhy(opt: Options, s: State, s1: State, now: Time, order: seq<Key>, ev: Event)
    requires s1.flows == s.flows && s1.out == s.out && !ev.Arrive?
    ensures Stays(s, TickKeys(opt, s1, now, order)) && AllWhy(opt, s, ev, TickKeys(opt, s1, now, order))
  {
    if order != [] {
      hide TickKey, Stays, AllWhy;
      TickKeysWhy(opt, s, s1, now, order[..|order| - 1], ev);
      TickKeyWhy(opt, s, TickKeys(opt, s1, now, order[..|order| - 1]), now, order[|order| - 1], ev);
    }
  }

  lemma TickKeyWhy(opt: Options, s: State, s1: State, now: Time, k: Key, ev: Event)
    requires Stays(s, s1) && AllWhy(opt, s, ev, s1) && !ev.Arrive?
    ensures Stays(s, TickKey(opt, s1, now, k)) && AllWhy(opt, s, ev, TickKey(opt, s1, now, k))
  {
    hide ByTeardown;
    if k in s1.flows {
      CloseWhy(opt, s, s1, k, MaxLife, ev);
      CloseWhy(opt, s, s1, k, Idle, ev);
      var s' := TakeSnapshot(opt, s1, now, k);
      assert SameEntry(s'.flows[k], s1.flows[k]);
    }
  }

  lemma CloseWhy(opt: Options, s: State, s1: State, k: Key, reason: Reason, ev: Event)
    requires Stays(s, s1) && AllWhy(opt, s, ev, s1) && !ev.Arrive? && k in s1.flows && reason != FinRst
    ensures var s' := Close(s1, k, s1.flows[k], reason);
            Stays(s, s') && AllWhy(opt, s, ev, s')
  {
    hide ByTeardown;
    assert SameFlow(EmitAs(s1.flows[k].rec, reason), s.flows[k].rec);
    assert reason != FinRst ==> ByTable(s, ev, EmitAs(s1.flows[k].rec, reason));
  }

  lemma {:induction false} FlushWhy(opt: Options, s: State, order: seq<Key>, ev: Event)
    requires !ev.Arrive?
    ensures Stays(s, Flush(s, order)) && AllWhy(opt, s, ev, Flush(s, order))
  {
    hide Close, AllWhy;
    if order != [] {
      var s1, k := Flush(s, order[..|order| - 1]), order[|order| - 1];
      FlushWhy(opt, s, order[..|order| - 1], ev);
      if k in s1.flows {
        CloseWhy(opt, s, s1, k, CapEnd, ev);
      }
    } else {
      NothingWhy(opt, s, ev);
    }
  }

  lemma {:induction false} EveryFlowUp(opt: Options, evs: seq<Event>)
    requires LegalRun(opt, evs) && SafeRun(opt, evs)
    ensures AllUp(Run(opt, evs))
  {
    if evs != [] {
      hide AllUp, Step, SelfEvicts;
      EveryFlowUp(opt, evs[..|evs| - 1]);
      StepWhy(opt, Run(opt, evs[..|evs| - 1]), evs[|evs| - 1]);
    } else {
      assert AllUp(EMPTY);
    }
  }

  // ---- the packets of a record ----

  lemma DownGrows(ps: seq<Packet>, qs: seq<Packet>)
    requires ps <= qs && Down(ps)
    ensures Down(qs)
  {
    hide Resets;
    if i :| 0 <= i < |ps| && Resets(ps[i]) {
      assert Resets(qs[i]);
    } else {
      var i :| 0 <= i < |ps| && Finishes(ps, i, true);
      var j :| 0 <= j < |ps| && Finishes(ps, j, false);
      assert Finishes(qs, i, true) && Finishes(qs, j, false);
    }
  }

  /** Whether the packets ps of a flow say why it ended: the last of them tore it down, or none did. */
  ghost predicate Reasoned(reason: Reason, ps: seq<Packet>) {
    ps != [] && (reason == FinRst <==> Down(ps)) && !Down(ps[..|ps| - 1])
  }

  /** Of an entry that a list of packets has led to. */
  lemma TornAfter(opt: Options, e: Entry, ps: seq<Packet>)
    requires ps != [] && OfKey(ps, KeyOf(ps[0]).0) && SameEntry(e, Replay(opt, e.rec.id, ps))
    ensures Torn(e) <==> Down(ps)
  {
    hide KeyOf, Summarises, Down;
    ReplaySummarises(opt, e.rec.id, ps);
    TornIff(Replay(opt, e.rec.id, ps), ps);
  }

  lemma TornLater(opt: Options, e: Entry, ps: seq<Packet>, p: Packet)
    requires OfKey(ps, KeyOf(p).0) && SameEntry(e, Replay(opt, e.rec.id, ps))
    requires !Torn(e) && Torn(Account(e, p))
    ensures Reasoned(FinRst, ps + [p])
  {
    hide KeyOf, Account, Down;
    AccountSame(e, Replay(opt, e.rec.id, ps), p);
    ReplaySnoc(opt, e.rec.id, ps, p);
    AccountIdentity(e, p);
    TornAfter(opt, e, ps);
    assert (ps + [p])[..|ps|] == ps;
    TornAfter(opt, Account(e, p), ps + [p]);
  }

  lemma TornAtOnce(opt: Options, id: nat, p: Packet)
    requires Torn(Account(NewEntry(opt, id, KeyOf(p).0, p), p))
    ensures Reasoned(FinRst, [p])
  {
    hide KeyOf, Account, NewEntry;
    var e := Account(NewEntry(opt, id, KeyOf(p).0, p), p);
    AccountIdentity(NewEntry(opt, id, KeyOf(p).0, p), p);
    assert Replay(opt, id, [p]) == e;
    TornAfter(opt, e, [p]);
    assert [p][..0] == [];
  }

  lemma NotTorn(opt: Options, e: Entry, ps: seq<Packet>, reason: Reason)
    requires OfKey(ps, e.rec.key) && SameEntry(e, Replay(opt, e.rec.id, ps)) && !Torn(e) && reason != FinRst
    ensures Reasoned(reason, ps)
  {
    hide KeyOf, Down;
    TornAfter(opt, e, ps);
    if Down(ps[..|ps| - 1]) {
      DownGrows(ps[..|ps| - 1], ps);
    }
  }

  lemma TeardownReasoned(opt: Options, s: State, t: map<nat, seq<Packet>>, ev: Event, r: Record)
    requires Traced(opt, s, t) && Identified(s) && ByTeardown(opt, s, ev, r)
    ensures var t' := TraceStep(s, t, ev); r.id in t' && Reasoned(r.reason, t'[r.id])
  {
    hide KeyOf, Account, Absorbed, NewEntry, Reasoned, OfKey, SameEntry, Explained;
    var p, k := ev.p, KeyOf(ev.p).0;
    AccountIdentity(EntryFor(opt, s, p), p);
    if k in s.flows {
      assert TracedFlow(opt, s.flows[k], t);
      TornLater(opt, s.flows[k], t[r.id], p);
    } else {
      TornAtOnce(opt, s.nextID + 1, p);
    }
  }

  lemma TableReasoned(opt: Options, s: State, t: map<nat, seq<Packet>>, ev: Event, r: Record)
    requires Traced(opt, s, t) && Identified(s) && AllUp(s) && ByTable(s, ev, r)
    ensures var t' := TraceStep(s, t, ev); r.id in t' && Reasoned(r.reason, t'[r.id])
  {
    hide KeyOf, Reasoned, OfKey, SameEntry, Explained, Torn, TraceStep;
    var k :| k in s.flows && SameFlow(r, s.flows[k].rec) && (ev.Arrive? ==> k != KeyOf(ev.p).0);
    assert TracedFlow(opt, s.flows[k], t);
    OtherTrace(s, t, ev, k);
    NotTorn(opt, s.flows[k], t[r.id], r.reason);
  }

  lemma OtherTrace(s: State, t: map<nat, seq<Packet>>, ev: Event, k: Key)
    requires Identified(s) && k in s.flows && s.flows[k].rec.id in t && (ev.Arrive? ==> k != KeyOf(ev.p).0)
    ensures var id, t' := s.flows[k].rec.id, TraceStep(s, t, ev); id in t' && t'[id] == t[id]
  {
    hide KeyOf, Absorbed;
  }

  /** In every run in which no packet evicts its own flow: a flow is ended by TCP (reason FinRst) exactly when its
      packets hold a reset or a FIN each way, and then by the first packet that makes them do so. */
  lemma TeardownIff(opt: Options, evs: seq<Event>, i: nat)
    requires LegalRun(opt, evs) && SafeRun(opt, evs) && i < |Run(opt, evs).out| && Run(opt, evs).out[i].Terminal()
    ensures var r, t := Run(opt, evs).out[i], Trace(opt, evs);
            r.id in t && Reasoned(r.reason, t[r.id])
  {
    var r, m := Run(opt, evs).out[i], EmittedBy(opt, evs, i);
    hide Reasoned, LegalRun, Run, Trace, SafeRun;
    LastPacketsThere(opt, evs, i);
    StepReasoned(opt, evs[..m + 1], i);
  }

  /** When a terminal record is emitted, its flow has all its packets. */
  lemma LastPacketsThere(opt: Options, evs: seq<Event>, i: nat)
    requires LegalRun(opt, evs) && SafeRun(opt, evs) && i < |Run(opt, evs).out| && Run(opt, evs).out[i].Terminal()
    ensures var r, evs' := Run(opt, evs).out[i], evs[..EmittedBy(opt, evs, i) + 1];
            && LegalRun(opt, evs') && SafeRun(opt, evs') && LegalRun(opt, evs'[..|evs'| - 1])
            && |Run(opt, evs'[..|evs'| - 1]).out| <= i < |Run(opt, evs').out| && Run(opt, evs').out[i] == r
            && r.id in Trace(opt, evs') && r.id in Trace(opt, evs)
            && Trace(opt, evs')[r.id] == Trace(opt, evs)[r.id]
  {
    hide EmittedBy, LegalRun, Run, Trace, SafeRun, Measures, Lawful;
    var m := EmittedBy(opt, evs, i);
    var ps := EmittedRecordsLawful(opt, evs, i);
    EmittedThere(opt, evs, i);
    SafePrefix(opt, evs, m + 1);
    assert evs[..m + 1][..m] == evs[..m];
  }

  /** Of a record that the last step emitted. */
  lemma StepReasoned(opt: Options, evs: seq<Event>, i: nat)
    requires LegalRun(opt, evs) && evs != [] && SafeRun(opt, evs)
    requires |Run(opt, evs[..|evs| - 1]).out| <= i < |Run(opt, evs).out| && Run(opt, evs).out[i].Terminal()
    ensures var r, t := Run(opt, evs).out[i], Trace(opt, evs);
            r.id in t && Reasoned(r.reason, t[r.id])
  {
    var init, ev := evs[..|evs| - 1], evs[|evs| - 1];
    var s, t, r := Run(opt, init), Trace(opt, init), Run(opt, evs).out[i];
    assert Legal(opt, s, ev) && !SelfEvicts(opt, s, ev) && Run(opt, evs) == Step(opt, s, ev);
    assert Trace(opt, evs) == TraceStep(s, t, ev);
    RecordsAreReplays(opt, init);
    SafeIsTidy(opt, init);
    EveryFlowLivesOnce(opt, init);
    EveryFlowUp(opt, init);
    hide Reasoned, LegalRun, Run, Trace, SafeRun, TraceStep, Step, Traced, Identified, Legal, SelfEvicts, AllUp,
         ByTeardown, ByTable, LifeOK;
    StepWhy(opt, s, ev);
    assert Why(opt, s, ev, r);
    if ByTeardown(opt, s, ev, r) {
      assert r.reason == FinRst by { ReasonIs(opt, s, ev, r); }
      TeardownReasoned(opt, s, t, ev, r);
    } else {
      TableReasoned(opt, s, t, ev, r);
    }
  }

  lemma ReasonIs(opt: Options, s: State, ev: Event, r: Record)
    requires ByTeardown(opt, s, ev, r)
    ensures r.reason == FinRst
  {}

  /** And the packets of a flow that is still in the table do not: it is not kept beyond its teardown. */
  lemma LiveNotDown(opt: Options, evs: seq<Event>, k: Key)
    requires LegalRun(opt, evs) && SafeRun(opt, evs) && k in Run(opt, evs).flows
    ensures var e, t := Run(opt, evs).flows[k], Trace(opt, evs);
            e.rec.id in t && !Down(t[e.rec.id])
  {
    RecordsAreReplays(opt, evs);
    EveryFlowUp(opt, evs);
    hide Run, Trace, Down, Torn, SameEntry, Explained;
    var e, t := Run(opt, evs).flows[k], Trace(opt, evs);
    assert TracedFlow(opt, e, t);
    TornAfter(opt, e, t[e.rec.id]);
  }
}
