/** When a record is emitted, and what its flow had received by then. */
module FlowEmission {
  import opened Common
  import opened Flow
  import opened FlowSpec
  import opened FlowLedger
  import opened FlowBatch

  /** r says what some live flow of s amounts to. */
  ghost predicate Stems(s: State, r: Record) {
    exists k :: k in s.flows && SameFlow(r, s.flows[k].rec)
  }

  /** From s to s' the output grows, by terminal records and, if snapshots is set, by snapshots of flows of s. */
  ghost predicate Grows(s: State, s': State, snapshots: bool) {
    && s.out <= s'.out
    && forall i :: |s.out| <= i < |s'.out| ==> s'.out[i].Terminal() || (snapshots && Stems(s, s'.out[i]))
  }

  lemma CloseGrows(s: State, k: Key, e: Entry, reason: Reason)
    requires reason != Snapshot
    ensures Grows(s, Close(s, k, e, reason), false)
  {}

  lemma GrowsTwice(s: State, s1: State, s2: State)
    requires Grows(s, s1, false) && Grows(s1, s2, false)
    ensures Grows(s, s2, false)
  {}

  lemma DeliverGrows(s: State, k: Key, e: Entry, p: Packet)
    ensures Grows(s, Deliver(s, k, e, p), false)
  {
    hide Account, Close;
    CloseGrows(s, k, Account(e, p), FinRst);
  }

  lemma ArrivalGrows(opt: Options, s: State, p: Packet, victim: Key)
    requires Legal(opt, s, Arrive(p, victim))
    ensures Grows(s, Observe(opt, s, p, victim), false)
  {
    hide KeyOf, NewEntry, Deliver, Close, Absorbed, Grows;
    var k := KeyOf(p).0;
    if k in s.flows {
      DeliverGrows(s, k, s.flows[k], p);
    } else if !Absorbed(s, p) {
      var s1 := Open(opt, s, p, victim);
      assert Grows(s, s1, false) by { OpenGrows(opt, s, p, victim); }
      DeliverGrows(s1, k, NewEntry(opt, s.nextID + 1, k, p), p);
      GrowsTwice(s, s1, Deliver(s1, k, NewEntry(opt, s.nextID + 1, k, p), p));
    } else {
      assert Grows(s, s, false) by { NothingGrows(s); }
    }
  }

  lemma NothingGrows(s: State)
    ensures Grows(s, s, false) && Grows(s, s, true)
  {}

  lemma OpenGrows(opt: Options, s: State, p: Packet, victim: Key)
    requires Overflows(opt, s, p) ==> victim in Insert(opt, s, p).flows
    ensures Grows(s, Open(opt, s, p, victim), false)
  {
    hide KeyOf, NewEntry;
  }

  lemma {:induction false} FlushGrows(s: State, order: seq<Key>)
    ensures Grows(s, Flush(s, order), false)
  {
    hide Grows, Close;
    if order == [] {
      NothingGrows(s);
    } else {
      var s1, k := Flush(s, order[..|order| - 1]), order[|order| - 1];
      FlushGrows(s, order[..|order| - 1]);
      if k in s1.flows {
        CloseGrows(s1, k, s1.flows[k], CapEnd);
        GrowsTwice(s, s1, Close(s1, k, s1.flows[k], CapEnd));
      }
    }
  }

  /** A sweep does not touch what its flows amount to. */
  ghost predicate Keeps(s: State, s': State) {
    forall k :: k in s'.flows ==> k in s.flows && SameFlow(s'.flows[k].rec, s.flows[k].rec)
  }

  lemma TickKeyGrows(opt: Options, s: State, now: Time, k: Key)
    ensures Grows(s, TickKey(opt, s, now, k), true) && Keeps(s, TickKey(opt, s, now, k))
  {
    if k in s.flows {
      var e := Snapped(opt, s.flows[k], now);
      assert SameFlow(EmitAs(e.rec, Snapshot), s.flows[k].rec);
    }
  }

  lemma TickGrowsTwice(s: State, s1: State, s2: State)
    requires Grows(s, s1, true) && Keeps(s, s1) && Grows(s1, s2, true) && Keeps(s1, s2)
    ensures Grows(s, s2, true) && Keeps(s, s2)
  {
    forall i | |s.out| <= i < |s2.out| ensures s2.out[i].Terminal() || Stems(s, s2.out[i]) {
      if i < |s1.out| {
        assert s2.out[i] == s1.out[i];
      } else if !s2.out[i].Terminal() {
        var k :| k in s1.flows && SameFlow(s2.out[i], s1.flows[k].rec);
        assert SameFlow(s2.out[i], s.flows[k].rec);
      }
    }
  }

  lemma {:induction false} TickKeysGrow(opt: Options, s: State, now: Time, order: seq<Key>)
    ensures Grows(s, TickKeys(opt, s, now, order), true) && Keeps(s, TickKeys(opt, s, now, order))
  {
    if order == [] {
      NothingGrows(s);
    } else {
      hide Grows, Keeps, TickKey;
      var s1 := TickKeys(opt, s, now, order[..|order| - 1]);
      TickKeysGrow(opt, s, now, order[..|order| - 1]);
      TickKeyGrows(opt, s1, now, order[|order| - 1]);
      TickGrowsTwice(s, s1, TickKeys(opt, s, now, order));
    }
  }

  lemma StepGrows(opt: Options, s: State, ev: Event)
    requires Legal(opt, s, ev)
    ensures Grows(s, Step(opt, s, ev), ev.Sweep?)
  {
    hide Observe, TickKeys, Flush;
    match ev
    case Arrive(p, victim) => ArrivalGrows(opt, s, p, victim);
    case Sweep(now, order) => TickKeysGrow(opt, s.(recentDown := Forget(s.recentDown, now)), now, order);
    case Drain(order) => FlushGrows(s, order);
  }

  // ---- the step of a record ----

  /** The step that emitted the i-th record. */
  ghost function EmittedBy(opt: Options, evs: seq<Event>, i: nat): (m: nat)
    requires LegalRun(opt, evs) && i < |Run(opt, evs).out|
    ensures m < |evs|
  {
    if i < |Run(opt, evs[..|evs| - 1]).out| then EmittedBy(opt, evs[..|evs| - 1], i) else |evs| - 1
  }

  /** It is the one that put the record there. */
  lemma {:induction false} EmittedThere(opt: Options, evs: seq<Event>, i: nat)
    requires LegalRun(opt, evs) && i < |Run(opt, evs).out|
    ensures var m := EmittedBy(opt, evs, i);
            && LegalRun(opt, evs[..m]) && LegalRun(opt, evs[..m + 1])
            && |Run(opt, evs[..m]).out| <= i < |Run(opt, evs[..m + 1]).out|
            && Run(opt, evs[..m + 1]).out[i] == Run(opt, evs).out[i]
  {
    hide Step, Legal;
    var init := evs[..|evs| - 1];
    if i < |Run(opt, init).out| {
      EmittedThere(opt, init, i);
      var m := EmittedBy(opt, init, i);
      assert evs[..m] == init[..m] && evs[..m + 1] == init[..m + 1];
      StepGrows(opt, Run(opt, init), evs[|evs| - 1]);
    } else {
      assert evs[..|evs|] == evs;
    }
  }

  /** What a record says when its own step has just put it there. */
  lemma NewRecordFull(opt: Options, evs: seq<Event>, i: nat)
    requires LegalRun(opt, evs) && SafeRun(opt, evs) && evs != []
    requires |Run(opt, evs[..|evs| - 1]).out| <= i < |Run(opt, evs).out|
    ensures var r, t := Run(opt, evs).out[i], Trace(opt, evs);
            r.id in t && TracedRecord(opt, r, t, |t[r.id]|)
  {
    hide Step, Run, Legal, Replay, TracedFlow, TracedRecord;
    var init, ev := evs[..|evs| - 1], evs[|evs| - 1];
    var s, t := Run(opt, init), Trace(opt, evs);
    assert Run(opt, evs) == Step(opt, s, ev) && Legal(opt, s, ev) by { LastStep(opt, evs); }
    var r := Run(opt, evs).out[i];
    RecordsAreReplays(opt, evs);
    assert Explained(opt, r, t);
    var n: nat :| TracedRecord(opt, r, t, n);
    if r.Terminal() {
      TerminalIsFull(opt, r, t, n);
    } else {
      StepGrows(opt, s, ev);
      var k :| k in s.flows && SameFlow(r, s.flows[k].rec);
      RecordsAreReplays(opt, init);
      assert TracedFlow(opt, s.flows[k], Trace(opt, init));
      assert t == Trace(opt, init);
      SnapshotIsFull(opt, r, t, s.flows[k]);
    }
  }

  lemma LastStep(opt: Options, evs: seq<Event>)
    requires LegalRun(opt, evs) && evs != []
    ensures var s, ev := Run(opt, evs[..|evs| - 1]), evs[|evs| - 1];
            Legal(opt, s, ev) && Run(opt, evs) == Step(opt, s, ev)
  {
    hide Step, Legal;
  }

  lemma TerminalIsFull(opt: Options, r: Record, t: map<nat, seq<Packet>>, n: nat)
    requires TracedRecord(opt, r, t, n) && r.Terminal()
    ensures r.id in t && TracedRecord(opt, r, t, |t[r.id]|)
  {}

  lemma SnapshotIsFull(opt: Options, r: Record, t: map<nat, seq<Packet>>, e: Entry)
    requires SameFlow(r, e.rec) && TracedFlow(opt, e, t) && !r.Terminal()
    ensures r.id in t && TracedRecord(opt, r, t, |t[r.id]|)
  {
    hide Replay;
    var ps := t[r.id];
    assert ps[..|ps|] == ps;
  }

  // ---- every record ----

  lemma {:induction false} SafePrefix(opt: Options, evs: seq<Event>, m: nat)
    requires LegalRun(opt, evs) && SafeRun(opt, evs) && m <= |evs|
    ensures LegalRun(opt, evs[..m]) && SafeRun(opt, evs[..m])
    decreases |evs| - m
  {
    hide Step, Legal, SelfEvicts;
    if m < |evs| {
      SafePrefix(opt, evs, m + 1);
      assert evs[..m + 1][..m] == evs[..m];
    } else {
      assert evs[..m] == evs;
    }
  }

  /** Packet lists only grow. */
  lemma {:induction false} TraceGrows(opt: Options, evs: seq<Event>, m: nat, id: nat)
    requires LegalRun(opt, evs) && SafeRun(opt, evs) && m <= |evs| && LegalRun(opt, evs[..m])
    requires id in Trace(opt, evs[..m])
    ensures id in Trace(opt, evs) && Trace(opt, evs[..m])[id] <= Trace(opt, evs)[id]
    decreases |evs|
  {
    hide Step, Legal, SelfEvicts, Traced;
    if m < |evs| {
      var init := evs[..|evs| - 1];
      assert evs[..m] == init[..m];
      TraceGrows(opt, init, m, id);
      RecordsAreReplays(opt, init);
      TracedIDs(opt, Run(opt, init), Trace(opt, init));
    } else {
      assert evs[..m] == evs;
    }
  }

  lemma TracedIDs(opt: Options, s: State, t: map<nat, seq<Packet>>)
    requires Traced(opt, s, t)
    ensures forall id :: id in t ==> id <= s.nextID
  {}

  /** In every run in which no packet evicts its own flow, each record, snapshot or terminal, is the replay of exactly
      the packets its flow had received by the end of the step that emitted it. */
  lemma RecordAtEmission(opt: Options, evs: seq<Event>, i: nat)
    requires LegalRun(opt, evs) && SafeRun(opt, evs) && i < |Run(opt, evs).out|
    ensures var r, m := Run(opt, evs).out[i], EmittedBy(opt, evs, i);
            && LegalRun(opt, evs[..m + 1])
            && var t := Trace(opt, evs[..m + 1]);
               && r.id in t && TracedRecord(opt, r, t, |t[r.id]|)
               && r.id in Trace(opt, evs) && t[r.id] <= Trace(opt, evs)[r.id]
  {
    hide LegalRun, Run, Trace, TracedRecord, SafeRun, EmittedBy;
    var m := EmittedBy(opt, evs, i);
    EmittedThere(opt, evs, i);
    SafePrefix(opt, evs, m + 1);
    assert evs[..m + 1][..m] == evs[..m];
    NewRecordFull(opt, evs[..m + 1], i);
    TraceGrows(opt, evs, m + 1, Run(opt, evs).out[i].id);
  }
}
