/** Exactly which runs report every flow once, and which runs emit only records that are replays of packets. A flow
    table breaks either promise for good with the first packet that evicts its own flow: a reset the first one, any
    packet the second one. */
module FlowExact {
  import opened Flow
  import opened FlowSpec
  import opened FlowLedger
  import opened FlowLife
  import opened FlowBatch
  import opened FlowEmission

  // ---- one terminal record per flow ----

  /** Two terminal records carry one flow ID. */
  ghost predicate EndedTwice(out: seq<Record>) {
    exists i, j :: 0 <= i < j < |out| && out[i].id == out[j].id && out[i].Terminal() && out[j].Terminal()
  }

  lemma EndedTwiceStays(out: seq<Record>, out': seq<Record>)
    requires EndedTwice(out) && out <= out'
    ensures EndedTwice(out')
  {
    var i, j :| 0 <= i < j < |out| && out[i].id == out[j].id && out[i].Terminal() && out[j].Terminal();
    assert out'[i] == out[i] && out'[j] == out[j];
  }

  /** Where the i-th record stands in the life of its flow. */
  lemma {:induction false} InLife(out: seq<Record>, i: nat) returns (a: nat)
    requires i < |out|
    ensures var life := LifeOf(out, out[i].id);
            a < |life| && life[a] == out[i] && a == |LifeOf(out[..i], out[i].id)|
    decreases |out|
  {
    var init := out[..|out| - 1];
    if i < |init| {
      a := InLife(init, i);
      assert init[..i] == out[..i];
    } else {
      a := |LifeOf(init, out[i].id)|;
    }
  }

  lemma {:induction false} LifeGrows(out: seq<Record>, n: nat, id: nat)
    requires n <= |out|
    ensures LifeOf(out[..n], id) <= LifeOf(out, id)
    decreases |out|
  {
    if n < |out| {
      LifeGrows(out[..|out| - 1], n, id);
      assert out[..|out| - 1][..n] == out[..n];
    } else {
      assert out[..n] == out;
    }
  }

  lemma EndedTwiceNotLives(s: State)
    requires EndedTwice(s.out)
    ensures !Lives(s)
  {
    hide LifeOf;
    var i, j :| 0 <= i < j < |s.out| && s.out[i].id == s.out[j].id && s.out[i].Terminal() && s.out[j].Terminal();
    var id, out := s.out[i].id, s.out;
    var life := LifeOf(out, id);
    var a := InLife(out, i);
    var b := InLife(out, j);
    var c := InLife(out[..j], i);
    assert out[..j][..i] == out[..i];
    LifeGrows(out, j, id);
    assert a < b && life[a].Terminal() && life[b].Terminal();
    assert !Ended(life) && forall n :: !Running(life, n);
    assert !LifeOK(s, id);
  }

  /** A reset that evicts its own flow is reported twice, under one ID. */
  lemma DoublesEndTwice(opt: Options, s: State, ev: Event)
    requires Legal(opt, s, ev) && Doubles(opt, s, ev)
    ensures EndedTwice(Step(opt, s, ev).out)
  {
    hide Overflows, Observe, KeyOf;
    var r1, r2 := ResetObserved(opt, s, ev.p);
    var out := s.out + [r1] + [r2];
    assert out[|s.out|] == r1 && out[|s.out| + 1] == r2;
  }

  /** For one arrival, and the flow that the table happens to evict. */
  lemma LivesStepIff(opt: Options, s: State, ev: Event)
    requires Lives(s) && Counted(s) && Bounded(opt, s) && Legal(opt, s, ev)
    ensures Lives(Step(opt, s, ev)) <==> !Doubles(opt, s, ev)
  {
    hide Lives, Counted, Bounded, Step, Doubles, Legal;
    if Doubles(opt, s, ev) {
      DoublesEndTwice(opt, s, ev);
      EndedTwiceNotLives(Step(opt, s, ev));
    } else {
      StepLives(opt, s, ev);
    }
  }

  /** For one arrival, and every choice of the flow to evict. */
  lemma LivesIff(opt: Options, s: State, p: Packet)
    requires Lives(s) && Counted(s) && Bounded(opt, s)
    ensures (forall v :: Legal(opt, s, Arrive(p, v)) ==> Lives(Observe(opt, s, p, v)))
            <==> Spares(opt, s, p) || !IsReset(p)
  {
    hide Lives, Counted, Bounded, Observe, KeyOf, Spares, SelfEvicts;
    forall v | Legal(opt, s, Arrive(p, v))
      ensures Lives(Observe(opt, s, p, v)) <==> !Doubles(opt, s, Arrive(p, v))
      ensures Spares(opt, s, p) ==> !SelfEvicts(opt, s, Arrive(p, v))
    {
      LivesStepIff(opt, s, Arrive(p, v));
      if Spares(opt, s, p) {
        SparedNotSelfEvicted(opt, s, Arrive(p, v));
      }
    }
    if !Spares(opt, s, p) {
      NotSpared(opt, s, p);
    }
  }

  /** For whole runs: each flow ID shows snapshots and then one terminal record exactly as long as no reset has evicted
      its own flow. */
  lemma {:induction false} LivesRunIff(opt: Options, evs: seq<Event>)
    requires LegalRun(opt, evs)
    ensures Lives(Run(opt, evs)) <==> TidyRun(opt, evs)
    ensures !TidyRun(opt, evs) ==> EndedTwice(Run(opt, evs).out)
  {
    if TidyRun(opt, evs) {
      EveryFlowLivesOnce(opt, evs);
    } else {
      hide Lives, Step, Doubles, EndedTwice, Legal;
      var init, ev := evs[..|evs| - 1], evs[|evs| - 1];
      LivesRunIff(opt, init);
      if TidyRun(opt, init) {
        DoublesEndTwice(opt, Run(opt, init), ev);
      } else {
        StepGrows(opt, Run(opt, init), ev);
        EndedTwiceStays(Run(opt, init).out, Run(opt, evs).out);
      }
      EndedTwiceNotLives(Run(opt, evs));
    }
  }

  // ---- records are replays ----

  /** A record of no packets at all. */
  ghost predicate HasEmpty(out: seq<Record>) { exists i :: 0 <= i < |out| && out[i].Packets() == 0 }

  lemma HasEmptyStays(out: seq<Record>, out': seq<Record>)
    requires HasEmpty(out) && out <= out'
    ensures HasEmpty(out')
  {
    var i :| 0 <= i < |out| && out[i].Packets() == 0;
    assert out'[i] == out[i];
  }

  lemma ReplayCounts(opt: Options, id: nat, ps: seq<Packet>)
    requires ps != []
    ensures Replay(opt, id, ps).rec.Packets() > 0
  {
    hide Account;
    var p := ps[|ps| - 1];
    AccountAdds(Packets, if |ps| == 1 then NewEntry(opt, id, KeyOf(p).0, p) else Replay(opt, id, ps[..|ps| - 1]), p);
  }

  lemma HasEmptyNotTraced(opt: Options, s: State, t: map<nat, seq<Packet>>)
    requires HasEmpty(s.out)
    ensures !Traced(opt, s, t)
  {
    hide TracedFlow, Replay, LiveID;
    var i :| 0 <= i < |s.out| && s.out[i].Packets() == 0;
    var r := s.out[i];
    if Explained(opt, r, t) {
      var n: nat :| TracedRecord(opt, r, t, n);
      ReplayCounts(opt, r.id, t[r.id][..n]);
      assert false;
    }
  }

  /** A newcomer is evicted before its packet is folded in. */
  lemma SelfEvictionEmpty(opt: Options, s: State, ev: Event)
    requires Legal(opt, s, ev) && SelfEvicts(opt, s, ev)
    ensures HasEmpty(Step(opt, s, ev).out)
  {
    hide KeyOf, Account, NewEnds, Absorbed;
    var p, k := ev.p, KeyOf(ev.p).0;
    var e := NewEntry(opt, s.nextID + 1, k, p);
    var s1 := Open(opt, s, p, ev.victim);
    assert s1.out == s.out + [EmitAs(e.rec, Evicted)];
    assert s1.out[|s.out|].Packets() == 0;
    DeliverGrows(s1, k, e, p);
    HasEmptyStays(s1.out, Step(opt, s, ev).out);
  }

  /** For one arrival, and the flow that the table happens to evict. */
  lemma TracedStepIff(opt: Options, s: State, t: map<nat, seq<Packet>>, ev: Event)
    requires Traced(opt, s, t) && Lives(s) && Counted(s) && Bounded(opt, s) && Legal(opt, s, ev)
    ensures Traced(opt, Step(opt, s, ev), TraceStep(s, t, ev)) <==> !SelfEvicts(opt, s, ev)
  {
    hide Traced, Lives, Counted, Bounded, Step, SelfEvicts, Legal, TraceStep;
    if SelfEvicts(opt, s, ev) {
      SelfEvictionEmpty(opt, s, ev);
      HasEmptyNotTraced(opt, Step(opt, s, ev), TraceStep(s, t, ev));
    } else {
      StepTraced(opt, s, t, ev);
    }
  }

  /** For one arrival, and every choice of the flow to evict. */
  lemma TracedIff(opt: Options, s: State, t: map<nat, seq<Packet>>, p: Packet)
    requires Traced(opt, s, t) && Lives(s) && Counted(s) && Bounded(opt, s)
    ensures (forall v :: Legal(opt, s, Arrive(p, v)) ==>
                           Traced(opt, Observe(opt, s, p, v), TraceStep(s, t, Arrive(p, v))))
            <==> Spares(opt, s, p)
  {
    hide Traced, Lives, Counted, Bounded, Observe, KeyOf, Spares, SelfEvicts, TraceStep;
    forall v | Legal(opt, s, Arrive(p, v))
      ensures Traced(opt, Observe(opt, s, p, v), TraceStep(s, t, Arrive(p, v))) <==> !SelfEvicts(opt, s, Arrive(p, v))
      ensures Spares(opt, s, p) ==> !SelfEvicts(opt, s, Arrive(p, v))
    {
      TracedStepIff(opt, s, t, Arrive(p, v));
      if Spares(opt, s, p) {
        SparedNotSelfEvicted(opt, s, Arrive(p, v));
      }
    }
    if !Spares(opt, s, p) {
      NotSpared(opt, s, p);
    }
  }

  /** For whole runs: every record is a replay of packets exactly as long as no packet has evicted its own flow. */
  lemma {:induction false} TracedRunIff(opt: Options, evs: seq<Event>)
    requires LegalRun(opt, evs)
    ensures Traced(opt, Run(opt, evs), Trace(opt, evs)) <==> SafeRun(opt, evs)
    ensures !SafeRun(opt, evs) ==> HasEmpty(Run(opt, evs).out)
  {
    if SafeRun(opt, evs) {
      RecordsAreReplays(opt, evs);
    } else {
      hide Traced, Step, SelfEvicts, HasEmpty, Legal, Trace;
      var init, ev := evs[..|evs| - 1], evs[|evs| - 1];
      TracedRunIff(opt, init);
      if SafeRun(opt, init) {
        SelfEvictionEmpty(opt, Run(opt, init), ev);
      } else {
        StepGrows(opt, Run(opt, init), ev);
        HasEmptyStays(Run(opt, init).out, Run(opt, evs).out);
      }
      HasEmptyNotTraced(opt, Run(opt, evs), Trace(opt, evs));
    }
  }
}
