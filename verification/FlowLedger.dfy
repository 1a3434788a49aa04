/** Where every packet is: absorbed by the grace set, counted in exactly one flow, or lost with the flow that it opened
    and evicted, which cannot happen as long as an overflowing packet finds an older flow. */
module FlowLedger {
  import opened Common
  import opened Flow
  import opened FlowSpec

  /** The hypothesis: a packet that overflows the table is newer than some live flow's last packet.
      It can be checked before the call. */
  ghost predicate Spares(opt: Options, s: State, p: Packet) {
    Overflows(opt, s, p) ==> exists k :: k in s.flows && s.flows[k].rec.lastSeen < p.ts
  }

  ghost predicate SparingRun(opt: Options, evs: seq<Event>)
    requires LegalRun(opt, evs)
  {
    evs == [] ||
    (SparingRun(opt, evs[..|evs| - 1]) &&
     (evs[|evs| - 1].Arrive? ==> Spares(opt, Run(opt, evs[..|evs| - 1]), evs[|evs| - 1].p)))
  }

  /** What goes wrong without it: the packet evicts the flow that it has just opened. Map order decides between flows
      of the same age. */
  predicate SelfEvicts(opt: Options, s: State, ev: Event) {
    ev.Arrive? && Overflows(opt, s, ev.p) && ev.victim == KeyOf(ev.p).0
  }

  predicate IsReset(p: Packet) { p.proto == PROTO_TCP && p.flags.rst }

  /** No packet evicts its own flow. */
  ghost predicate SafeRun(opt: Options, evs: seq<Event>)
    requires LegalRun(opt, evs)
  {
    evs == [] ||
    (SafeRun(opt, evs[..|evs| - 1]) && !SelfEvicts(opt, Run(opt, evs[..|evs| - 1]), evs[|evs| - 1]))
  }

  /** What is being conserved: packets, bytes, or payload bytes. */
  datatype Measure = Packets | Bytes | Payload

  function OfPacket(m: Measure, p: Packet): nat {
    match m
    case Packets => 1
    case Bytes => p.totalLen
    case Payload => p.payloadLen
  }

  function OfRecord(m: Measure, r: Record): nat {
    match m
    case Packets => r.Packets()
    case Bytes => r.Bytes()
    case Payload => r.Payload()
  }

  function Reported(m: Measure, out: seq<Record>): nat {
    if out == [] then 0
    else
      var r := out[|out| - 1];
      Reported(m, out[..|out| - 1]) + if r.Terminal() then OfRecord(m, r) else 0
  }

  ghost function Held(m: Measure, flows: map<Key, Entry>): nat {
    if flows == map[] then 0
    else
      var k :| k in flows;
      OfRecord(m, flows[k].rec) + Held(m, flows - {k})
  }

  /** Reported in terminal records, or still held by a live flow. */
  ghost function Accounted(m: Measure, s: State): nat {
    Reported(m, s.out) + Held(m, s.flows)
  }

  function Observed(m: Measure, evs: seq<Event>): nat {
    if evs == [] then 0
    else Observed(m, evs[..|evs| - 1]) + var ev := evs[|evs| - 1]; if ev.Arrive? then OfPacket(m, ev.p) else 0
  }

  ghost function AbsorbedIn(m: Measure, opt: Options, evs: seq<Event>): nat
    requires LegalRun(opt, evs)
  {
    if evs == [] then 0
    else
      var init, ev := evs[..|evs| - 1], evs[|evs| - 1];
      AbsorbedIn(m, opt, init) + if ev.Arrive? && Absorbed(Run(opt, init), ev.p) then OfPacket(m, ev.p) else 0
  }

  /** Does the packet disappear with the flow it evicts? */
  predicate Loses(opt: Options, s: State, ev: Event) {
    SelfEvicts(opt, s, ev) && !IsReset(ev.p)
  }

  ghost function LostIn(m: Measure, opt: Options, evs: seq<Event>): nat
    requires LegalRun(opt, evs)
  {
    if evs == [] then 0
    else
      var init, ev := evs[..|evs| - 1], evs[|evs| - 1];
      LostIn(m, opt, init) + if Loses(opt, Run(opt, init), ev) then OfPacket(m, ev.p) else 0
  }

  // ---- sums over a map ----

  lemma {:induction false} HeldRemove(m: Measure, flows: map<Key, Entry>, k: Key)
    requires k in flows
    ensures Held(m, flows) == OfRecord(m, flows[k].rec) + Held(m, flows - {k})
    decreases |flows|
  {
    hide OfRecord;
    var j :| j in flows && Held(m, flows) == OfRecord(m, flows[j].rec) + Held(m, flows - {j});
    if j != k {
      HeldRemove(m, flows - {j}, k);
      HeldRemove(m, flows - {k}, j);
      assert flows - {j} - {k} == flows - {k} - {j};
    }
  }

  lemma HeldUpdate(m: Measure, flows: map<Key, Entry>, k: Key, e: Entry)
    ensures Held(m, flows[k := e]) == OfRecord(m, e.rec) + Held(m, flows - {k})
  {
    hide OfRecord;
    HeldRemove(m, flows[k := e], k);
    assert flows[k := e] - {k} == flows - {k};
  }

  lemma ReportedSnoc(m: Measure, out: seq<Record>, r: Record)
    ensures Reported(m, out + [r]) == Reported(m, out) + if r.Terminal() then OfRecord(m, r) else 0
  {
    assert (out + [r])[..|out|] == out;
  }

  // ---- one step ----

  lemma AccountAdds(m: Measure, e: Entry, p: Packet)
    ensures OfRecord(m, Account(e, p).rec) == OfRecord(m, e.rec) + OfPacket(m, p)
  {
    hide FoldSize, FoldGap, FoldTCP, KeyOf;
  }

  /** Closing a flow moves what it holds into a terminal record; closing one that is not in the
      table (an orphan) adds it. */
  lemma CloseAccounts(m: Measure, s: State, k: Key, e: Entry, reason: Reason)
    requires reason != Snapshot
    ensures Accounted(m, Close(s, k, e, reason)) ==
            Accounted(m, s) + OfRecord(m, e.rec) - if k in s.flows then OfRecord(m, s.flows[k].rec) else 0
  {
    ReportedSnoc(m, s.out, EmitAs(e.rec, reason));
    assert OfRecord(m, EmitAs(e.rec, reason)) == OfRecord(m, e.rec);
    if k in s.flows {
      HeldRemove(m, s.flows, k);
    } else {
      assert s.flows - {k} == s.flows;
    }
  }

  lemma DeliverAccounts(m: Measure, s: State, k: Key, e: Entry, p: Packet)
    requires k in s.flows ==> s.flows[k] == e
    ensures Accounted(m, Deliver(s, k, e, p)) ==
            Accounted(m, s) +
            if k in s.flows then OfPacket(m, p)
            else if TornDown(Account(e, p), p) then OfRecord(m, e.rec) + OfPacket(m, p)
            else 0
  {
    hide Account, TornDown, OfPacket, OfRecord, Held, Reported;
    var e' := Account(e, p);
    AccountAdds(m, e, p);
    CloseAccounts(m, s, k, e', FinRst);
    if k in s.flows {
      HeldRemove(m, s.flows, k);
      HeldUpdate(m, s.flows, k, e');
    }
  }

  /** Exactly what an arrival adds. The last case is the flaw: a newcomer evicted by its own
      arrival takes its packet with it, unless that packet is a reset. */
  lemma ArrivalAccounts(m: Measure, opt: Options, s: State, p: Packet, victim: Key)
    requires Legal(opt, s, Arrive(p, victim))
    ensures Accounted(m, Observe(opt, s, p, victim)) ==
            Accounted(m, s) +
            if Absorbed(s, p) then 0
            else if !Overflows(opt, s, p) || victim != KeyOf(p).0 then OfPacket(m, p)
            else if IsReset(p) then OfPacket(m, p)
            else 0
  {
    hide Account, OfPacket, Held, Reported, KeyOf, Deliver, NewEnds;
    var k := KeyOf(p).0;
    if k in s.flows {
      DeliverAccounts(m, s, k, s.flows[k], p);
    } else if !Absorbed(s, p) {
      var e := NewEntry(opt, s.nextID + 1, k, p);
      var s1 := Insert(opt, s, p);
      var s2 := Open(opt, s, p, victim);
      HeldUpdate(m, s.flows, k, e);
      assert s.flows - {k} == s.flows;
      if Overflows(opt, s, p) {
        CloseAccounts(m, s1, victim, s1.flows[victim], Evicted);
      }
      assert Accounted(m, s2) == Accounted(m, s);
      DeliverAccounts(m, s2, k, e, p);
      FirstPacketTearsDown(e, p);
    }
  }

  lemma FirstPacketTearsDown(e: Entry, p: Packet)
    requires !e.rst && !e.finFromInit && !e.finFromResp
    ensures TornDown(Account(e, p), p) <==> IsReset(p)
  {
    hide FoldSize, FoldGap, FoldDirection, FoldTCP, KeyOf;
  }

  /** The hypothesis says exactly that the newcomer is safe in every map iteration order. */
  lemma SparesIffNewcomerSafe(opt: Options, s: State, p: Packet)
    ensures Spares(opt, s, p) <==>
            forall v :: Overflows(opt, s, p) && Legal(opt, s, Arrive(p, v)) ==> v != KeyOf(p).0
  {
    hide KeyOf, NewEnds;
    var k := KeyOf(p).0;
    if Overflows(opt, s, p) {
      if j :| j in s.flows && s.flows[j].rec.lastSeen < p.ts {
        assert j in Insert(opt, s, p).flows;
      } else {
        assert Legal(opt, s, Arrive(p, k));
      }
    }
  }

  /** Packet counts are conserved by an arrival, whatever the iteration order, exactly when the
      table spares the newcomer or the packet is a reset. */
  lemma ConservedIff(opt: Options, s: State, p: Packet)
    ensures (forall v :: Legal(opt, s, Arrive(p, v)) ==>
                           Accounted(Packets, Observe(opt, s, p, v)) ==
                           Accounted(Packets, s) + if Absorbed(s, p) then 0 else 1)
            <==> Spares(opt, s, p) || IsReset(p)
  {
    hide Observe, Accounted, KeyOf;
    var k := KeyOf(p).0;
    SparesIffNewcomerSafe(opt, s, p);
    forall v | Legal(opt, s, Arrive(p, v))
      ensures Accounted(Packets, Observe(opt, s, p, v)) ==
              Accounted(Packets, s) +
              if Absorbed(s, p) then 0
              else if !Overflows(opt, s, p) || v != k || IsReset(p) then 1 else 0
    {
      ArrivalAccounts(Packets, opt, s, p, v);
    }
  }

  lemma TickKeyAccounts(m: Measure, opt: Options, s: State, now: Time, k: Key)
    ensures Accounted(m, TickKey(opt, s, now, k)) == Accounted(m, s)
  {
    hide Close;
    if k in s.flows {
      var e := s.flows[k];
      CloseAccounts(m, s, k, e, MaxLife);
      CloseAccounts(m, s, k, e, Idle);
      var e' := Snapped(opt, e, now);
      ReportedSnoc(m, s.out, EmitAs(e'.rec, Snapshot));
      HeldUpdate(m, s.flows, k, e');
      HeldRemove(m, s.flows, k);
    }
  }

  lemma {:induction false} TickKeysAccount(m: Measure, opt: Options, s: State, now: Time, order: seq<Key>)
    ensures Accounted(m, TickKeys(opt, s, now, order)) == Accounted(m, s)
  {
    hide Accounted, TickKey;
    if order != [] {
      TickKeysAccount(m, opt, s, now, order[..|order| - 1]);
      TickKeyAccounts(m, opt, TickKeys(opt, s, now, order[..|order| - 1]), now, order[|order| - 1]);
    }
  }

  lemma {:induction false} FlushAccounts(m: Measure, s: State, order: seq<Key>)
    ensures Accounted(m, Flush(s, order)) == Accounted(m, s)
  {
    hide Accounted, Close;
    if order != [] {
      var s' := Flush(s, order[..|order| - 1]);
      var k := order[|order| - 1];
      FlushAccounts(m, s, order[..|order| - 1]);
      if k in s'.flows {
        CloseAccounts(m, s', k, s'.flows[k], CapEnd);
      }
    }
  }

  // ---- every run ----

  /** Exactly what one step adds. */
  lemma StepAccounts(m: Measure, opt: Options, s: State, ev: Event)
    requires Legal(opt, s, ev)
    ensures Accounted(m, Step(opt, s, ev)) ==
            Accounted(m, s) +
            if ev.Arrive? && !Absorbed(s, ev.p) && !Loses(opt, s, ev) then OfPacket(m, ev.p) else 0
  {
    hide Observe, TickKeys, Flush, OfPacket, OfRecord, Held, Reported;
    match ev {
      case Arrive(p, victim) =>
        ArrivalAccounts(m, opt, s, p, victim);
      case Sweep(now, order) =>
        TickKeysAccount(m, opt, s.(recentDown := Forget(s.recentDown, now)), now, order);
      case Drain(order) =>
        FlushAccounts(m, s, order);
    }
  }

  /** In every run: observed = absorbed + lost + reported in terminal records + held by live flows. */
  lemma {:induction false} Conservation(m: Measure, opt: Options, evs: seq<Event>)
    requires LegalRun(opt, evs)
    ensures Observed(m, evs) == AbsorbedIn(m, opt, evs) + LostIn(m, opt, evs) + Accounted(m, Run(opt, evs))
  {
    hide Step, OfPacket, OfRecord, Absorbed, Overflows, KeyOf, Accounted;
    if evs != [] {
      var init, ev := evs[..|evs| - 1], evs[|evs| - 1];
      Conservation(m, opt, init);
      StepAccounts(m, opt, Run(opt, init), ev);
      LosesNoneAbsorbed(opt, Run(opt, init), ev);
    } else {
      EmptyBooks(m);
    }
  }

  lemma EmptyBooks(m: Measure)
    ensures Accounted(m, EMPTY) == 0
  {}

  lemma LosesNoneAbsorbed(opt: Options, s: State, ev: Event)
    ensures Loses(opt, s, ev) ==> !Absorbed(s, ev.p)
  {}

  ghost predicate LosslessRun(opt: Options, evs: seq<Event>)
    requires LegalRun(opt, evs)
  {
    evs == [] ||
    (LosslessRun(opt, evs[..|evs| - 1]) && !Loses(opt, Run(opt, evs[..|evs| - 1]), evs[|evs| - 1]))
  }

  /** Nothing is lost exactly in the runs in which no packet but a reset evicts its own flow. */
  lemma {:induction false} LossIff(opt: Options, evs: seq<Event>)
    requires LegalRun(opt, evs)
    ensures LostIn(Packets, opt, evs) == 0 <==> LosslessRun(opt, evs)
    ensures LosslessRun(opt, evs) ==> forall m :: LostIn(m, opt, evs) == 0
  {
    hide Loses, Step, Legal;
    if evs != [] {
      LossIff(opt, evs[..|evs| - 1]);
    }
  }

  lemma ConservationIff(opt: Options, evs: seq<Event>)
    requires LegalRun(opt, evs)
    ensures Observed(Packets, evs) == AbsorbedIn(Packets, opt, evs) + Accounted(Packets, Run(opt, evs))
            <==> LosslessRun(opt, evs)
  {
    hide Observed, AbsorbedIn, Accounted, LostIn, LosslessRun, Run, LegalRun;
    Conservation(Packets, opt, evs);
    LossIff(opt, evs);
  }

  /** Once the capture has ended nothing is held: terminal records, the grace set and the losses account for every
      packet. */
  lemma ConservationAtEnd(m: Measure, opt: Options, evs: seq<Event>)
    requires LegalRun(opt, evs)
    requires evs != [] && evs[|evs| - 1].Drain?
    ensures Observed(m, evs) == AbsorbedIn(m, opt, evs) + LostIn(m, opt, evs) + Reported(m, Run(opt, evs).out)
  {
    Conservation(m, opt, evs);
    var s := Run(opt, evs[..|evs| - 1]);
    var order := evs[|evs| - 1].order;
    FlushEmpties(s, order);
    assert Run(opt, evs).flows == map[];
  }

  // ---- the hypothesis is enough ----

  lemma SparedNotSelfEvicted(opt: Options, s: State, ev: Event)
    requires Legal(opt, s, ev) && (ev.Arrive? ==> Spares(opt, s, ev.p))
    ensures !SelfEvicts(opt, s, ev)
  {
    hide Overflows, KeyOf, Spares;
    if ev.Arrive? {
      SparesIffNewcomerSafe(opt, s, ev.p);
    }
  }

  lemma {:induction false} SparingIsSafe(opt: Options, evs: seq<Event>)
    requires LegalRun(opt, evs) && SparingRun(opt, evs)
    ensures SafeRun(opt, evs) && LosslessRun(opt, evs)
  {
    hide Step, Legal, Spares, SelfEvicts;
    if evs != [] {
      SparingIsSafe(opt, evs[..|evs| - 1]);
      SparedNotSelfEvicted(opt, Run(opt, evs[..|evs| - 1]), evs[|evs| - 1]);
    }
  }

  lemma {:induction false} FlushEmpties(s: State, order: seq<Key>)
    ensures Flush(s, order).flows == map k | k in s.flows && k !in order :: s.flows[k]
  {
    if order != [] {
      FlushEmpties(s, order[..|order| - 1]);
      assert order == order[..|order| - 1] + [order[|order| - 1]];
    }
  }
}
