/** Who started a flow: in every run, the two ends of a flow and what it counts as forward follow from the addresses and
    flags of its first packet, so a handshake is oriented the same whichever of its packets is seen first. */
module FlowOrigins {
  import opened Common
  import opened Flow
  import opened FlowSpec
  import opened FlowLedger
  import opened FlowBatch
  import opened FlowSummary

  // ---- in addresses and flags ----

  /** The second packet of a TCP handshake. */
  predicate IsSynAck(p: Packet) { p.proto == PROTO_TCP && p.flags.syn && p.flags.ack }

  /** The first one. */
  predicate IsSyn(p: Packet) { p.proto == PROTO_TCP && p.flags.syn && !p.flags.ack }

  /** The initiator of a flow first seen with p: the source of p, or its destination if p answers a handshake. */
  predicate StartedBy(n: Ends, p: Packet) {
    && n.proto == p.proto
    && (IsSynAck(p) ==>
          n.initIP == p.dstIP && n.initPort == p.dstPort && n.respIP == p.srcIP && n.respPort == p.srcPort)
    && (!IsSynAck(p) ==>
          n.initIP == p.srcIP && n.initPort == p.srcPort && n.respIP == p.dstIP && n.respPort == p.dstPort)
  }

  /** What a record keeps of its flow's first packet. */
  ghost predicate Begun(r: Record, t: map<nat, seq<Packet>>) {
    && r.id in t && t[r.id] != []
    && var p := t[r.id][0];
       StartedBy(r.ends, p) && r.firstSeen == p.ts && r.key == KeyOf(p).0
       && r.tcp.initialWindow == if p.proto == PROTO_TCP then p.window else 0
  }

  ghost predicate AllBegun(s: State, t: map<nat, seq<Packet>>) {
    && (forall id :: id in t ==> id <= s.nextID && t[id] != [])
    && (forall k :: k in s.flows ==> Begun(s.flows[k].rec, t))
    && (forall i :: 0 <= i < |s.out| ==> Begun(s.out[i], t))
  }

  // ---- every step keeps it ----

  /** Nothing that Begun speaks of changes after the first packet. */
  predicate SameStart(r: Record, r': Record) {
    && r'.id == r.id && r'.ends == r.ends && r'.firstSeen == r.firstSeen && r'.key == r.key
    && r'.tcp.initialWindow == r.tcp.initialWindow
  }

  lemma NewBegun(opt: Options, id: nat, p: Packet, t: map<nat, seq<Packet>>)
    requires id in t && t[id] == [p]
    ensures Begun(NewEntry(opt, id, KeyOf(p).0, p).rec, t)
  {
    hide KeyOf;
  }

  lemma AccountStart(e: Entry, p: Packet)
    ensures SameStart(e.rec, Account(e, p).rec)
  {
    hide FoldSize, FoldGap, FoldDirection, KeyOf, IsForward;
  }

  lemma BegunStays(r: Record, r': Record, t: map<nat, seq<Packet>>, t': map<nat, seq<Packet>>)
    requires Begun(r, t) && SameStart(r, r') && r.id in t' && t'[r.id] != [] && t'[r.id][0] == t[r.id][0]
    ensures Begun(r', t')
  {
    hide KeyOf, StartedBy;
  }

  lemma CloseBegun(s: State, t: map<nat, seq<Packet>>, k: Key, e: Entry, reason: Reason)
    requires AllBegun(s, t) && Begun(e.rec, t)
    ensures AllBegun(Close(s, k, e, reason), t)
  {
    hide KeyOf, StartedBy;
  }

  lemma DeliverBegun(s: State, t: map<nat, seq<Packet>>, k: Key, e: Entry, p: Packet)
    requires AllBegun(s, t) && Begun(e.rec, t)
    ensures AllBegun(Deliver(s, k, e, p), t)
  {
    hide Begun, Account, Close;
    AccountStart(e, p);
    assert Begun(Account(e, p).rec, t) by { BegunAgain(e.rec, Account(e, p).rec, t); }
    CloseBegun(s, t, k, Account(e, p), FinRst);
  }

  lemma BegunAgain(r: Record, r': Record, t: map<nat, seq<Packet>>)
    requires Begun(r, t) && SameStart(r, r')
    ensures Begun(r', t)
  {
    hide KeyOf, StartedBy;
  }

  lemma TickKeyBegun(opt: Options, s: State, t: map<nat, seq<Packet>>, now: Time, k: Key)
    requires AllBegun(s, t)
    ensures AllBegun(TickKey(opt, s, now, k), t)
  {
    hide Begun, Close;
    if k in s.flows {
      CloseBegun(s, t, k, s.flows[k], MaxLife);
      CloseBegun(s, t, k, s.flows[k], Idle);
      var e := Snapped(opt, s.flows[k], now);
      BegunAgain(s.flows[k].rec, e.rec, t);
      BegunAgain(s.flows[k].rec, EmitAs(e.rec, Snapshot), t);
    }
  }

  lemma {:induction false} TickKeysBegun(opt: Options, s: State, t: map<nat, seq<Packet>>, now: Time, order: seq<Key>)
    requires AllBegun(s, t)
    ensures AllBegun(TickKeys(opt, s, now, order), t)
  {
    hide AllBegun, TickKey;
    if order != [] {
      TickKeysBegun(opt, s, t, now, order[..|order| - 1]);
      TickKeyBegun(opt, TickKeys(opt, s, now, order[..|order| - 1]), t, now, order[|order| - 1]);
    }
  }

  lemma {:induction false} FlushBegun(s: State, t: map<nat, seq<Packet>>, order: seq<Key>)
    requires AllBegun(s, t)
    ensures AllBegun(Flush(s, order), t)
  {
    hide Begun, Close;
    if order != [] {
      FlushBegun(s, t, order[..|order| - 1]);
      var s1, k := Flush(s, order[..|order| - 1]), order[|order| - 1];
      if k in s1.flows {
        CloseBegun(s1, t, k, s1.flows[k], CapEnd);
      }
    }
  }

  /** A longer trace starts every list as before. */
  lemma TraceLater(s: State, t: map<nat, seq<Packet>>, t': map<nat, seq<Packet>>)
    requires AllBegun(s, t)
    requires forall id :: id in t ==> id in t' && t'[id] != [] && t'[id][0] == t[id][0]
    requires forall id :: id in t' ==> id <= s.nextID && t'[id] != []
    ensures AllBegun(s, t')
  {
    forall k | k in s.flows ensures Begun(s.flows[k].rec, t') {
      BegunStays(s.flows[k].rec, s.flows[k].rec, t, t');
    }
    forall i | 0 <= i < |s.out| ensures Begun(s.out[i], t') {
      BegunStays(s.out[i], s.out[i], t, t');
    }
  }

  lemma OpenBegun(opt: Options, s: State, t: map<nat, seq<Packet>>, p: Packet, victim: Key)
    requires AllBegun(s, t) && Legal(opt, s, Arrive(p, victim)) && Opens(s, p)
    ensures AllBegun(Open(opt, s, p, victim), t[s.nextID + 1 := [p]])
  {
    hide Begun, KeyOf, NewEntry, Close, Absorbed;
    var t' := t[s.nextID + 1 := [p]];
    var s0 := s.(nextID := s.nextID + 1);
    assert AllBegun(s0, t);
    TraceLater(s0, t, t');
    NewBegun(opt, s.nextID + 1, p, t');
    var s1 := Insert(opt, s, p);
    assert AllBegun(s1, t');
    if Overflows(opt, s, p) {
      CloseBegun(s1, t', victim, s1.flows[victim], Evicted);
    }
  }

  lemma ObserveBegun(opt: Options, s: State, t: map<nat, seq<Packet>>, p: Packet, victim: Key)
    requires AllBegun(s, t) && Legal(opt, s, Arrive(p, victim))
    ensures AllBegun(Observe(opt, s, p, victim), TraceStep(s, t, Arrive(p, victim)))
  {
    hide Begun, KeyOf, NewEntry, Deliver, Open, Absorbed;
    var k, t' := KeyOf(p).0, TraceStep(s, t, Arrive(p, victim));
    if k in s.flows {
      KnownTrace(s, t, k, p);
      TraceLater(s, t, t');
      DeliverBegun(s, t', k, s.flows[k], p);
    } else if !Absorbed(s, p) {
      OpenBegun(opt, s, t, p, victim);
      NewBegun(opt, s.nextID + 1, p, t');
      DeliverBegun(Open(opt, s, p, victim), t', k, NewEntry(opt, s.nextID + 1, k, p), p);
    }
  }

  lemma KnownTrace(s: State, t: map<nat, seq<Packet>>, k: Key, p: Packet)
    requires AllBegun(s, t) && k in s.flows
    ensures var id := s.flows[k].rec.id;
            && id in t && t[id] != []
            && var t' := t[id := t[id] + [p]];
               && (forall i :: i in t ==> i in t' && t'[i] != [] && t'[i][0] == t[i][0])
               && (forall i :: i in t' ==> i <= s.nextID && t'[i] != [])
  {
    hide KeyOf, StartedBy;
    assert Begun(s.flows[k].rec, t);
  }

  // ---- every run ----

  /** In every run, whatever is evicted: each live flow and each record ever emitted was started by the source of its
      first packet, or by the destination if that packet is a SYN+ACK; and it starts at that packet's time. */
  lemma {:induction false} EveryFlowBegun(opt: Options, evs: seq<Event>)
    requires LegalRun(opt, evs)
    ensures AllBegun(Run(opt, evs), Trace(opt, evs))
  {
    if evs != [] {
      hide AllBegun, Observe, TickKeys, Flush, TraceStep;
      var init, ev := evs[..|evs| - 1], evs[|evs| - 1];
      EveryFlowBegun(opt, init);
      StepBegun(opt, Run(opt, init), Trace(opt, init), ev);
    } else {
      assert AllBegun(EMPTY, map[]);
    }
  }

  lemma StepBegun(opt: Options, s: State, t: map<nat, seq<Packet>>, ev: Event)
    requires AllBegun(s, t) && Legal(opt, s, ev)
    ensures AllBegun(Step(opt, s, ev), TraceStep(s, t, ev))
  {
    hide AllBegun, Observe, TickKeys, Flush, KeyOf, Absorbed;
    match ev
    case Arrive(p, victim) => ObserveBegun(opt, s, t, p, victim);
    case Sweep(now, order) =>
      var s1 := s.(recentDown := Forget(s.recentDown, now));
      assert AllBegun(s1, t) by { GraceBegun(s, t, s1.recentDown); }
      TickKeysBegun(opt, s1, t, now, order);
    case Drain(order) => FlushBegun(s, t, order);
  }

  lemma GraceBegun(s: State, t: map<nat, seq<Packet>>, down: map<Key, Time>)
    requires AllBegun(s, t)
    ensures AllBegun(s.(recentDown := down), t)
  {}

  // ---- a handshake ----

  /** A SYN and the SYN+ACK that answers it. */
  predicate Answers(q: Packet, p: Packet) {
    && IsSyn(p) && IsSynAck(q) && q.sensor == p.sensor
    && (q.srcIP, q.srcPort, q.dstIP, q.dstPort) == (p.dstIP, p.dstPort, p.srcIP, p.srcPort)
  }

  /** Whichever of the two opens the flow, they share it, its ends are the same, and the SYN is counted forward, the
      SYN+ACK backward (unless a host talks to itself from one port to the same). */
  lemma HandshakeOriented(opt: Options, id: nat, p: Packet, q: Packet)
    requires Answers(q, p) && (p.srcIP, p.srcPort) != (p.dstIP, p.dstPort)
    ensures KeyOf(p).0 == KeyOf(q).0
    ensures var k := KeyOf(p).0;
            var e, e' := Account(NewEntry(opt, id, k, p), p), Account(NewEntry(opt, id, k, q), q);
            && e.rec.ends == e'.rec.ends && (e.rec.ends.initIP, e.rec.ends.initPort) == (p.srcIP, p.srcPort)
            && e.rec.fwd.packets == 1 && e.rec.bwd.packets == 0 && e'.rec.fwd.packets == 0 && e'.rec.bwd.packets == 1
            && Account(e, q).rec.fwd.packets == 1 && Account(e, q).rec.bwd.packets == 1
            && Account(e', p).rec.fwd.packets == 1 && Account(e', p).rec.bwd.packets == 1
  {
    hide FoldSize, FoldGap, FoldTCP, KeyOf;
    KeyIdentifiesUnorderedPair(p.srcIP, p.srcPort, p.dstIP, p.dstPort, p.proto,
                               q.srcIP, q.srcPort, q.dstIP, q.dstPort, q.proto);
    assert KeyOf(p).0 == KeyOf(q).0 by { SameKey(p, q); }
  }

  lemma SameKey(p: Packet, q: Packet)
    requires p.sensor == q.sensor
    requires KeyOfEndpoints(p.srcIP, p.srcPort, p.dstIP, p.dstPort, p.proto).0 ==
             KeyOfEndpoints(q.srcIP, q.srcPort, q.dstIP, q.dstPort, q.proto).0
    ensures KeyOf(p).0 == KeyOf(q).0
  {
    hide KeyOfEndpoints;
  }

  /** In every run in which no packet evicts its own flow, the forward packets of a record are those that its initiator
      sent: the source of the first packet, or its destination if that is a SYN+ACK. */
  lemma ForwardIsSent(opt: Options, evs: seq<Event>, i: nat) returns (ps: seq<Packet>)
    requires LegalRun(opt, evs) && SafeRun(opt, evs) && i < |Run(opt, evs).out|
    ensures var r := Run(opt, evs).out[i];
            && r.id in Trace(opt, evs) && ps != [] && ps <= Trace(opt, evs)[r.id] && StartedBy(r.ends, ps[0])
            && r.fwd == DirectionOf(SentBy(ps, ps[0], true)) && r.bwd == DirectionOf(SentBy(ps, ps[0], false))
  {
    hide Run, Trace, Summarises, Replay, DirectionOf, Going, SentBy, KeyOf, StartedBy;
    var r := Run(opt, evs).out[i];
    RecordsAreReplays(opt, evs);
    assert Explained(opt, r, Trace(opt, evs));
    var n: nat :| TracedRecord(opt, r, Trace(opt, evs), n);
    ps := Trace(opt, evs)[r.id][..n];
    ReplaySummarises(opt, r.id, ps);
    EveryFlowBegun(opt, evs);
    assert Begun(r, Trace(opt, evs));
    assert ps[0] == Trace(opt, evs)[r.id][0];
    RecordDirections(Replay(opt, r.id, ps), ps, r);
    GoingIsSent(r.ends, ps, ps[0], true);
    GoingIsSent(r.ends, ps, ps[0], false);
  }

  lemma RecordDirections(e: Entry, ps: seq<Packet>, r: Record)
    requires ps != [] && Summarises(e, ps) && SameFlow(r, e.rec)
    ensures r.fwd == DirectionOf(Going(r.ends, ps, true)) && r.bwd == DirectionOf(Going(r.ends, ps, false))
  {
    hide SummarisesSizes, SummarisesGaps, TcpOf, Count, DirectionOf, Going, KeyOf, NewEnds, GapsOf, Latest;
  }

  /** Was p sent by the initiator of a flow that begins with first? */
  predicate FromStarter(first: Packet, p: Packet) {
    if IsSynAck(first) then (p.srcIP, p.srcPort) == (first.dstIP, first.dstPort)
    else (p.srcIP, p.srcPort) == (first.srcIP, first.srcPort)
  }

  /** The packets of ps that the initiator of a flow started by first sent, or those that it did not. */
  function SentBy(ps: seq<Packet>, first: Packet, forward: bool): seq<Packet> {
    if ps == [] then []
    else
      var init, p := SentBy(ps[..|ps| - 1], first, forward), ps[|ps| - 1];
      if FromStarter(first, p) == forward then init + [p] else init
  }

  lemma {:induction false} GoingIsSent(ends: Ends, ps: seq<Packet>, first: Packet, forward: bool)
    requires StartedBy(ends, first)
    ensures Going(ends, ps, forward) == SentBy(ps, first, forward)
  {
    if ps != [] {
      GoingIsSent(ends, ps[..|ps| - 1], first, forward);
    }
  }
}
