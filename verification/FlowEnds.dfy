/** In every run, whatever is evicted: a flow's two ends and its key say the same, so the direction of each of its
    packets is decided by the packet's source alone. */
module FlowEnds {
  import opened Common
  import opened Flow
  import opened FlowSpec
  import opened FlowSummary

  /** The key is the one that the ends normalise to. */
  predicate Fits(r: Record) { r.WithDerivedKey() == r }

  ghost predicate AllFit(s: State) {
    && (forall k :: k in s.flows ==> Fits(s.flows[k].rec) && s.flows[k].rec.key == k)
    && (forall i :: 0 <= i < |s.out| ==> Fits(s.out[i]))
  }

  lemma NewFits(opt: Options, id: nat, p: Packet)
    ensures Fits(NewEntry(opt, id, KeyOf(p).0, p).rec)
  {
    NewEndsKey(p);
    SensorKept(p);
  }

  lemma SameEndsFit(r: Record, r': Record)
    requires Fits(r) && r'.ends == r.ends && r'.key == r.key
    ensures Fits(r')
  {}

  lemma AccountFits(e: Entry, p: Packet)
    requires Fits(e.rec)
    ensures Fits(Account(e, p).rec) && Account(e, p).rec.key == e.rec.key
  {
    hide FoldSize, FoldGap, FoldDirection, FoldTCP, KeyOf, IsForward, Fits;
    SameEndsFit(e.rec, Account(e, p).rec);
  }

  lemma CloseFits(s: State, k: Key, e: Entry, reason: Reason)
    requires AllFit(s) && Fits(e.rec)
    ensures AllFit(Close(s, k, e, reason))
  {
    hide Fits;
    SameEndsFit(e.rec, EmitAs(e.rec, reason));
  }

  lemma DeliverFits(s: State, k: Key, e: Entry, p: Packet)
    requires AllFit(s) && Fits(e.rec) && e.rec.key == k
    ensures AllFit(Deliver(s, k, e, p))
  {
    hide Fits, Account, Close;
    AccountFits(e, p);
    CloseFits(s, k, Account(e, p), FinRst);
  }

  lemma OpenFits(opt: Options, s: State, p: Packet, victim: Key)
    requires AllFit(s) && Legal(opt, s, Arrive(p, victim))
    ensures AllFit(Open(opt, s, p, victim))
  {
    hide Fits, KeyOf, NewEntry, Close;
    NewFits(opt, s.nextID + 1, p);
    var s1 := Insert(opt, s, p);
    if Overflows(opt, s, p) {
      CloseFits(s1, victim, s1.flows[victim], Evicted);
    }
  }

  lemma ObserveFits(opt: Options, s: State, p: Packet, victim: Key)
    requires AllFit(s) && Legal(opt, s, Arrive(p, victim))
    ensures AllFit(Observe(opt, s, p, victim))
  {
    hide Fits, KeyOf, NewEntry, Deliver, Open, Absorbed;
    var k := KeyOf(p).0;
    if k in s.flows {
      DeliverFits(s, k, s.flows[k], p);
    } else if !Absorbed(s, p) {
      OpenFits(opt, s, p, victim);
      NewFits(opt, s.nextID + 1, p);
      DeliverFits(Open(opt, s, p, victim), k, NewEntry(opt, s.nextID + 1, k, p), p);
    }
  }

  lemma TickKeyFits(opt: Options, s: State, now: Time, k: Key)
    requires AllFit(s)
    ensures AllFit(TickKey(opt, s, now, k))
  {
    hide Fits, Close;
    if k in s.flows {
      CloseFits(s, k, s.flows[k], MaxLife);
      CloseFits(s, k, s.flows[k], Idle);
      var e := Snapped(opt, s.flows[k], now);
      SameEndsFit(s.flows[k].rec, e.rec);
      SameEndsFit(s.flows[k].rec, EmitAs(e.rec, Snapshot));
    }
  }

  lemma {:induction false} TickKeysFit(opt: Options, s: State, now: Time, order: seq<Key>)
    requires AllFit(s)
    ensures AllFit(TickKeys(opt, s, now, order))
  {
    hide AllFit, TickKey;
    if order != [] {
      TickKeysFit(opt, s, now, order[..|order| - 1]);
      TickKeyFits(opt, TickKeys(opt, s, now, order[..|order| - 1]), now, order[|order| - 1]);
    }
  }

  lemma {:induction false} FlushFits(s: State, order: seq<Key>)
    requires AllFit(s)
    ensures AllFit(Flush(s, order))
  {
    hide Fits, Close;
    if order != [] {
      FlushFits(s, order[..|order| - 1]);
      var s1, k := Flush(s, order[..|order| - 1]), order[|order| - 1];
      if k in s1.flows {
        CloseFits(s1, k, s1.flows[k], CapEnd);
      }
    }
  }

  /** In every run of a table, full or not, every live flow and every record ever emitted has ends that fit its key:
      deriving the key again changes nothing. */
  lemma {:induction false} EveryKeyFits(opt: Options, evs: seq<Event>)
    requires LegalRun(opt, evs)
    ensures AllFit(Run(opt, evs))
  {
    if evs != [] {
      hide AllFit, Observe, TickKeys, Flush;
      var s, ev := Run(opt, evs[..|evs| - 1]), evs[|evs| - 1];
      EveryKeyFits(opt, evs[..|evs| - 1]);
      match ev
      case Arrive(p, victim) => ObserveFits(opt, s, p, victim);
      case Sweep(now, order) =>
        var s1 := s.(recentDown := Forget(s.recentDown, now));
        assert AllFit(s1) by { GraceFits(s, s1.recentDown); }
        TickKeysFit(opt, s1, now, order);
      case Drain(order) => FlushFits(s, order);
    } else {
      assert AllFit(EMPTY);
    }
  }

  lemma GraceFits(s: State, down: map<Key, Time>)
    requires AllFit(s)
    ensures AllFit(s.(recentDown := down))
  {}

  /** Every packet that hits a live flow, in every run, comes from one of that flow's two ends: the fallback to the
      key's own orientation is never taken, whatever it would say. */
  lemma FallbackNeverTaken(opt: Options, evs: seq<Event>, p: Packet, fwdFromA: bool)
    requires LegalRun(opt, evs) && KeyOf(p).0 in Run(opt, evs).flows
    ensures var r := Run(opt, evs).flows[KeyOf(p).0].rec;
            && (FromInitiator(r.ends, p) || (p.srcIP, p.srcPort) == (r.ends.respIP, r.ends.respPort))
            && IsForward(r, p, fwdFromA) == FromInitiator(r.ends, p)
  {
    hide Run, LegalRun;
    EveryKeyFits(opt, evs);
    EndsDecide(Run(opt, evs).flows[KeyOf(p).0].rec, p, fwdFromA);
  }

  lemma EndsDecide(r: Record, p: Packet, fwdFromA: bool)
    requires Fits(r) && r.key == KeyOf(p).0
    ensures FromInitiator(r.ends, p) || (p.srcIP, p.srcPort) == (r.ends.respIP, r.ends.respPort)
    ensures IsForward(r, p, fwdFromA) == FromInitiator(r.ends, p)
  {
    var n := r.ends;
    KeyIdentifiesUnorderedPair(p.srcIP, p.srcPort, p.dstIP, p.dstPort, p.proto,
                               n.initIP, n.initPort, n.respIP, n.respPort, n.proto);
    assert (p.srcIP, p.srcPort) in multiset{(p.srcIP, p.srcPort), (p.dstIP, p.dstPort)};
  }
}
