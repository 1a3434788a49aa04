/** The table's own counters, in terms of the records it has handed out. */
module FlowCounters {
  import opened Common
  import opened Flow
  import opened FlowSpec

  /** How many records of that reason were handed out. */
  function Told(out: seq<Record>, reason: Reason): nat {
    if out == [] then 0
    else
      var n := Told(out[..|out| - 1], reason);
      if out[|out| - 1].reason == reason then n + 1 else n
  }

  lemma ToldOne(out: seq<Record>, r: Record, reason: Reason)
    ensures Told(out + [r], reason) == Told(out, reason) + if r.reason == reason then 1 else 0
  {
    assert (out + [r])[..|out|] == out;
  }

  /** Snapshots and evictions are counted as they are told, every record but a snapshot closes a flow, and IDs count
      the flows. */
  ghost predicate Tells(s: State) {
    && s.stats.snapshots == Told(s.out, Snapshot) && s.stats.evicted == Told(s.out, Evicted)
    && s.stats.closed == |s.out| - Told(s.out, Snapshot) && s.stats.started == s.nextID
  }

  lemma CloseTells(s: State, k: Key, e: Entry, reason: Reason)
    requires Tells(s) && reason != Snapshot && reason != Evicted
    ensures Tells(Close(s, k, e, reason))
  {
    hide Told;
    ToldOne(s.out, EmitAs(e.rec, reason), Snapshot);
    ToldOne(s.out, EmitAs(e.rec, reason), Evicted);
  }

  lemma EvictTells(s: State, victim: Key)
    requires Tells(s) && victim in s.flows
    ensures Tells(Evict(s, victim))
  {
    hide Told;
    var r := EmitAs(s.flows[victim].rec, Evicted);
    ToldOne(s.out, r, Snapshot);
    ToldOne(s.out, r, Evicted);
  }

  lemma DeliverTells(s: State, k: Key, e: Entry, p: Packet)
    requires Tells(s)
    ensures Tells(Deliver(s, k, e, p))
  {
    hide Told, Account, Close, TornDown;
    CloseTells(s, k, Account(e, p), FinRst);
  }

  lemma ObserveTells(opt: Options, s: State, p: Packet, victim: Key)
    requires Tells(s) && Legal(opt, s, Arrive(p, victim))
    ensures Tells(Observe(opt, s, p, victim))
  {
    hide KeyOf, NewEntry, Deliver, Evict, Told, Absorbed;
    var k := KeyOf(p).0;
    if k in s.flows {
      DeliverTells(s, k, s.flows[k], p);
    } else if !Absorbed(s, p) {
      assert Tells(Insert(opt, s, p));
      if Overflows(opt, s, p) {
        EvictTells(Insert(opt, s, p), victim);
      }
      DeliverTells(Open(opt, s, p, victim), k, NewEntry(opt, s.nextID + 1, k, p), p);
    }
  }

  lemma TickKeyTells(opt: Options, s: State, now: Time, k: Key)
    requires Tells(s)
    ensures Tells(TickKey(opt, s, now, k))
  {
    hide Told, Close;
    if k in s.flows {
      CloseTells(s, k, s.flows[k], MaxLife);
      CloseTells(s, k, s.flows[k], Idle);
      var r := EmitAs(Snapped(opt, s.flows[k], now).rec, Snapshot);
      ToldOne(s.out, r, Snapshot);
      ToldOne(s.out, r, Evicted);
    }
  }

  lemma {:induction false} TickKeysTell(opt: Options, s: State, now: Time, order: seq<Key>)
    requires Tells(s)
    ensures Tells(TickKeys(opt, s, now, order))
  {
    hide Tells, TickKey;
    if order != [] {
      TickKeysTell(opt, s, now, order[..|order| - 1]);
      TickKeyTells(opt, TickKeys(opt, s, now, order[..|order| - 1]), now, order[|order| - 1]);
    }
  }

  lemma {:induction false} FlushTells(s: State, order: seq<Key>)
    requires Tells(s)
    ensures Tells(Flush(s, order))
  {
    hide Tells, Close;
    if order != [] {
      var s1, k := Flush(s, order[..|order| - 1]), order[|order| - 1];
      FlushTells(s, order[..|order| - 1]);
      if k in s1.flows {
        CloseTells(s1, k, s1.flows[k], CapEnd);
      }
    }
  }

  lemma StepTells(opt: Options, s: State, ev: Event)
    requires Tells(s) && Legal(opt, s, ev)
    ensures Tells(Step(opt, s, ev))
  {
    hide Observe, TickKeys, Flush, Told;
    match ev
    case Arrive(p, victim) => ObserveTells(opt, s, p, victim);
    case Sweep(now, order) => TickKeysTell(opt, s.(recentDown := Forget(s.recentDown, now)), now, order);
    case Drain(order) => FlushTells(s, order);
  }

  /** In every run. */
  lemma {:induction false} CountersTell(opt: Options, evs: seq<Event>)
    requires LegalRun(opt, evs)
    ensures Tells(Run(opt, evs))
  {
    if evs != [] {
      hide Tells, Step;
      CountersTell(opt, evs[..|evs| - 1]);
      StepTells(opt, Run(opt, evs[..|evs| - 1]), evs[|evs| - 1]);
    } else {
      assert Tells(EMPTY);
    }
  }
}
