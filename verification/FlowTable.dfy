/** The mutable flow table of internal/flow/table.go. Every method is tied to the state machine of
    module FlowSpec: Model() is the abstract table, and a method that walks a Go map also returns
    the (ghost) choice that the walk amounts to. */
module FlowTable {
  import opened Common
  import opened Flow
  import FlowSpec
  import opened Spec = FlowSpec

  /** The pointed-to `entry` of the source. */
  class Cell {
    var rec: Record
    var lastFwdTS: Time
    var lastBwdTS: Time
    var finFromInit: bool
    var finFromResp: bool
    var rst: bool
    var nextSnapshotAt: Time

    ghost function View(): Entry
      reads this
    {
      Entry(rec, lastFwdTS, lastBwdTS, finFromInit, finFromResp, rst, nextSnapshotAt)
    }

    constructor (e: Entry)
      ensures View() == e
    {
      rec, lastFwdTS, lastBwdTS := e.rec, e.lastFwdTS, e.lastBwdTS;
      finFromInit, finFromResp, rst, nextSnapshotAt := e.finFromInit, e.finFromResp, e.rst, e.nextSnapshotAt;
    }
  }

  class Table {
    const opt: Options
    var flows: map<Key, Cell>
    var recentDown: map<Key, Time>
    var nextID: nat
    var stats: Stats
    var out: seq<Record>
    ghost var entries: map<Key, Entry>  // what the cells of `flows` hold
    ghost var Repr: set<Cell>  // every cell the table has ever stored

    /** `entries` is up to date, and every entry knows its key (so no two keys share an entry). */
    ghost predicate Valid()
      reads `flows, `entries, `Repr, Repr
    {
      && flows.Keys == entries.Keys
      && (forall k :: k in flows ==>
            flows[k] in Repr && flows[k].View() == entries[k] && flows[k].rec.key == k)
    }

    /** Valid, but for the entry of k, which is being changed. */
    ghost predicate ValidExcept(k: Key)
      reads `flows, `entries, `Repr, Repr
    {
      && flows.Keys == entries.Keys
      && (forall j :: j in flows && j != k ==>
            flows[j] in Repr && flows[j].View() == entries[j] && flows[j].rec.key == j)
    }

    /** Brings `entries` up to date after a change to the entry of k. */
    ghost method Refresh(k: Key)
      requires ValidExcept(k) && k in flows && flows[k] in Repr && flows[k].rec.key == k
      modifies this`entries
      ensures Valid() && entries == old(entries)[k := flows[k].View()]
    {
      hide Cell.View;
      entries := entries[k := flows[k].View()];
    }

    ghost function Model(): State
      reads this
    {
      State(entries, recentDown, nextID, stats, out)
    }

    constructor (o: Options)
      ensures Valid() && Model() == EMPTY && opt == o && flows == map[]
    {
      opt := o;
      flows, recentDown, nextID, stats, out := map[], map[], 0, Stats(0, 0, 0, 0), [];
      entries, Repr := map[], {};
    }

    method Observe(p: Packet) returns (ghost victim: Key)
      requires Valid()
      modifies this, Repr
      ensures Valid() && fresh(Repr - old(Repr))
      ensures Legal(opt, old(Model()), Arrive(p, victim))
      ensures Model() == FlowSpec.Observe(opt, old(Model()), p, victim)
    {
      hide Account, NewEntry, FlowSpec.Open, Deliver, IsOldest, KeyOfEndpoints;
      var (k, fwdFromA) := KeyOf(p);
      victim := k;
      var e: Cell;
      if k in flows {
        e := flows[k];
      } else {
        if k in recentDown {
          var isSYN := p.proto == PROTO_TCP && p.flags.syn;
          if p.ts - recentDown[k] < GRACE_WINDOW && !isSYN {
            return;
          }
        }
        e, victim := Open(k, p);
      }
      DeliverTo(e, k, p);
    }

    /** The rest of Observe: everything after the entry has been found or opened. */
    method DeliverTo(e: Cell, k: Key, p: Packet)
      requires Valid() && k == KeyOf(p).0
      requires e in Repr && e.rec.key == k && (k in flows ==> e == flows[k])
      modifies this, e
      ensures Valid() && Repr == old(Repr)
      ensures Model() == Deliver(old(Model()), k, old(e.View()), p)
    {
      hide Account, Close, KeyOf, Cell.View;
      AccountFor(e, p);
      assert ValidExcept(k);
      if p.proto == PROTO_TCP {
        if e.rst || (e.finFromInit && e.finFromResp) {
          assert TornDown(e.View(), p) by { CellState(e); }
          Retire(k, e, FinRst);
          recentDown := recentDown[k := p.ts];
          return;
        }
      }
      assert !TornDown(e.View(), p) by { CellState(e); }
      if k in flows {
        Refresh(k);
      }
    }

    /** Folds p into e and raises the teardown flags. */
    method AccountFor(e: Cell, p: Packet)
      modifies e
      ensures e.View() == Account(old(e.View()), p) && e.rec.key == old(e.rec.key)
    {
      hide FlowSpec.Fold, KeyOf, IsForward;
      var forward := IsForward(e.rec, p, KeyOf(p).1);
      Fold(e, p, forward);
      if p.proto == PROTO_TCP {
        if p.flags.rst {
          e.rst := true;
        }
        if p.flags.fin {
          if forward {
            e.finFromInit := true;
          } else {
            e.finFromResp := true;
          }
        }
      }
    }

    /** Emits e's terminal record and deletes key k, whose entry (if it has one) is e. */
    method Retire(k: Key, e: Cell, reason: Reason)
      requires ValidExcept(k)
      modifies this
      ensures Valid() && flows == old(flows) - {k} && Repr == old(Repr)
      ensures Model() == Close(old(Model()), k, e.View(), reason)
    {
      Emit(e, reason);
      flows, entries := flows - {k}, entries - {k};
      stats := stats.(closed := stats.closed + 1);
    }

    /** Returns the new entry, which is not in the table if it was itself the eviction victim. */
    method Open(k: Key, p: Packet) returns (e: Cell, ghost victim: Key)
      requires Valid() && k == KeyOf(p).0 && Opens(Model(), p)
      modifies this
      ensures Valid() && fresh(e) && e.View() == NewEntry(opt, old(nextID) + 1, k, p)
      ensures Repr == old(Repr) + {e} && (k in flows ==> e == flows[k])
      ensures Legal(opt, old(Model()), Arrive(p, victim))
      ensures Model() == FlowSpec.Open(opt, old(Model()), p, victim)
    {
      hide Insert, IsOldest, Evict, Absorbed, NewEntry, KeyOf, Cell.View;
      SameSize(flows, entries);
      e := Enter(k, p);
      victim := k;
      if opt.maxFlows > 0 && |flows| > opt.maxFlows {
        victim := EvictOldest();
      }
    }

    /** The insertion half of Open. */
    method Enter(k: Key, p: Packet) returns (e: Cell)
      requires Valid() && k == KeyOf(p).0 && k !in flows
      modifies this
      ensures Valid() && fresh(e) && e.View() == NewEntry(opt, old(nextID) + 1, k, p)
      ensures Repr == old(Repr) + {e} && flows == old(flows)[k := e]
      ensures Model() == Insert(opt, old(Model()), p)
    {
      hide NewEntry, KeyOf, Cell.View, Valid;
      recentDown := recentDown - {k};
      nextID := nextID + 1;
      stats := stats.(started := stats.started + 1);
      e := new Cell(NewEntry(opt, nextID, k, p));
      NewEntryKey(nextID, k, p);
      CellState(e);
      Store(k, e);
    }

    /** flows[k] = e. */
    method Store(k: Key, e: Cell)
      requires Valid() && e !in Repr && e.rec.key == k
      modifies `flows, `entries, `Repr
      ensures Valid() && flows == old(flows)[k := e] && Repr == old(Repr) + {e}
      ensures entries == old(entries)[k := e.View()]
    {
      hide Cell.View;
      flows, entries, Repr := flows[k := e], entries[k := e.View()], Repr + {e};
    }

    ghost method NewEntryKey(id: nat, k: Key, p: Packet)
      requires k == KeyOf(p).0
      ensures NewEntry(opt, id, k, p).rec.key == k
    {}

    method EvictOldest() returns (ghost victim: Key)
      requires Valid() && flows != map[]
      modifies this
      ensures Valid() && victim in old(flows) && flows == old(flows) - {victim} && Repr == old(Repr)
      ensures IsOldest(old(entries), victim)
      ensures Model() == Evict(old(Model()), victim)
    {
      var oldestKey, oldest: Cell? := *, null;
      var keys := flows.Keys;
      while keys != {}
        invariant keys <= flows.Keys
        invariant oldest == null <==> keys == flows.Keys
        invariant oldest != null ==> oldestKey in flows.Keys - keys && oldest == flows[oldestKey]
        invariant oldest != null ==>
                    forall k :: k in flows.Keys - keys ==> oldest.rec.lastSeen <= flows[k].rec.lastSeen
      {
        var k :| k in keys;
        var e := flows[k];
        if oldest == null || e.rec.lastSeen < oldest.rec.lastSeen {
          oldestKey, oldest := k, e;
        }
        keys := keys - {k};
      }
      victim := oldestKey;
      assert forall k :: k in flows ==> k in flows.Keys - keys;
      Retire(oldestKey, oldest, Evicted);
      stats := stats.(evicted := stats.evicted + 1);
    }

    method Fold(e: Cell, p: Packet, forward: bool)
      modifies e
      ensures e.View() == FlowSpec.Fold(old(e.View()), p, forward) && e.rec.key == old(e.rec.key)
    {
      FoldSizes(e, p);
      FoldInterArrival(e, p);
      if forward {
        var d := FoldOneWay(e.rec.fwd, e.lastFwdTS, p);
        e.rec := e.rec.(fwd := d);
        e.lastFwdTS := p.ts;
      } else {
        var d := FoldOneWay(e.rec.bwd, e.lastBwdTS, p);
        e.rec := e.rec.(bwd := d);
        e.lastBwdTS := p.ts;
      }
      var t := FoldFlags(e.rec.tcp, p);
      e.rec := e.rec.(tcp := t);
    }

    method FoldSizes(e: Cell, p: Packet)
      modifies e
      ensures e.View() == old(e.View()).(rec := old(e.rec).(size := FoldSize(old(e.rec).size, p)))
    {
      var z := e.rec.size;
      var size := p.totalLen as real;
      z := z.(sum := z.sum + size);
      z := z.(sumSq := z.sumSq + size * size);
      if p.totalLen < z.min {
        z := z.(min := p.totalLen);
      }
      if p.totalLen > z.max {
        z := z.(max := p.totalLen);
      }
      if p.totalLen <= 100 {
        z := z.(small := z.small + 1);
      }
      if p.totalLen >= 1000 {
        z := z.(large := z.large + 1);
      }
      e.rec := e.rec.(size := z);
    }

    method FoldInterArrival(e: Cell, p: Packet)
      modifies e
      ensures e.View() == old(e.View()).(rec := old(e.rec).(
        iat := FoldGap(old(e.rec).iat, old(e.rec).lastSeen, p.ts),
        lastSeen := if p.ts > old(e.rec).lastSeen then p.ts else old(e.rec).lastSeen))
    {
      if e.rec.lastSeen != ZERO_TIME && p.ts > e.rec.lastSeen {
        var g := e.rec.iat;
        var gap := Seconds(p.ts - e.rec.lastSeen);
        g := g.(sum := g.sum + gap);
        g := g.(sumSq := g.sumSq + gap * gap);
        if g.count == 0 || gap < g.min {
          g := g.(min := gap);
        }
        if gap > g.max {
          g := g.(max := gap);
        }
        g := g.(count := g.count + 1);
        e.rec := e.rec.(iat := g);
      }
      if p.ts > e.rec.lastSeen {
        e.rec := e.rec.(lastSeen := p.ts);
      }
    }

    method FoldOneWay(d0: Direction, last: Time, p: Packet) returns (d: Direction)
      ensures d == FoldDirection(d0, last, p)
    {
      d := d0.(packets := d0.packets + 1);
      d := d.(bytes := d.bytes + p.totalLen);
      d := d.(payload := d.payload + p.payloadLen);
      d := d.(sizeSum := d.sizeSum + p.totalLen as real);
      if last != ZERO_TIME && p.ts > last {
        d := d.(iatSum := d.iatSum + Seconds(p.ts - last));
        d := d.(iatCount := d.iatCount + 1);
      }
    }

    method FoldFlags(t0: Tcp, p: Packet) returns (t: Tcp)
      ensures t == FoldTCP(t0, p)
    {
      t := t0;
      if p.proto == PROTO_TCP {
        var syn, ack, fin, rst, psh, urg := t.syn, t.ack, t.fin, t.rst, t.psh, t.urg;
        if p.flags.syn { syn := syn + 1; }
        if p.flags.ack { ack := ack + 1; }
        if p.flags.fin { fin := fin + 1; }
        if p.flags.rst { rst := rst + 1; }
        if p.flags.psh { psh := psh + 1; }
        if p.flags.urg { urg := urg + 1; }
        t := Tcp(syn, ack, fin, rst, psh, urg,
                 t.initialWindow, t.windowSum + p.window as real, t.windowCount + 1);
      }
    }

    method Tick(now: Time) returns (ghost order: seq<Key>)
      requires Valid()
      modifies this, Repr
      ensures Valid() && Repr == old(Repr)
      ensures Legal(opt, old(Model()), Sweep(now, order))
      ensures Model() == FlowSpec.Tick(opt, old(Model()), now, order)
    {
      hide TickKey, Walked, Cell.View;
      ForgetClosed(now);
      ghost var s0 := Model();
      order := [];
      var keys := flows.Keys;
      WalkStart(s0.flows);
      while keys != {}
        invariant Valid() && Repr == old(Repr) && keys <= flows.Keys
        invariant Walked(order, keys, s0.flows)
        invariant Model() == TickKeys(opt, s0, now, order)
      {
        var k :| k in keys;
        TickOne(k, now);
        assert (order + [k])[..|order|] == order;
        WalkStep(order, keys, s0.flows, k);
        order := order + [k];
        keys := keys - {k};
      }
      WalkDone(order, s0.flows);
    }

    /** The grace-set half of the sweep. */
    method ForgetClosed(now: Time)
      modifies this`recentDown
      ensures recentDown == Forget(old(recentDown), now)
    {
      var keys := recentDown.Keys;
      while keys != {}
        invariant keys <= old(recentDown).Keys
        invariant recentDown == map k | k in old(recentDown) &&
                                        (k in keys || now - old(recentDown)[k] < GRACE_WINDOW) :: old(recentDown)[k]
      {
        var k :| k in keys;
        if now - recentDown[k] >= GRACE_WINDOW {
          recentDown := recentDown - {k};
        }
        keys := keys - {k};
      }
    }

    /** The body of the sweep, for one entry. */
    method TickOne(k: Key, now: Time)
      requires Valid() && k in flows
      modifies this, flows[k]
      ensures Valid() && flows.Keys >= old(flows.Keys) - {k} && Repr == old(Repr)
      ensures Model() == TickKey(opt, old(Model()), now, k)
    {
      hide TakeSnapshot, Close;
      var e := flows[k];
      if opt.maxLifetime > 0 && now - e.rec.firstSeen >= opt.maxLifetime {
        Retire(k, e, MaxLife);
        return;
      }
      if opt.idleTimeout > 0 && now - e.rec.lastSeen >= opt.idleTimeout {
        Retire(k, e, Idle);
        return;
      }
      if opt.snapshotInterval > 0 && e.nextSnapshotAt != ZERO_TIME && now >= e.nextSnapshotAt {
        SnapshotOne(k, e, now);
      }
    }

    method SnapshotOne(k: Key, e: Cell, now: Time)
      requires Valid() && k in flows && flows[k] == e
      modifies this, e
      ensures Valid() && flows == old(flows) && Repr == old(Repr)
      ensures Model() == TakeSnapshot(opt, old(Model()), now, k)
    {
      e.rec := e.rec.(snapshotIndex := e.rec.snapshotIndex + 1);
      EmitSnapshot(e);
      e.nextSnapshotAt := now + opt.snapshotInterval;
      assert e.View() == Snapped(opt, old(e.View()), now);
      assert ValidExcept(k) by { hide Cell.View; }
      hide Snapped;
      Refresh(k);
    }

    method Flush() returns (ghost order: seq<Key>)
      requires Valid()
      modifies this
      ensures Valid() && flows == map[]
      ensures Legal(opt, old(Model()), Drain(order))
      ensures Model() == FlowSpec.Flush(old(Model()), order)
    {
      hide Close, Walked, Cell.View, FlowSpec.Flush;
      order := [];
      ghost var s0 := Model();
      var keys := flows.Keys;
      WalkStart(s0.flows);
      assert Model() == FlowSpec.Flush(s0, []) by { FlushNone(s0); }
      while keys != {}
        invariant Valid() && flows.Keys == keys && Repr == old(Repr)
        invariant Walked(order, keys, s0.flows)
        invariant Model() == FlowSpec.Flush(s0, order)
      {
        var k :| k in keys;
        FlushOne(s0, order, k);
        Retire(k, flows[k], CapEnd);
        WalkStep(order, keys, s0.flows, k);
        order := order + [k];
        keys := keys - {k};
      }
      WalkDone(order, s0.flows);
    }

    method Emit(e: Cell, reason: Reason)
      modifies this`out
      ensures out == old(out) + [EmitAs(e.rec, reason)]
    {
      out := out + [e.rec.(reason := reason)];
    }

    method EmitSnapshot(e: Cell)
      modifies this`out, this`stats
      ensures out == old(out) + [EmitAs(e.rec, Snapshot)]
      ensures stats == old(stats).(snapshots := old(stats).snapshots + 1)
    {
      stats := stats.(snapshots := stats.snapshots + 1);
      out := out + [e.rec.(reason := Snapshot)];
    }
  }

  lemma CellState(c: Cell)
    ensures c.View().rst == c.rst && c.View().finFromInit == c.finFromInit
    ensures c.View().finFromResp == c.finFromResp && c.View().rec == c.rec
  {}

  lemma SameSize<K, V, W>(m: map<K, V>, n: map<K, W>)
    requires m.Keys == n.Keys
    ensures |m| == |n|
  {
    assert |m| == |m.Keys| && |n| == |n.Keys|;
  }

  /** Part-way through a map walk: `order` has been visited and `keys` is still to come. */
  ghost predicate Walked<V>(order: seq<Key>, keys: set<Key>, m: map<Key, V>) {
    && (forall k :: k in m <==> k in order || k in keys)
    && (forall k :: k in order ==> k !in keys)
    && (forall i, j :: 0 <= i < j < |order| ==> order[i] != order[j])
  }

  lemma FlushNone(s: State)
    ensures FlowSpec.Flush(s, []) == s
  {}

  lemma FlushOne(s: State, order: seq<Key>, k: Key)
    ensures FlowSpec.Flush(s, order + [k]) ==
            var s' := FlowSpec.Flush(s, order);
            if k in s'.flows then Close(s', k, s'.flows[k], CapEnd) else s'
  {
    assert (order + [k])[..|order|] == order;
  }

  lemma WalkStart<V>(m: map<Key, V>)
    ensures Walked([], m.Keys, m)
  {}

  lemma WalkStep<V>(order: seq<Key>, keys: set<Key>, m: map<Key, V>, k: Key)
    requires Walked(order, keys, m) && k in keys
    ensures Walked(order + [k], keys - {k}, m)
  {
    assert forall j :: j in order + [k] <==> j in order || j == k;
  }

  lemma WalkDone<V>(order: seq<Key>, m: map<Key, V>)
    requires Walked(order, {}, m)
    ensures Enumerates(order, m)
  {}
}
