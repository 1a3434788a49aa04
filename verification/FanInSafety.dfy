/** What every run of the fan-in keeps: exact packet accounting, per-source order, and a merged channel that is
    closed once, after the last forwarder is gone. */
module FanInSafety {
  import opened FanIn

  const Kept: Source -> int := (src: Source) => if src.removed then 0 else 1

  // ---- the invariant ----

  ghost predicate Names(m: Manager): (r: bool)
    ensures r ==> Known(m)
  {
    && (forall name :: name in m.names ==>
          m.names[name] < |m.sources| && m.sources[m.names[name]].name == name && !m.sources[m.names[name]].removed)
    && (forall name :: name in m.names <==> name in m.order)
    && (forall i, j :: 0 <= i < j < |m.order| ==> m.order[i] != m.order[j])
    && |m.order| == Sum(m.sources, Kept)
  }

  /** The wait group counts the forwarders; shutdown proceeds in order, and an emptied channel stays empty. */
  ghost predicate Closing(m: Manager) {
    && m.running == Sum(m.sources, Alive)
    && (m.started <==> !m.sampler.Unstarted?)
    && (m.cancelled ==> m.started)
    && (m.sampler.Waiting? || PastWait(m.sampler) ==> m.cancelled)
    && (m.closed <==> m.sampler.Emptying? || m.sampler.Done?)
    && (m.sampler.Done? ==> m.out == [])
    && (forall i :: 0 <= i < |m.sources| ==> (!m.started ==> m.sources[i].phase.Idle?))
    && (forall i :: 0 <= i < |m.sources| ==> (m.started && m.sources[i].phase.Idle? ==> m.sources[i].removed))
  }

  /** What only timely runs keep: once the sampler's wait has returned there are no forwarders, so that nothing is
      sent on the closed channel. */
  ghost predicate Shut(m: Manager) {
    !m.panicked && (PastWait(m.sampler) ==> m.running == 0)
  }

  /** Where every packet is: pulled = sent + held + dropped by a forwarder, and
      sent = consumed + dropped by the sampler + still queued. */
  ghost predicate Ledger(m: Manager) {
    && Sum(m.sources, Pulled) == |m.sent| + Sum(m.sources, Held) + Sum(m.sources, Dropped)
    && m.drops == Sum(m.sources, Dropped) + m.swept
    && |m.sent| == |m.consumed| + m.swept + |m.out|
  }

  function Proj(items: seq<Item>, id: nat): seq<Packet> {
    if items == [] then []
    else if items[|items| - 1].id == id then Proj(items[..|items| - 1], id) + [items[|items| - 1].packet]
    else Proj(items[..|items| - 1], id)
  }

  function StampAll(ps: seq<Packet>, sensor: string): (r: seq<Packet>)
    ensures |r| == |ps|
  {
    seq(|ps|, i requires 0 <= i < |ps| => Stamp(ps[i], sensor))
  }

  function InHand(src: Source): seq<Packet> {
    if src.phase.Holding? then [src.phase.packet] else []
  }

  /** What one source put into the merged channel is what it was given, in order, up to where it stopped; the
      packets it dropped come after. */
  predicate Stream(sent: seq<Item>, src: Source, id: nat) {
    && src.drops <= |src.pulled|
    && (src.phase.Idle? ==> src.pulled == [])
    && (src.phase.Select? || src.phase.Holding? ==> src.drops == 0)
    && Proj(sent, id) + InHand(src) == StampAll(src.pulled[..|src.pulled| - src.drops], src.sensor)
  }

  ghost predicate Streams(m: Manager) {
    && (forall i :: 0 <= i < |m.sent| ==> m.sent[i].id < |m.sources|)
    && (forall id :: 0 <= id < |m.sources| ==> Stream(m.sent, m.sources[id], id))
  }

  predicate Subseq<T(==)>(a: seq<T>, b: seq<T>) {
    a == [] ||
    (b != [] &&
     ((a[|a| - 1] == b[|b| - 1] && Subseq(a[..|a| - 1], b[..|b| - 1])) || Subseq(a, b[..|b| - 1])))
  }

  /** What left the channel is a prefix of what entered it, and the pipeline took it in that order. */
  ghost predicate Order(m: Manager) {
    && |m.out| <= |m.sent| && m.out == m.sent[|m.sent| - |m.out|..]
    && Subseq(m.consumed, m.sent[..|m.sent| - |m.out|])
    && (!m.closed ==> m.swept == 0 && m.consumed == m.sent[..|m.sent| - |m.out|])
  }

  /** The state shown for a source: running while its forwarder forwards (unless it is being removed), never
      afterwards. */
  predicate Truthful(src: Source) {
    && (src.phase.Idle? ==> src.status == Stopped)
    && (src.phase.Select? || src.phase.Holding? ==> src.status == Running || (src.removed && src.status == Stopped))
    && (src.phase.Draining? || src.phase.Exited? ==> src.status != Running)
  }

  ghost predicate Statuses(m: Manager) { forall i :: 0 <= i < |m.sources| ==> Truthful(m.sources[i]) }

  ghost predicate Inv(m: Manager) {
    Names(m) && Closing(m) && Ledger(m) && Streams(m) && Order(m) && Statuses(m)
  }

  lemma NewInv(buf: nat)
    ensures Inv(NewManager(buf)) && Shut(NewManager(buf))
  {}

  // ---- names ----

  lemma {:induction false} WithoutOne(order: seq<string>, name: string)
    requires name in order && forall i, j :: 0 <= i < j < |order| ==> order[i] != order[j]
    ensures |Without(order, name)| == |order| - 1
    ensures forall other :: other in Without(order, name) <==> other in order && other != name
    ensures var r := Without(order, name);
            forall i, j :: 0 <= i < j < |r| ==> r[i] != r[j]
  {
    var rest := order[1..];
    assert order == [order[0]] + rest;
    if order[0] == name {
      forall other ensures other in rest <==> other in order && other != name {}
    } else {
      WithoutOne(rest, name);
      var less := Without(rest, name);
      assert order[0] !in rest;
      assert Without(order, name) == [order[0]] + less;
    }
  }

  lemma NamesSame(m: Manager, m': Manager)
    requires Names(m) && m'.names == m.names && m'.order == m.order && |m'.sources| == |m.sources|
    requires forall i :: 0 <= i < |m.sources| ==>
               m'.sources[i].removed == m.sources[i].removed && m'.sources[i].name == m.sources[i].name
    ensures Names(m')
  {
    hide Sum;
    SumSame(m.sources, Kept, m'.sources, Kept);
  }

  lemma NamesAdd(m: Manager, name: string, sensor: string)
    requires Names(m)
    ensures Names(Register(m, name, sensor))
  {
    var src := Source(name, sensor, Idle, Stopped, false, true, 0, []);
    hide Sum, Names;
    SumSnoc(m.sources, Kept, src);
    SumSnoc(m.sources, Kept, Launch(src));
    if name != "" && name !in m.names {
      NamesGrow(m, Register(m, name, sensor), name);
    }
  }

  lemma NamesGrow(m: Manager, m': Manager, name: string)
    requires Names(m) && name !in m.names && m'.order == m.order + [name] && m'.names == m.names[name := |m.sources|]
    requires |m'.sources| == |m.sources| + 1 && m'.sources[..|m.sources|] == m.sources
    requires m'.sources[|m.sources|].name == name && !m'.sources[|m.sources|].removed
    requires Sum(m'.sources, Kept) == Sum(m.sources, Kept) + 1
    ensures Names(m')
  {
    hide Sum;
    assert forall i :: 0 <= i < |m.sources| ==> m'.sources[i] == m.sources[i];
  }

  lemma NamesRemove(m: Manager, name: string)
    requires Names(m)
    ensures Names(Deregister(m, name))
  {
    if name in m.names {
      var id := m.names[name];
      WithoutOne(m.order, name);
      SumUpdate(m.sources, Kept, id, m.sources[id].(removed := true));
    }
  }

  lemma NamesStart(m: Manager, already: bool)
    requires Names(m)
    ensures Names(Begin(m, already))
  {
    hide Names;
    NamesSame(m, Begin(m, already));
  }

  lemma NamesForward(m: Manager, id: nat, act: Act)
    requires Names(m) && id < |m.sources|
    ensures Names(Moved(m, id, act)) && Names(m.(panicked := true))
  {
    hide Names;
    NamesSame(m, Moved(m, id, act));
    NamesSame(m, m.(panicked := true));
  }

  lemma NamesStep(m: Manager, step: Step)
    requires Names(m) && Enabled(m, step)
    ensures Names(Next(m, step))
  {
    hide Names, Sum, Register, Deregister, Moved, Begin;
    match step
    case Add(name, sensor) => NamesAdd(m, name, sensor);
    case Remove(name) => NamesRemove(m, name);
    case Start(already) => NamesStart(m, already);
    case Forward(id, act) => NamesForward(m, id, act);
    case _ => NamesSame(m, Next(m, step));
  }

  // ---- closing ----

  /** A forwarder that can act is counted. */
  lemma ActorsAlive(m: Manager, id: nat, act: Act)
    requires Closing(m) && id < |m.sources| && Ready(m, m.sources[id], act)
    ensures m.running > 0 && m.started
  {
    hide Sum;
    SumNonNegative(m.sources, Alive);
    assert Alive(m.sources[id]) == 1;
  }

  lemma ClosingForward(m: Manager, id: nat, act: Act)
    requires Closing(m) && id < |m.sources| && Ready(m, m.sources[id], act) && !(act.Send? && m.closed)
    ensures Closing(Moved(m, id, act))
  {
    hide Sum;
    ActorsAlive(m, id, act);
    SumUpdate(m.sources, Alive, id, After(m.sources[id], act));
  }

  lemma ClosingAdd(m: Manager, name: string, sensor: string)
    requires Closing(m)
    ensures Closing(Register(m, name, sensor))
  {
    hide Sum;
    var src := Source(name, sensor, Idle, Stopped, false, true, 0, []);
    SumSnoc(m.sources, Alive, src);
    SumSnoc(m.sources, Alive, Launch(src));
  }

  lemma ClosingRemove(m: Manager, name: string)
    requires Names(m) && Closing(m)
    ensures Closing(Deregister(m, name))
  {
    hide Sum, Without;
    if name in m.names {
      var id := m.names[name];
      SumUpdate(m.sources, Alive, id, m.sources[id].(removed := true));
    }
  }

  /** Packets launches one forwarder for every registered source. */
  lemma ClosingStart(m: Manager, already: bool)
    requires Names(m) && Closing(m)
    ensures Closing(Begin(m, already))
  {
    hide Sum;
    if !m.started {
      SumSame(m.sources, Kept, Begin(m, already).sources, Alive);
      NoneAlive(m.sources);
    }
  }

  lemma NoneAlive(sources: seq<Source>)
    requires forall i :: 0 <= i < |sources| ==> sources[i].phase.Idle?
    ensures Sum(sources, Alive) == 0
  {
    SumZero(sources, Alive);
  }

  lemma {:induction false} SumZero(sources: seq<Source>, f: Source -> int)
    requires forall i :: 0 <= i < |sources| ==> f(sources[i]) == 0
    ensures Sum(sources, f) == 0
  {
    if sources != [] {
      SumZero(sources[..|sources| - 1], f);
    }
  }

  lemma ClosingStep(m: Manager, step: Step)
    requires Names(m) && Closing(m) && Enabled(m, step)
    ensures Closing(Next(m, step))
  {
    hide Sum, Names, Register, Deregister, Moved, Begin, After, Ready;
    match step
    case Add(name, sensor) => ClosingAdd(m, name, sensor);
    case Remove(name) => ClosingRemove(m, name);
    case Start(already) => ClosingStart(m, already);
    case Forward(id, act) =>
      if !(act.Send? && m.closed) {
        ClosingForward(m, id, act);
      }
    case Forget(id) => SumUpdate(m.sources, Alive, id, m.sources[id].(status := Stopped));
    case SourceCloses(id) => SumUpdate(m.sources, Alive, id, m.sources[id].(open := false));
    case _ =>
  }

  /** A timely step keeps the channel open for every forwarder there is. */
  lemma ShutStep(m: Manager, step: Step)
    requires Names(m) && Closing(m) && Shut(m) && Enabled(m, step) && Timely(m, step)
    ensures Shut(Next(m, step))
  {
    hide Names, Sum, Without, Ready, After;
    if step.Forward? {
      ActorsAlive(m, step.id, step.act);
    }
  }

  // ---- the ledger ----

  lemma SumsUpdate(m: Manager, id: nat, src: Source)
    requires id < |m.sources|
    ensures var s := m.sources[id := src];
            && Sum(s, Pulled) == Sum(m.sources, Pulled) - Pulled(m.sources[id]) + Pulled(src)
            && Sum(s, Held) == Sum(m.sources, Held) - Held(m.sources[id]) + Held(src)
            && Sum(s, Dropped) == Sum(m.sources, Dropped) - Dropped(m.sources[id]) + Dropped(src)
  {
    hide Sum;
    SumUpdate(m.sources, Pulled, id, src);
    SumUpdate(m.sources, Held, id, src);
    SumUpdate(m.sources, Dropped, id, src);
  }

  lemma LedgerForward(m: Manager, id: nat, act: Act)
    requires Ledger(m) && id < |m.sources| && Ready(m, m.sources[id], act)
    ensures Ledger(Moved(m, id, act))
  {
    hide Sum;
    SumsUpdate(m, id, After(m.sources[id], act));
  }

  lemma LedgerAdd(m: Manager, name: string, sensor: string)
    requires Ledger(m)
    ensures Ledger(Register(m, name, sensor))
  {
    hide Sum;
    var src := Source(name, sensor, Idle, Stopped, false, true, 0, []);
    SumSnoc(m.sources, Pulled, src);
    SumSnoc(m.sources, Held, src);
    SumSnoc(m.sources, Dropped, src);
    SumSnoc(m.sources, Pulled, Launch(src));
    SumSnoc(m.sources, Held, Launch(src));
    SumSnoc(m.sources, Dropped, Launch(src));
  }

  lemma LedgerRemove(m: Manager, name: string)
    requires Ledger(m) && Names(m)
    ensures Ledger(Deregister(m, name))
  {
    hide Sum, Without;
    if name in m.names {
      SumsUpdate(m, m.names[name], m.sources[m.names[name]].(removed := true));
    }
  }

  lemma LedgerStart(m: Manager, already: bool)
    requires Ledger(m) && Closing(m)
    ensures Ledger(Begin(m, already))
  {
    hide Sum;
    if !m.started {
      var after := Begin(m, already).sources;
      SumSame(m.sources, Pulled, after, Pulled);
      SumSame(m.sources, Held, after, Held);
      SumSame(m.sources, Dropped, after, Dropped);
    }
  }

  lemma LedgerStep(m: Manager, step: Step)
    requires Names(m) && Closing(m) && Ledger(m) && Enabled(m, step)
    ensures Ledger(Next(m, step))
  {
    hide Sum, Names, Closing, Register, Deregister, Moved, Begin, After, Ready;
    match step
    case Add(name, sensor) => LedgerAdd(m, name, sensor);
    case Remove(name) => LedgerRemove(m, name);
    case Start(already) => LedgerStart(m, already);
    case Forward(id, act) => LedgerForward(m, id, act);
    case Forget(id) => SumsUpdate(m, id, m.sources[id].(status := Stopped));
    case SourceCloses(id) => SumsUpdate(m, id, m.sources[id].(open := false));
    case _ =>
  }

  // ---- one source's packets, in order ----

  lemma ProjSnoc(items: seq<Item>, item: Item, id: nat)
    ensures Proj(items + [item], id) == if item.id == id then Proj(items, id) + [item.packet] else Proj(items, id)
  {
    assert (items + [item])[..|items|] == items;
  }

  lemma {:induction false} ProjNone(items: seq<Item>, id: nat)
    requires forall i :: 0 <= i < |items| ==> items[i].id != id
    ensures Proj(items, id) == []
  {
    if items != [] {
      ProjNone(items[..|items| - 1], id);
    }
  }

  lemma StampSnoc(ps: seq<Packet>, p: Packet, sensor: string)
    ensures StampAll(ps + [p], sensor) == StampAll(ps, sensor) + [Stamp(p, sensor)]
  {}

  /** One more packet pulled, before anything was dropped. */
  lemma StreamPull(sent: seq<Item>, src: Source, id: nat, p: Packet)
    requires Stream(sent, src, id) && src.phase.Select?
    ensures Stream(sent, After(src, Pull(p)), id)
  {
    hide Proj, StampAll;
    var pulled := src.pulled + [p];
    assert src.pulled[..|src.pulled|] == src.pulled && pulled[..|pulled|] == pulled;
    StampSnoc(src.pulled, p, src.sensor);
  }

  /** The packet in hand goes into the channel. */
  lemma StreamSend(sent: seq<Item>, src: Source, id: nat)
    requires Stream(sent, src, id) && src.phase.Holding?
    ensures Stream(sent + [Item(id, src.phase.packet)], After(src, Send), id)
  {
    hide Proj, StampAll;
    ProjSnoc(sent, Item(id, src.phase.packet), id);
  }

  /** The packet in hand is the first one dropped. */
  lemma StreamGiveUp(sent: seq<Item>, src: Source, id: nat)
    requires Stream(sent, src, id) && src.phase.Holding?
    ensures Stream(sent, After(src, GiveUp), id)
  {
    hide Proj, StampAll;
    var n, last := |src.pulled|, src.phase.packet;
    assert src.pulled[..n] == src.pulled;
    var stamped := StampAll(src.pulled, src.sensor);
    assert stamped == Proj(sent, id) + [last];
    assert n > 0;
    assert src.pulled == src.pulled[..n - 1] + [src.pulled[n - 1]];
    StampSnoc(src.pulled[..n - 1], src.pulled[n - 1], src.sensor);
    assert stamped[..n - 1] == Proj(sent, id) && stamped[..n - 1] == StampAll(src.pulled[..n - 1], src.sensor);
  }

  /** One more packet pulled and dropped. */
  lemma StreamDiscard(sent: seq<Item>, src: Source, id: nat, p: Packet)
    requires Stream(sent, src, id) && src.phase.Draining?
    ensures Stream(sent, After(src, Discard(p)), id)
  {
    hide Proj, StampAll;
    var n := |src.pulled| - src.drops;
    assert (src.pulled + [p])[..n] == src.pulled[..n];
  }

  lemma StreamForward(sent: seq<Item>, src: Source, id: nat, m: Manager, act: Act)
    requires Stream(sent, src, id) && Ready(m, src, act)
    ensures Stream(sent + Emits(src, id, act), After(src, act), id)
  {
    hide Proj, StampAll;
    assert sent + [] == sent;
    match act
    case Pull(p) => StreamPull(sent, src, id, p);
    case Send => StreamSend(sent, src, id);
    case GiveUp => StreamGiveUp(sent, src, id);
    case Discard(p) => StreamDiscard(sent, src, id, p);
    case _ =>
  }

  lemma StreamsForward(m: Manager, id: nat, act: Act)
    requires Streams(m) && id < |m.sources| && Ready(m, m.sources[id], act)
    ensures Streams(Moved(m, id, act))
  {
    hide Proj, Ready, After, StampAll;
    var src, m' := m.sources[id], Moved(m, id, act);
    StreamForward(m.sent, src, id, m, act);
    forall other | 0 <= other < |m.sources| && other != id
      ensures Proj(m'.sent, other) == Proj(m.sent, other)
    {
      if act.Send? && src.phase.Holding? {
        ProjSnoc(m.sent, Item(id, src.phase.packet), other);
      } else {
        assert m.sent + [] == m.sent;
      }
    }
  }

  lemma StreamsAdd(m: Manager, name: string, sensor: string)
    requires Streams(m)
    ensures Streams(Register(m, name, sensor))
  {
    hide Proj;
    ProjNone(m.sent, |m.sources|);
    assert StampAll([], sensor) == [];
  }

  lemma StreamsSame(m: Manager, m': Manager)
    requires Streams(m) && m'.sent == m.sent && |m'.sources| == |m.sources|
    requires forall i :: 0 <= i < |m.sources| ==>
               m'.sources[i].(status := m.sources[i].status, removed := m.sources[i].removed,
                              open := m.sources[i].open) == m.sources[i]
    ensures Streams(m')
  {
    hide Proj, StampAll;
  }

  lemma StreamsRemove(m: Manager, name: string)
    requires Known(m) && Streams(m)
    ensures Streams(Deregister(m, name))
  {
    hide Streams, Without;
    StreamsSame(m, Deregister(m, name));
  }

  lemma StreamsStart(m: Manager, already: bool)
    requires Closing(m) && Streams(m)
    ensures Streams(Begin(m, already))
  {
    hide Proj, StampAll, Sum;
  }

  lemma StreamsStep(m: Manager, step: Step)
    requires Names(m) && Closing(m) && Streams(m) && Enabled(m, step)
    ensures Streams(Next(m, step))
  {
    hide Names, Closing, Streams, Moved, After, Ready, Register, Deregister, Begin;
    match step
    case Add(name, sensor) => StreamsAdd(m, name, sensor);
    case Remove(name) => StreamsRemove(m, name);
    case Start(already) => StreamsStart(m, already);
    case Forward(id, act) =>
      if act.Send? && m.closed {
        StreamsSame(m, Next(m, step));
      } else {
        StreamsForward(m, id, act);
      }
    case _ => StreamsSame(m, Next(m, step));
  }

  // ---- the merged channel ----

  lemma SubseqSnoc<T>(a: seq<T>, b: seq<T>, x: T)
    requires Subseq(a, b)
    ensures Subseq(a, b + [x]) && Subseq(a + [x], b + [x])
  {
    assert (b + [x])[..|b|] == b && (a + [x])[..|a|] == a;
  }

  lemma OrderForward(m: Manager, id: nat, act: Act)
    requires Order(m) && id < |m.sources|
    ensures Order(Moved(m, id, act))
  {
    hide Subseq, After;
    var k, e := |m.sent| - |m.out|, Emits(m.sources[id], id, act);
    assert (m.sent + e)[k..] == m.sent[k..] + e && (m.sent + e)[..k] == m.sent[..k];
  }

  lemma OrderSame(m: Manager, m': Manager)
    requires Order(m) && m'.sent == m.sent && m'.out == m.out && m'.consumed == m.consumed && m'.swept == m.swept
    requires m.closed ==> m'.closed
    ensures Order(m')
  {}

  lemma OrderTakes(m: Manager, m': Manager, swept: bool)
    requires Order(m) && m.out != [] && m'.out == m.out[1..] && m'.sent == m.sent && m'.closed == m.closed
    requires if swept then m.closed && m'.consumed == m.consumed && m'.swept == m.swept + 1
             else m'.consumed == m.consumed + [m.out[0]] && m'.swept == m.swept
    ensures Order(m')
  {
    hide Subseq;
    Taken(m);
  }

  lemma RegistrationKeeps(m: Manager, step: Step)
    requires Known(m) && Order(m) && Enabled(m, step) && (step.Add? || step.Remove? || step.Start?)
    ensures Order(Next(m, step))
  {
    hide Order, Without;
    OrderSame(m, Next(m, step));
  }

  lemma OrderStep(m: Manager, step: Step)
    requires Names(m) && Closing(m) && Order(m) && Enabled(m, step)
    ensures Order(Next(m, step))
  {
    hide Sum, Names, After, Ready, Order, Register, Deregister, Begin;
    match step
    case Add(name, sensor) => RegistrationKeeps(m, step);
    case Remove(name) => RegistrationKeeps(m, step);
    case Start(already) => RegistrationKeeps(m, step);
    case Forward(id, act) =>
      if act.Send? && m.closed {
        OrderSame(m, Next(m, step));
      } else {
        OrderForward(m, id, act);
      }
    case Sweep => OrderTakes(m, Next(m, step), true);
    case Consume => OrderTakes(m, Next(m, step), false);
    case _ => OrderSame(m, Next(m, step));
  }

  lemma Taken(m: Manager)
    requires Order(m) && m.out != []
    ensures var k := |m.sent| - |m.out|;
            && m.sent[..k + 1] == m.sent[..k] + [m.out[0]] && m.out[1..] == m.sent[k + 1..]
            && Subseq(m.consumed, m.sent[..k + 1]) && Subseq(m.consumed + [m.out[0]], m.sent[..k + 1])
  {
    hide Subseq;
    var k := |m.sent| - |m.out|;
    TakenPrefix(m.sent, m.out, k);
    SubseqSnoc(m.consumed, m.sent[..k], m.out[0]);
  }

  lemma TakenPrefix(sent: seq<Item>, out: seq<Item>, k: nat)
    requires k < |sent| && out == sent[k..]
    ensures sent[..k + 1] == sent[..k] + [out[0]] && out[1..] == sent[k + 1..]
  {}

  // ---- what is shown ----

  lemma StatusesForward(m: Manager, id: nat, act: Act)
    requires Statuses(m) && id < |m.sources| && Ready(m, m.sources[id], act)
    ensures Statuses(Moved(m, id, act))
  {
    assert Truthful(After(m.sources[id], act));
  }

  lemma StatusesStep(m: Manager, step: Step)
    requires Names(m) && Closing(m) && Statuses(m) && Enabled(m, step)
    ensures Statuses(Next(m, step))
  {
    hide Names, Sum, Without, Moved, Ready, After;
    if step.Forward? {
      StatusesForward(m, step.id, step.act);
    }
  }

  // ---- every run ----

  lemma StepInv(m: Manager, step: Step)
    requires Inv(m) && Enabled(m, step)
    ensures Inv(Next(m, step))
    ensures Shut(m) && Timely(m, step) ==> Shut(Next(m, step))
  {
    hide Names, Closing, Shut, Ledger, Streams, Order, Statuses, Next, Enabled, Timely;
    NamesStep(m, step);
    ClosingStep(m, step);
    LedgerStep(m, step);
    StreamsStep(m, step);
    OrderStep(m, step);
    StatusesStep(m, step);
    if Shut(m) && Timely(m, step) {
      ShutStep(m, step);
    }
  }

  lemma {:induction false} RunInv(m: Manager, steps: seq<Step>, m': Manager)
    requires Inv(m) && IsRun(m, steps, m')
    ensures Inv(m')
    decreases |steps|
  {
    hide Inv, Next, Enabled;
    if steps != [] {
      StepInv(m, steps[0]);
      RunInv(Next(m, steps[0]), steps[1..], m');
    }
  }

  lemma {:induction false} TimelyRunInv(m: Manager, steps: seq<Step>, m': Manager)
    requires Inv(m) && Shut(m) && TimelyRun(m, steps, m')
    ensures Inv(m') && Shut(m')
    decreases |steps|
  {
    hide Inv, Shut, Next, Enabled, Timely;
    if steps != [] {
      StepInv(m, steps[0]);
      TimelyRunInv(Next(m, steps[0]), steps[1..], m');
    }
  }
}
