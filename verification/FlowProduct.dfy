/** An unbounded flow table is the product of independent one-flow machines, one per key. */
module FlowProduct {
  import opened Common
  import opened Flow
  import opened FlowSpec

  /** What the world does to a table, with the table's own iteration choices forgotten. */
  datatype Input = Arrival(p: Packet) | Clock(now: Time) | End

  /** A machine that knows one key only. Its flow has no table-wide identifier: IDs are all 0. */
  datatype Solo = Solo(live: Option<Entry>, down: Option<Time>, out: seq<Record>)

  const IDLE_SOLO := Solo(None, None, [])

  function SoloDeliver(m: Solo, e: Entry, p: Packet): Solo {
    var e' := Account(e, p);
    if TornDown(e', p) then Solo(None, Some(p.ts), m.out + [EmitAs(e'.rec, FinRst)])
    else m.(live := Some(e'))
  }

  function SoloStep(opt: Options, k: Key, m: Solo, i: Input): Solo {
    match i
    case Arrival(p) =>
      if m.live.Some? then SoloDeliver(m, m.live.value, p)
      else if m.down.Some? && p.ts - m.down.value < GRACE_WINDOW && !(p.proto == PROTO_TCP && p.flags.syn) then m
      else SoloDeliver(m.(down := None), NewEntry(opt, 0, k, p), p)
    case Clock(now) => SoloTick(opt, SoloForget(m, now), now)
    case End => if m.live.Some? then SoloClose(m, CapEnd) else m
  }

  function SoloClose(m: Solo, reason: Reason): Solo
    requires m.live.Some?
  {
    m.(live := None, out := m.out + [EmitAs(m.live.value.rec, reason)])
  }

  function SoloForget(m: Solo, now: Time): Solo {
    if m.down.Some? && now - m.down.value >= GRACE_WINDOW then m.(down := None) else m
  }

  function SoloTick(opt: Options, m: Solo, now: Time): Solo {
    if m.live.None? then m
    else
      var e := m.live.value;
      if OverAge(opt, e, now) then SoloClose(m, MaxLife)
      else if IdleFor(opt, e, now) then SoloClose(m, Idle)
      else if SnapshotDue(opt, e, now) then
        var e' := Snapped(opt, e, now);
        m.(live := Some(e'), out := m.out + [EmitAs(e'.rec, Snapshot)])
      else m
  }

  function SoloRun(opt: Options, k: Key, inputs: seq<Input>): Solo {
    if inputs == [] then IDLE_SOLO
    else SoloStep(opt, k, SoloRun(opt, k, inputs[..|inputs| - 1]), inputs[|inputs| - 1])
  }

  // ---- what one key sees of a table ----

  function Anon(r: Record): Record { r.(id := 0) }

  function AnonEntry(e: Entry): Entry { e.(rec := Anon(e.rec)) }

  /** The records of one key, identifiers erased. */
  function OutOf(out: seq<Record>, k: Key): seq<Record> {
    if out == [] then []
    else
      var r := out[|out| - 1];
      OutOf(out[..|out| - 1], k) + if r.key == k then [Anon(r)] else []
  }

  function Project(s: State, k: Key): Solo {
    Solo(
      if k in s.flows then Some(AnonEntry(s.flows[k])) else None,
      if k in s.recentDown then Some(s.recentDown[k]) else None,
      OutOf(s.out, k))
  }

  function InputOf(ev: Event): Input {
    match ev
    case Arrive(p, _) => Arrival(p)
    case Sweep(now, _) => Clock(now)
    case Drain(_) => End
  }

  function Inputs(evs: seq<Event>): seq<Input> {
    seq(|evs|, i requires 0 <= i < |evs| => InputOf(evs[i]))
  }

  predicate Concerns(i: Input, k: Key) { i.Arrival? ==> KeyOf(i.p).0 == k }

  /** The inputs that a machine for key k alone would be given. */
  function ForKey(inputs: seq<Input>, k: Key): seq<Input> {
    if inputs == [] then []
    else
      var i := inputs[|inputs| - 1];
      ForKey(inputs[..|inputs| - 1], k) + if Concerns(i, k) then [i] else []
  }

  function ForSensor(inputs: seq<Input>, sensor: string): seq<Input> {
    if inputs == [] then []
    else
      var i := inputs[|inputs| - 1];
      ForSensor(inputs[..|inputs| - 1], sensor) +
      if i.Arrival? && i.p.sensor != sensor then [] else [i]
  }

  ghost predicate KeysMatch(s: State) {
    forall k :: k in s.flows ==> s.flows[k].rec.key == k
  }

  // ---- the theorem ----

  lemma OutOfSnoc(out: seq<Record>, r: Record, k: Key)
    ensures OutOf(out + [r], k) == OutOf(out, k) + if r.key == k then [Anon(r)] else []
  {
    assert (out + [r])[..|out|] == out;
  }

  lemma AccountKeeps(e: Entry, p: Packet)
    ensures Account(e, p).rec.key == e.rec.key && Account(e, p).rec.id == e.rec.id
    ensures AnonEntry(Account(e, p)) == Account(AnonEntry(e), p)
  {
    hide FoldSize, FoldGap, FoldDirection, FoldTCP, KeyOf;
  }

  lemma DeliverProjects(s: State, e: Entry, p: Packet, k: Key)
    requires e.rec.key == KeyOf(p).0
    requires KeysMatch(s)
    ensures KeysMatch(Deliver(s, KeyOf(p).0, e, p))
    ensures k != KeyOf(p).0 ==> Project(Deliver(s, KeyOf(p).0, e, p), k) == Project(s, k)
    ensures k == KeyOf(p).0 && k in s.flows ==>
              Project(Deliver(s, k, e, p), k) == SoloDeliver(Project(s, k), AnonEntry(e), p)
  {
    hide Account, KeyOf, OutOf;
    AccountKeeps(e, p);
    OutOfSnoc(s.out, EmitAs(Account(e, p).rec, FinRst), k);
  }

  lemma ArrivalProjects(opt: Options, s: State, p: Packet, victim: Key, k: Key)
    requires KeysMatch(s) && !Overflows(opt, s, p)
    ensures KeysMatch(Observe(opt, s, p, victim))
    ensures Project(Observe(opt, s, p, victim), k) ==
            if KeyOf(p).0 == k then SoloStep(opt, k, Project(s, k), Arrival(p)) else Project(s, k)
  {
    hide Account, Deliver, SoloDeliver, KeyOf, NewEnds;
    var j := KeyOf(p).0;
    if j in s.flows {
      DeliverProjects(s, s.flows[j], p, k);
    } else if !Absorbed(s, p) {
      var s1 := Insert(opt, s, p);
      DeliverProjects(s1, s1.flows[j], p, k);
      if k == j {
        SoloDeliverIgnoresLive(Project(s1, k), Project(s, k).(down := None), AnonEntry(s1.flows[j]), p);
      }
    }
  }

  lemma SoloDeliverIgnoresLive(m: Solo, m': Solo, e: Entry, p: Packet)
    requires m.down == m'.down && m.out == m'.out
    ensures SoloDeliver(m, e, p) == SoloDeliver(m', e, p)
  {}

  lemma TickKeyProjects(opt: Options, s: State, now: Time, j: Key, k: Key)
    requires KeysMatch(s)
    ensures KeysMatch(TickKey(opt, s, now, j))
    ensures Project(TickKey(opt, s, now, j), k) ==
            if j == k then SoloTick(opt, Project(s, k), now) else Project(s, k)
  {
    hide OutOf;
    if j in s.flows {
      var e := s.flows[j];
      OutOfSnoc(s.out, EmitAs(e.rec, MaxLife), k);
      OutOfSnoc(s.out, EmitAs(e.rec, Idle), k);
      OutOfSnoc(s.out, EmitAs(Snapped(opt, e, now).rec, Snapshot), k);
    }
  }

  lemma {:induction false} TickKeysProject(opt: Options, s: State, now: Time, order: seq<Key>, k: Key)
    requires KeysMatch(s)
    requires forall i, j :: 0 <= i < j < |order| ==> order[i] != order[j]
    ensures KeysMatch(TickKeys(opt, s, now, order))
    ensures Project(TickKeys(opt, s, now, order), k) ==
            if k in order then SoloTick(opt, Project(s, k), now) else Project(s, k)
  {
    if order != [] {
      var init, last := order[..|order| - 1], order[|order| - 1];
      TickKeysProject(opt, s, now, init, k);
      TickKeyProjects(opt, TickKeys(opt, s, now, init), now, last, k);
      assert order == init + [last];
    }
  }

  lemma {:induction false} FlushProjects(s: State, order: seq<Key>, k: Key)
    requires KeysMatch(s)
    requires forall i, j :: 0 <= i < j < |order| ==> order[i] != order[j]
    ensures KeysMatch(Flush(s, order))
    ensures Project(Flush(s, order), k) ==
            if k in order && k in s.flows then SoloClose(Project(s, k), CapEnd) else Project(s, k)
  {
    if order != [] {
      var init, last := order[..|order| - 1], order[|order| - 1];
      FlushProjects(s, init, k);
      var s' := Flush(s, init);
      if last in s'.flows {
        OutOfSnoc(s'.out, EmitAs(s'.flows[last].rec, CapEnd), k);
      }
      assert order == init + [last];
      assert k in order <==> k in init || k == last;
    }
  }

  /** One step of the table is, for each key, one step of that key's own machine or none. */
  lemma StepProjects(opt: Options, s: State, ev: Event, k: Key)
    requires KeysMatch(s) && Legal(opt, s, ev)
    requires ev.Arrive? ==> !Overflows(opt, s, ev.p)
    ensures KeysMatch(Step(opt, s, ev))
    ensures Project(Step(opt, s, ev), k) ==
            if Concerns(InputOf(ev), k) then SoloStep(opt, k, Project(s, k), InputOf(ev)) else Project(s, k)
  {
    match ev {
      case Arrive(p, victim) =>
        hide SoloStep, Observe;
        ArrivalProjects(opt, s, p, victim, k);
      case Sweep(now, order) =>
        hide TickKeys, SoloTick;
        var s1 := s.(recentDown := Forget(s.recentDown, now));
        TickKeysProject(opt, s1, now, order, k);
        assert Project(s1, k) == SoloForget(Project(s, k), now);
        if k !in order {
          assert k !in s.flows;
          assert SoloTick(opt, Project(s1, k), now) == Project(s1, k) by { SoloTickIdle(opt, Project(s1, k), now); }
        }
      case Drain(order) =>
        FlushProjects(s, order, k);
    }
  }

  lemma SoloTickIdle(opt: Options, m: Solo, now: Time)
    requires m.live.None?
    ensures SoloTick(opt, m, now) == m
  {}

  /** No packet of the run finds the table full. Every run of an unbounded table is such a run. */
  ghost predicate NeverFull(opt: Options, evs: seq<Event>)
    requires LegalRun(opt, evs)
  {
    evs == [] ||
    (NeverFull(opt, evs[..|evs| - 1]) &&
     (evs[|evs| - 1].Arrive? ==> !Overflows(opt, Run(opt, evs[..|evs| - 1]), evs[|evs| - 1].p)))
  }

  lemma {:induction false} UnboundedIsNeverFull(opt: Options, evs: seq<Event>)
    requires LegalRun(opt, evs) && opt.maxFlows <= 0
    ensures NeverFull(opt, evs)
  {
    if evs != [] {
      UnboundedIsNeverFull(opt, evs[..|evs| - 1]);
    }
  }

  /** The table is the product of its keys: whatever the interleaving and whatever the map
      iteration orders, key k's flow, grace entry and emitted records are those of a machine that
      is given k's packets and the clock and nothing else. */
  lemma {:induction false} TableIsProduct(opt: Options, evs: seq<Event>, k: Key)
    requires LegalRun(opt, evs) && NeverFull(opt, evs)
    ensures KeysMatch(Run(opt, evs))
    ensures Project(Run(opt, evs), k) == SoloRun(opt, k, ForKey(Inputs(evs), k))
  {
    if evs != [] {
      var init, ev := evs[..|evs| - 1], evs[|evs| - 1];
      TableIsProduct(opt, init, k);
      StepProjects(opt, Run(opt, init), ev, k);
      assert Inputs(evs)[..|evs| - 1] == Inputs(init);
      var sel := ForKey(Inputs(init), k);
      assert (sel + [InputOf(ev)])[..|sel|] == sel;
      assert sel + [] == sel;
    }
  }

  lemma {:induction false} SensorHasItsKeys(inputs: seq<Input>, k: Key)
    ensures ForKey(ForSensor(inputs, k.sensor), k) == ForKey(inputs, k)
  {
    if inputs != [] {
      var init, i := inputs[..|inputs| - 1], inputs[|inputs| - 1];
      SensorHasItsKeys(init, k);
      var sel := ForSensor(init, k.sensor);
      if i.Arrival? && i.p.sensor != k.sensor {
        KeyOrientation(i.p);
        assert sel + [] == sel;
      } else {
        assert (sel + [i])[..|sel|] == sel;
      }
    }
  }

  /** One sensor's flows never depend on another sensor's packets, nor on map iteration order: two
      runs that agree on what sensor k.sensor saw agree on everything about key k. */
  lemma SensorIsolation(opt: Options, evs: seq<Event>, evs': seq<Event>, k: Key)
    requires LegalRun(opt, evs) && NeverFull(opt, evs) && LegalRun(opt, evs') && NeverFull(opt, evs')
    requires ForSensor(Inputs(evs), k.sensor) == ForSensor(Inputs(evs'), k.sensor)
    ensures Project(Run(opt, evs), k) == Project(Run(opt, evs'), k)
  {
    TableIsProduct(opt, evs, k);
    TableIsProduct(opt, evs', k);
    SensorHasItsKeys(Inputs(evs), k);
    SensorHasItsKeys(Inputs(evs'), k);
  }

  /** What key k's machine does on an event of the table. */
  function SoloAct(opt: Options, k: Key, m: Solo, ev: Event): Solo {
    if Concerns(InputOf(ev), k) then SoloStep(opt, k, m, InputOf(ev)) else m
  }

  /** Capacity is the one thing that couples keys: an arrival is a step of the product exactly when
      it does not overflow the table. */
  lemma ProductIffRoom(opt: Options, s: State, p: Packet, victim: Key)
    requires KeysMatch(s) && Legal(opt, s, Arrive(p, victim))
    ensures (forall k :: Project(Observe(opt, s, p, victim), k) == SoloAct(opt, k, Project(s, k), Arrive(p, victim)))
            <==> !Overflows(opt, s, p)
  {
    if Overflows(opt, s, p) {
      hide Account, KeyOf, NewEntry, Project, SoloStep;
      var k := KeyOf(p).0;
      var s1 := Evict(Insert(opt, s, p), victim);
      var e := NewEntry(opt, s.nextID + 1, k, p);
      if victim == k {
        NewcomerEvicted(opt, s, p);
      } else {
        DeliverProjects(s1, e, p, victim);
        assert Project(Observe(opt, s, p, victim), victim) == Project(s1, victim);
        assert Project(s1, victim).live.None? && Project(s, victim).live.Some? by { LiveMeansListed(s, s1, victim); }
        assert Project(Observe(opt, s, p, victim), victim) !=
               SoloAct(opt, victim, Project(s, victim), Arrive(p, victim));
      }
    } else {
      forall k ensures Project(Observe(opt, s, p, victim), k) == SoloAct(opt, k, Project(s, k), Arrive(p, victim)) {
        StepProjects(opt, s, Arrive(p, victim), k);
      }
    }
  }

  lemma LiveMeansListed(s: State, s': State, k: Key)
    ensures Project(s, k).live.Some? <==> k in s.flows
    ensures Project(s', k).live.Some? <==> k in s'.flows
  {}

  lemma NewcomerEvicted(opt: Options, s: State, p: Packet)
    requires KeysMatch(s) && Legal(opt, s, Arrive(p, KeyOf(p).0)) && Overflows(opt, s, p)
    ensures var k := KeyOf(p).0;
            Project(Observe(opt, s, p, k), k) != SoloAct(opt, k, Project(s, k), Arrive(p, k))
  {
    hide Account, KeyOf, NewEntry, OutOf, Observe, SoloStep, TornDown;
    NewcomerOut(opt, s, p);
    NewcomerAlone(opt, s, p);
  }

  /** The table lists the newcomer as evicted, and again if its packet is a reset. */
  lemma NewcomerOut(opt: Options, s: State, p: Packet)
    requires Legal(opt, s, Arrive(p, KeyOf(p).0)) && Overflows(opt, s, p)
    ensures var k := KeyOf(p).0;
            var s', e := Observe(opt, s, p, k), NewEntry(opt, s.nextID + 1, k, p);
            k !in s'.flows && |OutOf(s'.out, k)| == |OutOf(s.out, k)| + if TornDown(Account(e, p), p) then 2 else 1
  {
    hide Account, KeyOf, NewEntry, TornDown, OutOf;
    var k := KeyOf(p).0;
    var e := NewEntry(opt, s.nextID + 1, k, p);
    var s1 := Evict(Insert(opt, s, p), k);
    AccountKeeps(e, p);
    OutOfSnoc(s.out, EmitAs(e.rec, Evicted), k);
    OutOfSnoc(s1.out, EmitAs(Account(e, p).rec, FinRst), k);
  }

  /** Alone, it is live, or has one record if its packet is a reset. */
  lemma NewcomerAlone(opt: Options, s: State, p: Packet)
    requires Overflows(opt, s, p)
    ensures var k := KeyOf(p).0;
            var m, e := SoloStep(opt, k, Project(s, k), Arrival(p)), NewEntry(opt, s.nextID + 1, k, p);
            (m.live.None? <==> TornDown(Account(e, p), p)) && (m.live.None? ==> |m.out| == |OutOf(s.out, k)| + 1)
  {
    hide Account, KeyOf, OutOf, NewEnds;
    AccountKeeps(NewEntry(opt, s.nextID + 1, KeyOf(p).0, p), p);
  }
}
