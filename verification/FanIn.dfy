/** The capture manager (internal/capture/manager.go) as a transition system: one forwarder per source, the rate
    sampler that closes the merged channel, the pipeline that reads it, and the callers of Add, Remove, Packets
    and Close. Every statement that another goroutine can observe is one step. */
module FanIn {

  datatype Packet = Packet(sensor: string, body: int)

  datatype Status = Running | Failed | Stopped

  /** Where a forwarder stands: not launched, in its select, holding one packet it pulled and stamped,
      discarding what the source still has, or gone. */
  datatype Phase = Idle | Select | Holding(packet: Packet) | Draining | Exited

  /** open says whether the source's packet channel may still deliver; it is false once the source has closed it and
      nothing is left in it. pulled is history: everything the forwarder took from its source, as the source gave it. */
  datatype Source = Source(name: string, sensor: string, phase: Phase, status: Status, removed: bool, open: bool,
                           drops: nat, pulled: seq<Packet>)

  datatype Item = Item(id: nat, packet: Packet)

  /** Where the sampler stands: in its wait for the forwarders, past it, discarding what is left in the closed
      channel, or gone. */
  datatype Sampler = Unstarted | Ticking | Waiting | Waited | Emptying | Done

  /** sources holds every source ever registered; names and order only those still registered. running is the
      forwarders' wait group. panicked records a send on, or a second close of, the closed merged channel.
      sent, consumed and swept are history: what entered the merged channel, what the pipeline took out, and
      how many the sampler took out. */
  datatype Manager = Manager(
    cap: nat, names: map<string, nat>, order: seq<string>, sources: seq<Source>,
    started: bool, cancelled: bool, running: int, sampler: Sampler, closed: bool, panicked: bool,
    out: seq<Item>, drops: nat,
    sent: seq<Item>, consumed: seq<Item>, swept: nat)

  /** What a forwarder can do next. */
  datatype Act =
    | Pull(packet: Packet)
    | SourceEnds(failed: bool)               // the packet channel is closed; pendingErr
    | SourceFails
    | SeeCancel
    | Send
    | GiveUp
    | Discard(packet: Packet)
    | DrainEnds

  datatype Step =
    | Add(name: string, sensor: string)
    | Remove(name: string)
    | Forget(id: nat)                        // the last statement of Remove
    | Start(alreadyCancelled: bool)          // Packets
    | Cancel
    | SourceCloses(id: nat)                  // the source's own act
    | Forward(id: nat, act: Act)
    | SamplerSeesCancel
    | WaitReturns
    | CloseOut
    | Sweep
    | SamplerEnds
    | Consume

  function NewManager(buf: nat): Manager {
    Manager(buf, map[], [], [], false, false, 0, Unstarted, false, false, [], 0, [], [], 0)
  }

  /** The backstop of the packet path: a source's identity never overwrites what the packet says. */
  function Stamp(p: Packet, sensor: string): Packet {
    if p.sensor == "" && sensor != "" then p.(sensor := sensor) else p
  }

  function Launch(src: Source): Source { src.(phase := Select, status := Running) }

  function Without(order: seq<string>, name: string): seq<string> {
    if order == [] then []
    else if order[0] == name then order[1..]
    else [order[0]] + Without(order[1..], name)
  }

  // ---- one forwarder ----

  predicate Ready(m: Manager, src: Source, act: Act) {
    match act
    case Pull(_) => src.phase.Select? && src.open
    case SourceEnds(_) => src.phase.Select? && !src.open
    case SourceFails => src.phase.Select?
    case SeeCancel => src.phase.Select? && m.cancelled
    case Send => src.phase.Holding? && (|m.out| < m.cap || m.closed)
    case GiveUp => src.phase.Holding? && m.cancelled
    case Discard(_) => src.phase.Draining? && src.open
    case DrainEnds => src.phase.Draining? && !src.open
  }

  function After(src: Source, act: Act): Source {
    match act
    case Pull(p) => src.(phase := Holding(Stamp(p, src.sensor)), pulled := src.pulled + [p])
    case SourceEnds(failed) =>
      src.(phase := Exited, status := if failed then Failed else if src.status == Running then Stopped else src.status)
    case SourceFails => src.(phase := Draining, status := Failed)
    case SeeCancel => src.(phase := Draining, status := Stopped)
    case Send => src.(phase := Select)
    case GiveUp => src.(phase := Draining, status := Stopped, drops := src.drops + 1)
    case Discard(p) => src.(pulled := src.pulled + [p], drops := src.drops + 1)
    case DrainEnds => src.(phase := Exited)
  }

  function Emits(src: Source, id: nat, act: Act): seq<Item> {
    if act.Send? && src.phase.Holding? then [Item(id, src.phase.packet)] else []
  }

  function Drops(act: Act): nat { if act.GiveUp? || act.Discard? then 1 else 0 }

  function Exits(act: Act): nat { if act.SourceEnds? || act.DrainEnds? then 1 else 0 }

  function Moved(m: Manager, id: nat, act: Act): Manager
    requires id < |m.sources|
  {
    var src := m.sources[id];
    m.(sources := m.sources[id := After(src, act)], running := m.running - Exits(act), drops := m.drops + Drops(act),
       out := m.out + Emits(src, id, act), sent := m.sent + Emits(src, id, act))
  }

  // ---- the manager ----

  /** A panic ends the process. */
  predicate Enabled(m: Manager, step: Step) {
    && !m.panicked
    && match step
       case Add(_, _) => true
       case Remove(_) => true
       case Forget(id) => id < |m.sources| && m.sources[id].removed
       case Start(_) => true
       case Cancel => m.started
       case SourceCloses(id) => id < |m.sources| && m.sources[id].open && Alive(m.sources[id]) == 1
       case Forward(id, act) => id < |m.sources| && Ready(m, m.sources[id], act)
       case SamplerSeesCancel => m.sampler.Ticking? && m.cancelled
       case WaitReturns => m.sampler.Waiting? && m.running == 0
       case CloseOut => m.sampler.Waited?
       case Sweep => m.sampler.Emptying? && m.out != []
       case SamplerEnds => m.sampler.Emptying? && m.out == []
       case Consume => m.out != []
  }

  predicate Known(m: Manager) {
    forall name :: name in m.names ==> m.names[name] < |m.sources|
  }

  function Register(m: Manager, name: string, sensor: string): Manager {
    if name == "" || name in m.names then m
    else
      var src := Source(name, sensor, Idle, Stopped, false, true, 0, []);
      var m' := m.(names := m.names[name := |m.sources|], order := m.order + [name]);
      if m.started then m'.(sources := m.sources + [Launch(src)], running := m.running + 1)
      else m'.(sources := m.sources + [src])
  }

  function Deregister(m: Manager, name: string): Manager
    requires name in m.names ==> m.names[name] < |m.sources|
  {
    if name !in m.names then m
    else
      var id := m.names[name];
      m.(names := m.names - {name}, order := Without(m.order, name),
         sources := m.sources[id := m.sources[id].(removed := true)])
  }

  /** Packets launches what is still registered; a source removed before that is never launched. */
  function Begin(m: Manager, alreadyCancelled: bool): Manager {
    if m.started then m
    else
      m.(started := true, cancelled := alreadyCancelled, sampler := Ticking,
         running := m.running + |m.order|,
         sources := seq(|m.sources|, i requires 0 <= i < |m.sources| =>
                          var src := m.sources[i];
                          if src.removed then src else Launch(src)))
  }

  function Next(m: Manager, step: Step): Manager
    requires Enabled(m, step)
    requires Known(m)
  {
    match step
    case Add(name, sensor) => Register(m, name, sensor)
    case Remove(name) => Deregister(m, name)
    case Forget(id) => m.(sources := m.sources[id := m.sources[id].(status := Stopped)])
    case Start(already) => Begin(m, already)
    case Cancel => m.(cancelled := true)
    case SourceCloses(id) => m.(sources := m.sources[id := m.sources[id].(open := false)])
    case Forward(id, act) => if act.Send? && m.closed then m.(panicked := true) else Moved(m, id, act)
    case SamplerSeesCancel => m.(sampler := Waiting)
    case WaitReturns => m.(sampler := Waited)
    case CloseOut => if m.closed then m.(panicked := true) else m.(closed := true, sampler := Emptying)
    case Sweep => m.(out := m.out[1..], drops := m.drops + 1, swept := m.swept + 1)
    case SamplerEnds => m.(sampler := Done)
    case Consume => m.(out := m.out[1..], consumed := m.consumed + [m.out[0]])
  }

  /** The sampler's wait for the forwarders has returned; the close follows, whoever is launched in between. */
  predicate PastWait(sampler: Sampler) { sampler.Waited? || sampler.Emptying? || sampler.Done? }

  /** Add launches without looking at the context. It is timely unless it launches a forwarder after the sampler's
      wait has returned. */
  predicate Timely(m: Manager, step: Step) {
    step.Add? && m.started && PastWait(m.sampler) ==> step.name == "" || step.name in m.names
  }

  ghost predicate IsRun(m: Manager, steps: seq<Step>, m': Manager)
    decreases |steps|
  {
    if steps == [] then m' == m
    else Known(m) && Enabled(m, steps[0]) && IsRun(Next(m, steps[0]), steps[1..], m')
  }

  /** A run in which no Add comes too late. */
  ghost predicate TimelyRun(m: Manager, steps: seq<Step>, m': Manager)
    decreases |steps|
  {
    if steps == [] then m' == m
    else
      && Known(m) && Enabled(m, steps[0]) && Timely(m, steps[0])
      && TimelyRun(Next(m, steps[0]), steps[1..], m')
  }

  // ---- sums over the sources ----

  function Sum(sources: seq<Source>, f: Source -> int): int {
    if sources == [] then 0 else Sum(sources[..|sources| - 1], f) + f(sources[|sources| - 1])
  }

  lemma {:induction false} SumUpdate(sources: seq<Source>, f: Source -> int, id: nat, src: Source)
    requires id < |sources|
    ensures Sum(sources[id := src], f) == Sum(sources, f) - f(sources[id]) + f(src)
  {
    var n := |sources| - 1;
    if id < n {
      SumUpdate(sources[..n], f, id, src);
      assert sources[id := src][..n] == sources[..n][id := src];
    } else {
      assert sources[id := src][..n] == sources[..n];
    }
  }

  lemma SumSnoc(sources: seq<Source>, f: Source -> int, src: Source)
    ensures Sum(sources + [src], f) == Sum(sources, f) + f(src)
  {
    assert (sources + [src])[..|sources|] == sources;
  }

  lemma {:induction false} SumSame(before: seq<Source>, f: Source -> int, after: seq<Source>, g: Source -> int)
    requires |before| == |after| && forall i :: 0 <= i < |before| ==> f(before[i]) == g(after[i])
    ensures Sum(before, f) == Sum(after, g)
  {
    if before != [] {
      SumSame(before[..|before| - 1], f, after[..|after| - 1], g);
    }
  }

  lemma {:induction false} SumNonNegative(sources: seq<Source>, f: Source -> int)
    requires forall i :: 0 <= i < |sources| ==> f(sources[i]) >= 0
    ensures Sum(sources, f) >= 0
    ensures forall i :: 0 <= i < |sources| ==> f(sources[i]) <= Sum(sources, f)
  {
    if sources != [] {
      SumNonNegative(sources[..|sources| - 1], f);
    }
  }

  const Pulled: Source -> int := (src: Source) => |src.pulled|
  const Dropped: Source -> int := (src: Source) => src.drops
  const Held: Source -> int := (src: Source) => if src.phase.Holding? then 1 else 0
  const Alive: Source -> int := (src: Source) => if src.phase.Idle? || src.phase.Exited? then 0 else 1
}
