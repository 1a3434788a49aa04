/** What the fan-in promises its callers, over every interleaving. */
module FanInResults {
  import opened FanIn
  import opened FanInSafety

  ghost predicate Reached(buf: nat, steps: seq<Step>, m: Manager) {
    IsRun(NewManager(buf), steps, m)
  }

  lemma ReachedInv(buf: nat, steps: seq<Step>, m: Manager)
    requires Reached(buf, steps, m)
    ensures Inv(m)
  {
    hide Inv, Shut, IsRun;
    NewInv(buf);
    RunInv(NewManager(buf), steps, m);
  }

  /** Every packet a forwarder ever pulled was consumed, is queued, is in a forwarder's hand or was counted as a
      shutdown drop. */
  lemma EveryPacketAccounted(buf: nat, steps: seq<Step>, m: Manager)
    requires Reached(buf, steps, m)
    ensures Sum(m.sources, Pulled) == |m.consumed| + |m.out| + Sum(m.sources, Held) + m.drops
  {
    hide Names, Closing, Streams, Order, Statuses, IsRun, Sum;
    ReachedInv(buf, steps, m);
  }

  /** Close returns when the forwarders' wait group is empty and the sampler is done. */
  predicate CloseReturned(m: Manager) {
    m.started ==> m.running == 0 && m.sampler.Done?
  }

  /** After Close nothing is in flight: pulled = consumed + shutdownDrops. */
  lemma NothingLostAfterClose(buf: nat, steps: seq<Step>, m: Manager)
    requires Reached(buf, steps, m) && CloseReturned(m)
    ensures Sum(m.sources, Pulled) == |m.consumed| + m.drops && m.out == []
    ensures forall i :: 0 <= i < |m.sources| ==> m.sources[i].phase.Idle? || m.sources[i].phase.Exited?
  {
    hide Names, Streams, Statuses, IsRun, Sum;
    EveryPacketAccounted(buf, steps, m);
    ReachedInv(buf, steps, m);
    if m.started {
      AllQuiet(m);
    }
    SumZero(m.sources, Held);
    if !m.started {
      SumZero(m.sources, Pulled) by {
        forall i | 0 <= i < |m.sources| ensures Pulled(m.sources[i]) == 0 {
          IdlePulledNothing(m, i);
        }
      }
    }
  }

  lemma IdlePulledNothing(m: Manager, i: nat)
    requires Streams(m) && i < |m.sources| && m.sources[i].phase.Idle?
    ensures m.sources[i].pulled == []
  {
    assert Stream(m.sent, m.sources[i], i);
  }

  lemma AllQuiet(m: Manager)
    requires Closing(m) && m.running == 0
    ensures forall i :: 0 <= i < |m.sources| ==> m.sources[i].phase.Idle? || m.sources[i].phase.Exited?
  {
    hide Sum;
    SumNonNegative(m.sources, Alive);
    forall i | 0 <= i < |m.sources| ensures m.sources[i].phase.Idle? || m.sources[i].phase.Exited? {
      assert Alive(m.sources[i]) <= 0;
    }
  }

  /** As long as no Add comes after the sampler's wait has returned: no forwarder sends on the closed channel, and it
      is closed only when every forwarder is gone. */
  lemma ClosedAfterTheLast(buf: nat, steps: seq<Step>, m: Manager)
    requires TimelyRun(NewManager(buf), steps, m)
    ensures !m.panicked
    ensures PastWait(m.sampler) ==>
              m.cancelled && forall i :: 0 <= i < |m.sources| ==> m.sources[i].phase.Idle? || m.sources[i].phase.Exited?
    ensures m.closed ==> PastWait(m.sampler)
  {
    hide Names, Streams, Ledger, Order, Statuses, TimelyRun, Sum;
    NewInv(buf);
    TimelyRunInv(NewManager(buf), steps, m);
    if PastWait(m.sampler) {
      AllQuiet(m);
    }
  }

  // ---- order ----

  lemma {:induction false} ProjSubseq(a: seq<Item>, b: seq<Item>, id: nat)
    requires Subseq(a, b)
    ensures Subseq(Proj(a, id), Proj(b, id))
    decreases |b|
  {
    if a != [] {
      var a', b' := a[..|a| - 1], b[..|b| - 1];
      var x := b[|b| - 1];
      assert b == b' + [x];
      ProjSnoc(b', x, id);
      if a[|a| - 1] == x && Subseq(a', b') {
        assert a == a' + [x];
        ProjSnoc(a', x, id);
        ProjSubseq(a', b', id);
        SubseqSnoc(Proj(a', id), Proj(b', id), x.packet);
      } else {
        ProjSubseq(a, b', id);
        SubseqSnoc(Proj(a, id), Proj(b', id), x.packet);
      }
    }
  }

  lemma {:induction false} SubseqGrows<T>(a: seq<T>, b: seq<T>, more: seq<T>)
    requires Subseq(a, b)
    ensures Subseq(a, b + more)
  {
    if more == [] {
      assert b + more == b;
    } else {
      var n := |more| - 1;
      SubseqGrows(a, b, more[..n]);
      SubseqSnoc(a, b + more[..n], more[n]);
      assert b + more[..n] + [more[n]] == b + more;
    }
  }

  lemma {:induction false} ProjPrefix(items: seq<Item>, k: nat, id: nat)
    requires k <= |items|
    ensures Proj(items[..k], id) <= Proj(items, id)
    decreases |items| - k
  {
    if k < |items| {
      ProjPrefix(items, k + 1, id);
      assert items[..k + 1] == items[..k] + [items[k]];
      ProjSnoc(items[..k], items[k], id);
    } else {
      assert items[..k] == items;
    }
  }

  /** The pipeline sees each source's packets in the order the source produced them, stamped; until the merged
      channel is closed it sees a gapless beginning of them. */
  lemma PerSourceOrder(buf: nat, steps: seq<Step>, m: Manager, id: nat)
    requires Reached(buf, steps, m) && id < |m.sources|
    ensures var all := StampAll(m.sources[id].pulled, m.sources[id].sensor);
            && Subseq(Proj(m.consumed, id), all)
            && (!m.closed ==> Proj(m.consumed, id) <= all)
  {
    hide Names, Closing, Ledger, Statuses, IsRun, Sum, Proj, Subseq;
    ReachedInv(buf, steps, m);
    var k := |m.sent| - |m.out|;
    ProjSubseq(m.consumed, m.sent[..k], id);
    ProjPrefix(m.sent, k, id);
    SentIsPrefix(m, id);
    var all := StampAll(m.sources[id].pulled, m.sources[id].sensor);
    var taken := Proj(m.sent[..k], id);
    assert taken <= all;
    SubseqGrows(Proj(m.consumed, id), taken, all[|taken|..]);
    assert taken + all[|taken|..] == all;
  }

  lemma SentIsPrefix(m: Manager, id: nat)
    requires Streams(m) && id < |m.sources|
    ensures Proj(m.sent, id) <= StampAll(m.sources[id].pulled, m.sources[id].sensor)
  {
    hide Proj;
    var src := m.sources[id];
    assert Stream(m.sent, src, id);
    var n := |src.pulled| - src.drops;
    assert StampAll(src.pulled[..n], src.sensor) == StampAll(src.pulled, src.sensor)[..n];
  }

  /** A source that speaks for a sensor never puts an unattributed packet into the merged stream, and a packet
      that came with a sensor keeps it. */
  lemma Attributed(buf: nat, steps: seq<Step>, m: Manager, id: nat, i: nat)
    requires Reached(buf, steps, m) && id < |m.sources| && i < |Proj(m.sent, id)|
    ensures i < |m.sources[id].pulled|
    ensures var given, got, sensor := m.sources[id].pulled[i].sensor, Proj(m.sent, id)[i].sensor, m.sources[id].sensor;
            got == (if given != "" then given else sensor) && (sensor != "" ==> got != "")
  {
    hide Names, Closing, Ledger, Order, Statuses, IsRun, Sum, Proj;
    ReachedInv(buf, steps, m);
    SentIsPrefix(m, id);
  }

  // ---- failures ----

  /** The source reports an error: while it is read, or when it ends. */
  predicate Fails(step: Step, id: nat) {
    step == Forward(id, SourceFails) || step == Forward(id, SourceEnds(true))
  }

  predicate ShownFailed(m: Manager, id: nat) { id < |m.sources| && m.sources[id].status == Failed }

  /** The source reported an error, and its removal has not been completed since. */
  predicate FailedIn(steps: seq<Step>, id: nat) {
    exists j :: 0 <= j < |steps| && Fails(steps[j], id) && NotForgotten(steps, j + 1, id)
  }

  predicate NotForgotten(steps: seq<Step>, from: nat, id: nat) {
    forall i :: from <= i < |steps| ==> steps[i] != Forget(id)
  }

  /** In every run a source is shown as failed, shutdown included, exactly from the step in which it reports an error
      until its removal is complete. */
  lemma FailedIff(buf: nat, steps: seq<Step>, m: Manager, id: nat)
    requires Reached(buf, steps, m)
    ensures ShownFailed(m, id) <==> FailedIn(steps, id)
  {
    hide Inv, IsRun;
    NewInv(buf);
    FailureStaysVisible(NewManager(buf), steps, m, id);
  }

  lemma {:induction false} FailureStaysVisible(m: Manager, steps: seq<Step>, m': Manager, id: nat)
    requires Inv(m) && IsRun(m, steps, m')
    ensures ShownFailed(m', id) <==> FailedIn(steps, id) || (ShownFailed(m, id) && NotForgotten(steps, 0, id))
    decreases |steps|
  {
    hide Inv, Next, Enabled, Fails;
    if steps != [] {
      FailedStep(m, steps[0], id);
      StepInv(m, steps[0]);
      FailureStaysVisible(Next(m, steps[0]), steps[1..], m', id);
      FirstFails(steps, id);
    }
  }

  lemma FirstFails(steps: seq<Step>, id: nat)
    requires steps != []
    ensures NotForgotten(steps, 0, id) <==> steps[0] != Forget(id) && NotForgotten(steps[1..], 0, id)
    ensures FailedIn(steps, id) <==>
            FailedIn(steps[1..], id) || (Fails(steps[0], id) && NotForgotten(steps[1..], 0, id))
  {
    hide Fails;
    var rest := steps[1..];
    assert forall i :: 0 <= i < |rest| ==> rest[i] == steps[i + 1];
    assert forall i :: 1 <= i < |steps| ==> steps[i] == rest[i - 1];
    if j :| 0 <= j < |rest| && Fails(rest[j], id) && NotForgotten(rest, j + 1, id) {
      assert Fails(steps[j + 1], id) && NotForgotten(steps, j + 2, id);
    }
    if j :| 0 <= j < |steps| && Fails(steps[j], id) && NotForgotten(steps, j + 1, id) {
      if j > 0 {
        assert Fails(rest[j - 1], id) && NotForgotten(rest, j, id);
      }
    }
    if Fails(steps[0], id) && NotForgotten(rest, 0, id) {
      assert NotForgotten(steps, 1, id);
    }
  }

  lemma FailedForward(m: Manager, at: nat, act: Act, id: nat)
    requires at < |m.sources| && Ready(m, m.sources[at], act) && Truthful(m.sources[at])
    ensures ShownFailed(Moved(m, at, act), id) <==> Fails(Forward(at, act), id) || ShownFailed(m, id)
  {}

  lemma FailedBegin(m: Manager, already: bool, id: nat)
    requires id < |m.sources| && m.sources[id].status == Failed ==> m.started
    ensures ShownFailed(Begin(m, already), id) <==> ShownFailed(m, id)
  {}

  lemma FailedRegistry(m: Manager, name: string, sensor: string, id: nat)
    requires Known(m)
    ensures ShownFailed(Register(m, name, sensor), id) <==> ShownFailed(m, id)
    ensures ShownFailed(Deregister(m, name), id) <==> ShownFailed(m, id)
  {
    hide Without;
  }

  lemma FailedStep(m: Manager, step: Step, id: nat)
    requires Inv(m) && Known(m) && Enabled(m, step)
    ensures ShownFailed(Next(m, step), id) <==> Fails(step, id) || (ShownFailed(m, id) && step != Forget(id))
  {
    hide Inv, Without, Begin, Moved, Ready, Register, Deregister;
    if id < |m.sources| && m.sources[id].status == Failed {
      StartedIfFailed(m, id);
    }
    match step
    case Forward(at, act) =>
      Shown(m, at);
      FailedForward(m, at, act, id);
      SendNeverFails(m, at, act, id);
    case Start(already) => FailedBegin(m, already, id);
    case Add(name, sensor) => FailedRegistry(m, name, sensor, id);
    case Remove(name) => FailedRegistry(m, name, "", id);
    case _ =>
  }

  lemma SendNeverFails(m: Manager, at: nat, act: Act, id: nat)
    ensures act.Send? ==> !Fails(Forward(at, act), id)
  {}

  lemma Shown(m: Manager, id: nat)
    requires Inv(m) && id < |m.sources|
    ensures Truthful(m.sources[id])
  {}

  lemma StartedIfFailed(m: Manager, id: nat)
    requires Inv(m) && id < |m.sources| && m.sources[id].status == Failed
    ensures m.started
  {
    Shown(m, id);
  }

  // ---- Add after shutdown began ----

  /** Add does not look at the context. The forwarder it launches can panic by sending on the closed channel exactly
      when the sampler's wait has already returned, whether or not the close has happened. Before that Add is safe,
      and so it is before cancellation. */
  lemma LateAddIff(m: Manager, name: string, sensor: string)
    requires Inv(m) && Shut(m) && name != "" && name !in m.names
    ensures (exists steps, m' :: TimelyRun(Register(m, name, sensor), steps, m') && m'.panicked)
            <==> PastWait(m.sampler)
    ensures PastWait(m.sampler) ==> m.cancelled
  {
    var added := Register(m, name, sensor);
    if PastWait(m.sampler) {
      LateAddPanics(m, name, sensor);
    } else {
      AddedInv(m, name, sensor);
      forall steps, m' | TimelyRun(added, steps, m') ensures !m'.panicked {
        SafeRun(added, steps, m');
      }
    }
  }

  lemma AddedInv(m: Manager, name: string, sensor: string)
    requires Inv(m) && Shut(m) && !PastWait(m.sampler)
    ensures Inv(Register(m, name, sensor)) && Shut(Register(m, name, sensor))
  {
    hide Inv;
    assert Known(m) by { KnownInv(m); }
    StepInv(m, Add(name, sensor));
  }

  lemma KnownInv(m: Manager)
    requires Inv(m)
    ensures Known(m)
  {}

  lemma SafeRun(m: Manager, steps: seq<Step>, m': Manager)
    requires Inv(m) && Shut(m) && TimelyRun(m, steps, m')
    ensures !m'.panicked
  {
    hide TimelyRun, Inv;
    TimelyRunInv(m, steps, m');
  }

  lemma LateAddPanics(m: Manager, name: string, sensor: string)
    requires Inv(m) && Shut(m) && PastWait(m.sampler) && name != "" && name !in m.names
    ensures exists steps, m' :: TimelyRun(Register(m, name, sensor), steps, m') && m'.panicked
  {
    hide Ledger, Streams, Order, Statuses, Sum;
    var m0 := Register(m, name, sensor);
    assert m.started && m0.sources[|m.sources|] == Launch(Source(name, sensor, Idle, Stopped, false, true, 0, []));
    if m.closed {
      var steps, m' := ClosedSend(m0, |m.sources|);
    } else {
      var steps, m' := ClosedSend(Next(m0, CloseOut), |m.sources|);
      assert ([CloseOut] + steps)[1..] == steps;
      assert TimelyRun(m0, [CloseOut] + steps, m');
    }
  }

  /** With the channel closed, a forwarder in its select panics by pulling one packet. */
  lemma ClosedSend(m: Manager, id: nat) returns (steps: seq<Step>, m': Manager)
    requires Known(m) && !m.panicked && m.closed && id < |m.sources|
    requires m.sources[id].phase.Select? && m.sources[id].open
    ensures TimelyRun(m, steps, m') && m'.panicked
  {
    var pull, send := Forward(id, Pull(Packet("", 0))), Forward(id, Send);
    var m1 := Next(m, pull);
    m' := Next(m1, send);
    steps := [pull, send];
    assert TimelyRun(m', [], m');
    assert [send][1..] == [];
    assert TimelyRun(m1, [send], m');
    assert [pull, send][1..] == [send];
  }

  // ---- when Close returns ----

  const Rank: Source -> int := (src: Source) => match src.phase
    case Select => if src.open then 3 else 2
    case Holding(_) => if src.open then 3 else 2
    case Draining => if src.open then 2 else 1
    case _ => 0

  function SamplerRank(s: Sampler): nat {
    match s
    case Unstarted => 5
    case Ticking => 4
    case Waiting => 3
    case Waited => 2
    case Emptying => 1
    case Done => 0
  }

  function Work(m: Manager): int { Sum(m.sources, Rank) + SamplerRank(m.sampler) + |m.out| }

  /** Neither the pipeline nor a source has to do anything for these. */
  predicate Internal(step: Step) {
    match step
    case Forward(_, act) => act.SeeCancel? || act.GiveUp? || act.DrainEnds?
    case SamplerSeesCancel | WaitReturns | CloseOut | Sweep | SamplerEnds => true
    case _ => false
  }

  /** The forwarder drains a source that has not closed its channel. */
  predicate Blocked(src: Source) { src.phase.Draining? && src.open }

  /** Every forwarder left is draining a source that has not closed its channel, and the sampler has nothing to do. */
  ghost predicate Stuck(m: Manager) {
    && m.running > 0 && (m.sampler.Waiting? || m.sampler.Done?)
    && forall i :: 0 <= i < |m.sources| && Alive(m.sources[i]) == 1 ==> Blocked(m.sources[i])
  }

  lemma {:induction false} SomeAlive(sources: seq<Source>) returns (id: nat)
    requires Sum(sources, Alive) > 0
    ensures id < |sources| && Alive(sources[id]) == 1
  {
    if sources != [] {
      id := |sources| - 1;
      if Alive(sources[id]) == 0 {
        id := SomeAlive(sources[..id]);
      }
    }
  }

  lemma WorkNonNegative(m: Manager)
    ensures Work(m) >= 0
  {
    SumNonNegative(m.sources, Rank);
  }

  /** Such a step, and a source's closing its channel, leave less to do, so no schedule of them goes on forever. */
  lemma LessToDo(m: Manager, step: Step)
    requires Inv(m) && Enabled(m, step) && (Internal(step) || step.SourceCloses?)
    ensures Known(m)
    ensures var m' := Next(m, step);
            0 <= Work(m') < Work(m) && m'.consumed == m.consumed && m'.cancelled == m.cancelled && !m'.panicked &&
            |m'.sources| == |m.sources|
  {
    hide Names, Ledger, Streams, Order, Statuses, Sum;
    WorkNonNegative(Next(m, step));
    match step
    case Forward(id, act) => SumUpdate(m.sources, Rank, id, After(m.sources[id], act));
    case SourceCloses(id) => SumUpdate(m.sources, Rank, id, m.sources[id].(open := false));
    case _ =>
  }

  /** After cancellation, and until Close can return, forwarders and sampler can go on by themselves exactly as long
      as they are not all waiting for sources to close their channels. */
  lemma ProgressIff(m: Manager)
    requires Inv(m) && m.cancelled && !m.panicked && !CloseReturned(m)
    ensures (exists step :: Internal(step) && Enabled(m, step)) <==> !Stuck(m)
  {
    if Stuck(m) {
      NoneEnabled(m);
    } else {
      var step := SomeInternal(m);
    }
  }

  lemma NoneEnabled(m: Manager)
    requires Inv(m) && Stuck(m)
    ensures forall step :: Internal(step) ==> !Enabled(m, step)
  {
    hide Names, Ledger, Streams, Order, Statuses, Sum;
    forall step | Internal(step) ensures !Enabled(m, step) {
      if step.Forward? && step.id < |m.sources| {
        assert Alive(m.sources[step.id]) == 1 ==> Blocked(m.sources[step.id]);
      }
    }
  }

  lemma SomeInternal(m: Manager) returns (step: Step)
    requires Inv(m) && m.cancelled && !m.panicked && !CloseReturned(m) && !Stuck(m)
    ensures Internal(step) && Enabled(m, step)
  {
    hide Names, Ledger, Streams, Order, Statuses, Sum;
    SumNonNegative(m.sources, Alive);
    if id :| 0 <= id < |m.sources| && Alive(m.sources[id]) == 1 && !Blocked(m.sources[id]) {
      var phase := m.sources[id].phase;
      var act := if phase.Select? then SeeCancel else if phase.Holding? then GiveUp else DrainEnds;
      step := Forward(id, act);
    } else if m.sampler.Ticking? {
      step := SamplerSeesCancel;
    } else if m.sampler.Waiting? {
      step := WaitReturns;
    } else if m.sampler.Waited? {
      step := CloseOut;
    } else if m.out != [] {
      step := Sweep;
    } else {
      step := SamplerEnds;
    }
  }

  predicate AliveAndOpen(m: Manager, id: nat) {
    id < |m.sources| && Alive(m.sources[id]) == 1 && m.sources[id].open
  }

  /** No source in quiet closes its channel. */
  predicate Spares(steps: seq<Step>, quiet: set<nat>) {
    forall i :: 0 <= i < |steps| && steps[i].SourceCloses? ==> steps[i].id !in quiet
  }

  /** A source that neither delivers the end of its channel nor is gone keeps Close waiting, whatever else happens. */
  lemma {:induction false} OpenSourceBlocks(m: Manager, steps: seq<Step>, m': Manager, id: nat)
    requires Inv(m) && IsRun(m, steps, m') && AliveAndOpen(m, id) && Spares(steps, {id})
    ensures AliveAndOpen(m', id) && !CloseReturned(m')
    decreases |steps|
  {
    if steps == [] {
      hide Names, Ledger, Streams, Order, Statuses, Sum;
      SumNonNegative(m.sources, Alive);
    } else {
      hide Inv, Without;
      StepInv(m, steps[0]);
      StaysOpen(m, steps[0], id);
      OpenSourceBlocks(Next(m, steps[0]), steps[1..], m', id);
    }
  }

  lemma StaysOpen(m: Manager, step: Step, id: nat)
    requires Inv(m) && Enabled(m, step) && AliveAndOpen(m, id) && step != SourceCloses(id)
    ensures Known(m) && AliveAndOpen(Next(m, step), id)
  {
    hide Ledger, Streams, Order, Statuses, Sum, Without;
  }

  /** With every source outside quiet willing to close its channel, forwarders and sampler let Close return, without
      the pipeline consuming anything. */
  lemma {:induction false} CloseCanReturn(m: Manager, quiet: set<nat>) returns (steps: seq<Step>, m': Manager)
    requires Inv(m) && m.cancelled && !m.panicked && forall id :: id in quiet ==> !AliveAndOpen(m, id)
    ensures IsRun(m, steps, m') && Spares(steps, quiet) && CloseReturned(m') && m'.consumed == m.consumed
    ensures forall i :: 0 <= i < |steps| ==> Internal(steps[i]) || steps[i].SourceCloses?
    decreases Work(m)
  {
    hide Inv, Sum, Enabled, Next;
    if CloseReturned(m) {
      steps, m' := [], m;
    } else {
      var step := NextToClose(m, quiet);
      LessToDo(m, step);
      WorkNonNegative(m);
      StepInv(m, step);
      NoneReopens(m, step, quiet);
      var rest;
      rest, m' := CloseCanReturn(Next(m, step), quiet);
      steps := [step] + rest;
      assert steps[1..] == rest;
    }
  }

  lemma NextToClose(m: Manager, quiet: set<nat>) returns (step: Step)
    requires Inv(m) && m.cancelled && !m.panicked && !CloseReturned(m)
    requires forall id :: id in quiet ==> !AliveAndOpen(m, id)
    ensures Enabled(m, step) && (Internal(step) || (step.SourceCloses? && step.id !in quiet))
  {
    hide Inv, Sum;
    if Stuck(m) {
      assert m.running == Sum(m.sources, Alive) by { Counted(m); }
      var id := SomeAlive(m.sources);
      step := SourceCloses(id);
    } else {
      step := SomeInternal(m);
    }
  }

  lemma Counted(m: Manager)
    requires Inv(m)
    ensures m.running == Sum(m.sources, Alive)
  {}

  lemma NoneReopens(m: Manager, step: Step, quiet: set<nat>)
    requires Known(m) && Enabled(m, step) && (Internal(step) || step.SourceCloses?)
    requires forall id :: id in quiet ==> !AliveAndOpen(m, id)
    ensures forall id :: id in quiet ==> !AliveAndOpen(Next(m, step), id)
  {
    forall id | id in quiet ensures !AliveAndOpen(Next(m, step), id) {
      assert !AliveAndOpen(m, id);
    }
  }

  /** After cancellation Close can return without the sources in quiet closing their channels exactly when none of them
      still has a forwarder: drain reads a source until that source closes. */
  lemma CloseReturnsIff(m: Manager, quiet: set<nat>)
    requires Inv(m) && m.cancelled && !m.panicked
    ensures (exists steps, m' :: IsRun(m, steps, m') && Spares(steps, quiet) && CloseReturned(m'))
            <==> forall id :: id in quiet ==> !AliveAndOpen(m, id)
  {
    hide Inv, IsRun;
    if id :| id in quiet && AliveAndOpen(m, id) {
      forall steps, m' | IsRun(m, steps, m') && Spares(steps, quiet) ensures !CloseReturned(m') {
        OpenSourceBlocks(m, steps, m', id);
      }
    } else {
      var steps, m' := CloseCanReturn(m, quiet);
    }
  }

  // ---- the context and the buffer ----

  predicate CancelIn(steps: seq<Step>) { exists i :: 0 <= i < |steps| && steps[i].Cancel? }

  predicate StartsAt(steps: seq<Step>, i: nat) {
    i < |steps| && steps[i].Start? && forall j :: 0 <= j < i ==> !steps[j].Start?
  }

  /** The first caller of Packets gave a context that was already cancelled. */
  predicate StartsCancelled(steps: seq<Step>) {
    exists i :: 0 <= i < |steps| && StartsAt(steps, i) && steps[i].alreadyCancelled
  }

  /** The merged channel never holds more than its capacity, and the manager is shutting down exactly when someone
      cancelled it or the first context was cancelled from the start; the contexts of later callers are ignored. */
  lemma CancelledIff(buf: nat, steps: seq<Step>, m: Manager)
    requires IsRun(NewManager(buf), steps, m)
    ensures |m.out| <= m.cap == buf
    ensures m.cancelled <==> CancelIn(steps) || StartsCancelled(steps)
  {
    hide IsRun;
    RunContext(NewManager(buf), steps, m);
  }

  lemma {:induction false} RunContext(m: Manager, steps: seq<Step>, m': Manager)
    requires IsRun(m, steps, m') && |m.out| <= m.cap && (m.cancelled ==> m.started)
    ensures |m'.out| <= m'.cap == m.cap
    ensures m'.cancelled <==> m.cancelled || CancelIn(steps) || (!m.started && StartsCancelled(steps))
    decreases |steps|
  {
    if steps != [] {
      StepContext(m, steps[0]);
      RunContext(Next(m, steps[0]), steps[1..], m');
      hide IsRun;
      HeadContext(steps);
    }
  }

  lemma StepContext(m: Manager, step: Step)
    requires Known(m) && Enabled(m, step) && |m.out| <= m.cap && (m.cancelled ==> m.started)
    ensures var m' := Next(m, step);
            && |m'.out| <= m'.cap == m.cap && (m'.cancelled ==> m'.started)
            && (m'.started <==> m.started || step.Start?)
            && (m'.cancelled <==> m.cancelled || step.Cancel? || (!m.started && step == Start(true)))
  {}

  lemma HeadContext(steps: seq<Step>)
    requires steps != []
    ensures CancelIn(steps) <==> steps[0].Cancel? || CancelIn(steps[1..])
    ensures StartsCancelled(steps) <==>
            steps[0] == Start(true) || (!steps[0].Start? && StartsCancelled(steps[1..]))
  {
    var rest := steps[1..];
    assert forall i :: 0 < i < |steps| ==> steps[i] == rest[i - 1];
    if CancelIn(rest) {
      var i :| 0 <= i < |rest| && rest[i].Cancel?;
      assert steps[i + 1].Cancel?;
    }
    if !steps[0].Start? && StartsCancelled(rest) {
      var i :| 0 <= i < |rest| && StartsAt(rest, i) && rest[i].alreadyCancelled;
      assert StartsAt(steps, i + 1) && steps[i + 1].alreadyCancelled;
    }
    if steps[0] == Start(true) {
      assert StartsAt(steps, 0);
    }
    if StartsCancelled(steps) && !steps[0].Start? {
      var i :| 0 <= i < |steps| && StartsAt(steps, i) && steps[i].alreadyCancelled;
      assert i > 0;
      StartsTail(steps, i);
    }
  }

  lemma StartsTail(steps: seq<Step>, i: nat)
    requires 0 < i && StartsAt(steps, i) && !steps[0].Start?
    ensures StartsAt(steps[1..], i - 1) && steps[1..][i - 1] == steps[i]
  {
    forall j | 0 <= j < i - 1 ensures !steps[1..][j].Start? {
      assert steps[1..][j] == steps[j + 1];
    }
  }
}
