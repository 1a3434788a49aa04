/** A source, failing or not, disturbs no other: for every run there is one in which that source never delivers a
    packet and never fails, and every other source has the same history. */
module FanInIsolation {
  import opened FanIn
  import opened FanInSafety
  import opened FanInResults

  function Others(items: seq<Item>, id: nat): (r: seq<Item>)
    ensures |r| <= |items|
  {
    if items == [] then []
    else if items[|items| - 1].id == id then Others(items[..|items| - 1], id)
    else Others(items[..|items| - 1], id) + [items[|items| - 1]]
  }

  /** A source of the same name that delivers nothing, and whose forwarder is gone when the other one is. */
  function Quiet(src: Source, status: Status): Source {
    src.(phase := if src.phase.Idle? || src.phase.Exited? then src.phase else Select, status := status, drops := 0,
         pulled := [])
  }

  /** n is m with a quiet source in place of id. */
  ghost predicate Twin(m: Manager, n: Manager, id: nat) {
    && |n.sources| == |m.sources|
    && (forall i :: 0 <= i < |m.sources| && i != id ==> n.sources[i] == m.sources[i])
    && (id < |m.sources| ==> n.sources[id] == Quiet(m.sources[id], n.sources[id].status))
    && n == m.(sources := n.sources, out := Others(m.out, id), sent := Others(m.sent, id),
               consumed := Others(m.consumed, id), drops := n.drops, swept := n.swept)
  }

  /** What becomes of a step when source id is quiet: its forwarder only ends, when the other one does. */
  function Shadow(m: Manager, step: Step, id: nat): seq<Step>
    requires Enabled(m, step)
  {
    match step
    case Forward(i, act) =>
      if i != id then [step] else if Exits(act) > 0 then [Forward(id, SourceEnds(false))] else []
    case Consume => if m.out[0].id == id then [] else [step]
    case Sweep => if m.out[0].id == id then [] else [step]
    case _ => [step]
  }

  function Shadows(m: Manager, steps: seq<Step>, id: nat): seq<Step>
    decreases |steps|
  {
    if steps == [] || !Known(m) || !Enabled(m, steps[0]) then []
    else Shadow(m, steps[0], id) + Shadows(Next(m, steps[0]), steps[1..], id)
  }

  /** Source id delivers nothing and does not fail. */
  predicate Silent(steps: seq<Step>, id: nat) {
    forall i :: 0 <= i < |steps| && steps[i].Forward? && steps[i].id == id ==> steps[i].act == SourceEnds(false)
  }

  // ---- lists without one source ----

  lemma OthersSnoc(items: seq<Item>, x: Item, id: nat)
    ensures Others(items + [x], id) == if x.id == id then Others(items, id) else Others(items, id) + [x]
  {
    assert (items + [x])[..|items|] == items;
  }

  lemma {:induction false} OthersTail(items: seq<Item>, id: nat)
    requires items != []
    ensures if items[0].id == id then Others(items, id) == Others(items[1..], id)
            else Others(items, id) == [items[0]] + Others(items[1..], id)
  {
    var n := |items| - 1;
    if n > 0 {
      OthersTail(items[..n], id);
      assert items[1..] == items[..n][1..] + [items[n]];
      OthersSnoc(items[..n][1..], items[n], id);
    } else {
      assert items[1..] == [] && items[..n] == [];
    }
  }

  lemma {:induction false} ProjOthers(items: seq<Item>, id: nat, i: nat)
    requires i != id
    ensures Proj(Others(items, id), i) == Proj(items, i)
  {
    if items != [] {
      var init, x := items[..|items| - 1], items[|items| - 1];
      ProjOthers(init, id, i);
      ProjSnoc(Others(init, id), x, i);
    }
  }

  // ---- one step ----

  /** Another forwarder moves in both. */
  lemma TwinForward(m: Manager, n: Manager, id: nat, i: nat, act: Act)
    requires Twin(m, n, id) && i != id && i < |m.sources| && Ready(m, m.sources[i], act) && !(act.Send? && m.closed)
    ensures Ready(n, n.sources[i], act) && Twin(Moved(m, i, act), Moved(n, i, act), id)
  {
    hide Others, After, Quiet;
    if act.Send? {
      OthersSnoc(m.out, Item(i, m.sources[i].phase.packet), id);
      OthersSnoc(m.sent, Item(i, m.sources[i].phase.packet), id);
    } else {
      NothingAdded(m.out);
      NothingAdded(m.sent);
      NothingAdded(n.out);
      NothingAdded(n.sent);
    }
  }

  lemma NothingAdded(items: seq<Item>)
    ensures items + [] == items
  {}

  /** The forwarder of id moves: its shadow ends when it does, and stands still otherwise. */
  /** The source's own forwarder sends. */
  lemma TwinSend(m: Manager, n: Manager, id: nat)
    requires Twin(m, n, id) && id < |m.sources| && Ready(m, m.sources[id], Send) && !m.closed
    ensures Twin(Moved(m, id, Send), n, id)
  {
    hide Others, Stamp;
    OwnAfter(m, m.sources[id], Send, n.sources[id].status);
    OthersSnoc(m.out, Item(id, m.sources[id].phase.packet), id);
    OthersSnoc(m.sent, Item(id, m.sources[id].phase.packet), id);
    hide After, Quiet;
  }

  /** It ends, and so does its twin. */
  lemma TwinEnds(m: Manager, n: Manager, id: nat, act: Act)
    requires Twin(m, n, id) && id < |m.sources| && Ready(m, m.sources[id], act) && Exits(act) > 0
    ensures Ready(n, n.sources[id], SourceEnds(false)) && Twin(Moved(m, id, act), Moved(n, id, SourceEnds(false)), id)
  {
    hide Others, Stamp;
    OwnAfter(m, m.sources[id], act, n.sources[id].status);
    NothingAdded(m.out);
    NothingAdded(m.sent);
    NothingAdded(n.out);
    NothingAdded(n.sent);
    hide After, Quiet;
  }

  /** It neither sends nor ends. */
  lemma TwinStays(m: Manager, n: Manager, id: nat, act: Act)
    requires Twin(m, n, id) && id < |m.sources| && Ready(m, m.sources[id], act) && Exits(act) == 0 && !act.Send?
    ensures Twin(Moved(m, id, act), n, id)
  {
    hide Others, Stamp;
    OwnAfter(m, m.sources[id], act, n.sources[id].status);
    NothingAdded(m.out);
    NothingAdded(m.sent);
    hide After, Quiet, Ready;
  }

  lemma TwinOwn(m: Manager, n: Manager, id: nat, act: Act)
    requires Twin(m, n, id) && id < |m.sources| && Ready(m, m.sources[id], act) && !(act.Send? && m.closed)
    ensures if Exits(act) > 0 then
              Ready(n, n.sources[id], SourceEnds(false)) && Twin(Moved(m, id, act), Moved(n, id, SourceEnds(false)), id)
            else Twin(Moved(m, id, act), n, id)
  {
    hide Moved, Ready;
    if act.Send? {
      TwinSend(m, n, id);
    } else if Exits(act) > 0 {
      TwinEnds(m, n, id, act);
    } else {
      TwinStays(m, n, id, act);
    }
  }

  lemma OwnAfter(m: Manager, src: Source, act: Act, status: Status)
    requires Ready(m, src, act)
    ensures var quiet, after := Quiet(src, status), After(src, act);
            if Exits(act) > 0 then
              Ready(m, quiet, SourceEnds(false)) && After(quiet, SourceEnds(false)) ==
                                                    Quiet(after, After(quiet, SourceEnds(false)).status)
            else quiet == Quiet(after, status)
  {}

  lemma TwinTakes(m: Manager, n: Manager, id: nat, step: Step)
    requires Twin(m, n, id) && Known(m) && Enabled(m, step) && (step.Consume? || step.Sweep?)
    ensures if m.out[0].id == id then Twin(Next(m, step), n, id)
            else Known(n) && Enabled(n, step) && Twin(Next(m, step), Next(n, step), id)
  {
    hide Others;
    OthersTail(m.out, id);
    OthersSnoc(m.consumed, m.out[0], id);
  }

  lemma TwinStart(m: Manager, n: Manager, id: nat, already: bool)
    requires Closing(m) && Twin(m, n, id)
    ensures Twin(Begin(m, already), Begin(n, already), id)
  {
    hide Sum, Others;
  }

  lemma TwinRegistered(m: Manager, n: Manager, id: nat, step: Step)
    requires Closing(m) && Twin(m, n, id) && Known(m) && Known(n) && (step.Add? || step.Remove?)
    requires Enabled(m, step) && Enabled(n, step)
    ensures Twin(Next(m, step), Next(n, step), id)
  {
    hide Sum, Without, Others;
  }

  /** Callers and the sources themselves. */
  lemma TwinOutside(m: Manager, n: Manager, id: nat, step: Step)
    requires Closing(m) && Twin(m, n, id) && Known(m) && Known(n) && Enabled(m, step)
    requires step.Add? || step.Remove? || step.Forget? || step.Start? || step.SourceCloses?
    ensures Enabled(n, step) && Twin(Next(m, step), Next(n, step), id)
  {
    hide Sum, Without, Others, Register, Deregister, Begin, Closing;
    match step
    case Start(already) => TwinStart(m, n, id, already);
    case Add(_, _) => TwinRegistered(m, n, id, step);
    case Remove(_) => TwinRegistered(m, n, id, step);
    case _ =>
  }

  lemma TwinSampler(m: Manager, n: Manager, id: nat, step: Step)
    requires Twin(m, n, id) && Known(m) && Known(n) && Enabled(m, step)
    requires step.Cancel? || step.SamplerSeesCancel? || step.WaitReturns? || step.CloseOut? || step.SamplerEnds?
    ensures Enabled(n, step) && Twin(Next(m, step), Next(n, step), id)
  {
    assert step.SamplerEnds? ==> Others(m.out, id) == [];
    hide Others, Quiet;
  }

  lemma TwinStep(m: Manager, n: Manager, id: nat, step: Step)
    requires Inv(m) && Twin(m, n, id) && Known(m) && Enabled(m, step) && !Next(m, step).panicked
    ensures var shadow := Shadow(m, step, id);
            if shadow == [] then Twin(Next(m, step), n, id)
            else
              && |shadow| == 1 && Known(n) && Enabled(n, shadow[0])
              && Twin(Next(m, step), Next(n, shadow[0]), id)
  {
    hide Names, Closing, Ledger, Streams, Order, Statuses, Others, Quiet, Ready, Moved, Register, Deregister, Begin;
    assert Known(n);
    match step
    case Forward(i, act) =>
      if i == id {
        TwinOwn(m, n, id, act);
      } else {
        TwinForward(m, n, id, i, act);
      }
    case Consume => TwinTakes(m, n, id, step);
    case Sweep => TwinTakes(m, n, id, step);
    case Add(_, _) => TwinOutside(m, n, id, step);
    case Remove(_) => TwinOutside(m, n, id, step);
    case Forget(_) => TwinOutside(m, n, id, step);
    case Start(_) => TwinOutside(m, n, id, step);
    case SourceCloses(_) => TwinOutside(m, n, id, step);
    case _ => TwinSampler(m, n, id, step);
  }

  // ---- every run ----

  lemma RunPanics(m: Manager, steps: seq<Step>, m': Manager)
    requires IsRun(m, steps, m') && !m'.panicked
    ensures !m.panicked
  {
    hide Next;
  }

  lemma RunCons(m: Manager, step: Step, steps: seq<Step>, m': Manager)
    requires Known(m) && Enabled(m, step) && IsRun(Next(m, step), steps, m')
    ensures IsRun(m, [step] + steps, m')
  {
    hide Enabled, Next;
    assert ([step] + steps)[1..] == steps;
  }

  lemma {:induction false} ShadowsSilent(m: Manager, steps: seq<Step>, id: nat)
    ensures Silent(Shadows(m, steps, id), id)
    decreases |steps|
  {
    if steps != [] && Known(m) && Enabled(m, steps[0]) {
      ShadowsSilent(Next(m, steps[0]), steps[1..], id);
      hide Enabled, Next;
    }
  }

  lemma {:induction false} TwinRun(m: Manager, steps: seq<Step>, m': Manager, n: Manager, id: nat) returns (n': Manager)
    requires Inv(m) && IsRun(m, steps, m') && !m'.panicked && Twin(m, n, id)
    ensures IsRun(n, Shadows(m, steps, id), n') && Twin(m', n', id)
    decreases |steps|
  {
    hide Inv, Twin, Enabled, Next, Shadow;
    if steps == [] {
      n' := n;
    } else {
      var next, shadow := Next(m, steps[0]), Shadow(m, steps[0], id);
      RunPanics(next, steps[1..], m');
      TwinStep(m, n, id, steps[0]);
      StepInv(m, steps[0]);
      var rest := Shadows(next, steps[1..], id);
      if shadow == [] {
        n' := TwinRun(next, steps[1..], m', n, id);
        assert shadow + rest == rest;
      } else {
        n' := TwinRun(next, steps[1..], m', Next(n, shadow[0]), id);
        RunCons(n, shadow[0], rest, n');
        assert shadow == [shadow[0]];
      }
    }
  }

  /** The shadow of a run's beginning is the beginning of its shadow, so what is said of the end holds all along. */
  lemma {:induction false} ShadowsPrefix(m: Manager, steps: seq<Step>, k: nat, id: nat)
    requires k <= |steps|
    ensures Shadows(m, steps[..k], id) <= Shadows(m, steps, id)
    decreases k
  {
    if k > 0 && Known(m) && Enabled(m, steps[0]) {
      assert steps[..k][1..] == steps[1..][..k - 1];
      ShadowsPrefix(Next(m, steps[0]), steps[1..], k - 1, id);
    }
  }

  /** Whatever source id does in a run, failing included: in the same run with a source in its place that delivers
      nothing and does not fail, every other source pulls, sends and drops the same packets in the same order, has as
      many of them consumed, and is shown in the same state. */
  lemma FailureIsIsolated(buf: nat, steps: seq<Step>, m: Manager, id: nat) returns (n: Manager)
    requires Reached(buf, steps, m) && !m.panicked
    ensures var alone := Shadows(NewManager(buf), steps, id);
            Reached(buf, alone, n) && Silent(alone, id)
    ensures |n.sources| == |m.sources| && forall i :: 0 <= i < |m.sources| && i != id ==>
              && n.sources[i] == m.sources[i]
              && Proj(n.sent, i) == Proj(m.sent, i) && Proj(n.consumed, i) == Proj(m.consumed, i)
  {
    hide Inv, Shut, IsRun, Others, Proj, Shadows, Silent;
    NewInv(buf);
    assert Twin(NewManager(buf), NewManager(buf), id) by { NewTwin(buf, id); }
    n := TwinRun(NewManager(buf), steps, m, NewManager(buf), id);
    ShadowsSilent(NewManager(buf), steps, id);
    forall i | 0 <= i < |m.sources| && i != id
      ensures Proj(n.sent, i) == Proj(m.sent, i) && Proj(n.consumed, i) == Proj(m.consumed, i)
    {
      ProjOthers(m.sent, id, i);
      ProjOthers(m.consumed, id, i);
    }
  }

  lemma NewTwin(buf: nat, id: nat)
    ensures Twin(NewManager(buf), NewManager(buf), id)
  {}
}
