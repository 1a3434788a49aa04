/** Which occurrences become detections, in the operator's terms: the policy in force, the class's own threshold and the
    suppression rules, over every run of the store. */
module AlertVerdicts {
  import opened Common
  import opened AlertSpec
  import opened AlertInvariant
  import opened AlertLedger

  // ---- what the policy asks for ----

  /** The classes that have a severity. */
  const ALERTABLE := {"suspicious", "scan", "brute_force", "web_attack", "dos_ddos", "botnet_c2"}

  /** The policy can alert on the class at all. */
  predicate Concerned(pol: Policy, oc: Occurrence) { pol.enabled && oc.cls in ALERTABLE }

  /** The score has reached the class's own threshold if it has one, and the floor otherwise. */
  predicate Reached(pol: Policy, oc: Occurrence) {
    && (oc.cls in pol.perClass ==> oc.score >= pol.perClass[oc.cls])
    && (oc.cls !in pol.perClass ==> oc.score >= pol.minConfidence)
  }

  /** The models disagreed, and the policy alerts on that. */
  predicate Disputed(pol: Policy, oc: Occurrence) { oc.disagreement && pol.alertOnDisagreement }

  /** Some suppression rule covers it. */
  ghost predicate Covered(pol: Policy, oc: Occurrence) {
    exists i :: 0 <= i < |pol.suppress| && pol.suppress[i](oc)
  }

  predicate Worthy(pol: Policy, oc: Occurrence) { Concerned(pol, oc) && (Reached(pol, oc) || Disputed(pol, oc)) }

  /** The sentence names the arm that held, with the score and the threshold that was compared. */
  predicate Names(reason: Reason, pol: Policy, oc: Occurrence) {
    match reason
    case NoReason => false
    case AboveThreshold(cls, score, th) =>
      Reached(pol, oc) && cls == oc.cls && score == oc.score && Applies(th, pol, cls)
    case Disagreement(cls, score, th) =>
      !Reached(pol, oc) && Disputed(pol, oc) && cls == oc.cls && score == oc.score && Applies(th, pol, cls)
  }

  predicate Applies(th: real, pol: Policy, cls: string) {
    if cls in pol.perClass then th == pol.perClass[cls] else th == pol.minConfidence
  }

  predicate Graded(sev: Severity, cls: string) {
    && (sev == Low <==> cls == "suspicious") && (sev == Medium <==> cls == "scan")
    && (sev == High <==> cls in {"brute_force", "web_attack"})
    && (sev == Critical <==> cls in {"dos_ddos", "botnet_c2"})
  }

  /** One verdict: it alerts exactly when the policy asks for it, and says why. */
  lemma DecideIff(pol: Policy, oc: Occurrence)
    ensures var v := pol.Decide(oc.cls, oc.score, oc.disagreement);
            && (v.alert <==> Worthy(pol, oc))
            && (v.alert ==> Names(v.reason, pol, oc) && Graded(v.severity, oc.cls))
    ensures pol.Alertable(oc.cls) <==> Concerned(pol, oc)
  {}

  lemma CoveredIff(pol: Policy, oc: Occurrence)
    ensures pol.MatchSuppress(oc, 0).Some? <==> Covered(pol, oc)
  {
    hide Policy.MatchSuppress;
    var idx := pol.MatchSuppress(oc, 0);
  }

  /** One occurrence: its fate, without reference to how it was decided. */
  lemma FateIff(s: Store, oc: Occurrence)
    requires Sound(s)
    ensures var f := FateOf(s, oc);
            && (f.Ignored? <==> !Concerned(s.pol, oc))
            && (f.Below? <==> Concerned(s.pol, oc) && !Worthy(s.pol, oc))
            && (f.Ruled? <==> Worthy(s.pol, oc) && Covered(s.pol, oc))
            && (f.Absorbed? || f.Opened? <==> Worthy(s.pol, oc) && !Covered(s.pol, oc))
  {
    hide Policy.Decide, Policy.MatchSuppress, Policy.Alertable, WithinWindow, KeyOfOcc, Reached, Disputed, Covered,
         Concerned;
    DecideIff(s.pol, oc);
    CoveredIff(s.pol, oc);
  }

  // ---- over a run ----

  /** The policy in force after the items: the last one put in place. */
  function InForce(first: Policy, its: seq<Item>): Policy {
    if its == [] then first
    else if its[|its| - 1].Swap? then its[|its| - 1].pol
    else InForce(first, its[..|its| - 1])
  }

  lemma {:induction false} PolicyInForce(start: Store, its: seq<Item>)
    requires Core(start)
    ensures Run(start, its).pol == InForce(start.pol, its)
  {
    hide Core, Sound, KeyOfOcc, FoldDet, NewDet, FateOf, Policy.Decide, Stale, Remove, EvictHead;
    if its != [] {
      var init, it := its[..|its| - 1], its[|its| - 1];
      PolicyInForce(start, init);
      StepPolicy(Run(start, init), it);
    }
  }

  lemma StepPolicy(s: Store, it: Item)
    requires Sound(s)
    ensures Step(s, it).pol == if it.Swap? then it.pol else s.pol
  {
    hide KeyOfOcc, FoldDet, NewDet, Policy.Decide, Policy.MatchSuppress, WithinWindow, PurgeTo;
    if it.Retain? {
      PurgePolicy(s, it.before, |s.ring|);
    }
  }

  lemma {:induction false} PurgePolicy(s: Store, before: Time, n: nat)
    requires n <= |s.ring|
    ensures PurgeTo(s, before, n).pol == s.pol
  {
    hide Stale;
    if n > 0 {
      PurgePolicy(s, before, n - 1);
    }
  }

  // ---- the counters ----

  datatype Outcome = Outside | Short | RuledOut | Counted

  ghost function OutcomeOf(pol: Policy, oc: Occurrence): Outcome {
    if !Concerned(pol, oc) then Outside
    else if !Worthy(pol, oc) then Short
    else if Covered(pol, oc) then RuledOut
    else Counted
  }

  /** How many occurrences had this outcome under the policy in force. */
  ghost function Tally(first: Policy, its: seq<Item>, o: Outcome): nat {
    if its == [] then 0
    else
      var init, it := its[..|its| - 1], its[|its| - 1];
      Tally(first, init, o) + if it.Occur? && OutcomeOf(InForce(first, init), it.oc) == o then 1 else 0
  }

  /** Rule r covers oc and no rule before it does. */
  predicate FirstRule(pol: Policy, oc: Occurrence, r: nat) {
    r < |pol.suppress| && pol.suppress[r](oc) && forall j :: 0 <= j < r ==> !pol.suppress[j](oc)
  }

  /** How many occurrences rule r has kept back since its policy was put in place. */
  ghost function KeptBack(first: Policy, its: seq<Item>, r: nat): nat {
    if its == [] || its[|its| - 1].Swap? then 0
    else
      var init, it := its[..|its| - 1], its[|its| - 1];
      var pol := InForce(first, init);
      KeptBack(first, init, r) + if it.Occur? && Worthy(pol, it.oc) && FirstRule(pol, it.oc, r) then 1 else 0
  }

  ghost predicate Tallied(s: Store, first: Policy, its: seq<Item>) {
    && s.stats.suppressed == Tally(first, its, Short) && s.stats.suppressedByRule == Tally(first, its, RuledOut)
    && s.stats.created + s.stats.deduped == Tally(first, its, Counted)
    && s.stats.observed == Tally(first, its, Outside) + Tally(first, its, Short) + Tally(first, its, RuledOut) +
                           Tally(first, its, Counted)
    && |s.hits| == |s.pol.suppress|
    && forall r :: 0 <= r < |s.hits| ==> s.hits[r] == KeptBack(first, its, r)
  }

  lemma FirstRuleIs(pol: Policy, oc: Occurrence)
    ensures var idx := pol.MatchSuppress(oc, 0);
            idx.Some? ==> forall r :: FirstRule(pol, oc, r) <==> r == idx.value
    ensures pol.MatchSuppress(oc, 0).None? ==> forall r :: !FirstRule(pol, oc, r)
  {
    hide Policy.MatchSuppress;
    var idx := pol.MatchSuppress(oc, 0);
  }

  /** What one occurrence does to the counters. */
  lemma ApplyCounters(s: Store, oc: Occurrence)
    requires Sound(s)
    ensures var s', o := Apply(s, oc), OutcomeOf(s.pol, oc);
            && s'.stats.observed == s.stats.observed + 1
            && s'.stats.suppressed == s.stats.suppressed + (if o == Short then 1 else 0)
            && s'.stats.suppressedByRule == s.stats.suppressedByRule + (if o == RuledOut then 1 else 0)
            && s'.stats.created + s'.stats.deduped ==
               s.stats.created + s.stats.deduped + (if o == Counted then 1 else 0)
            && |s'.hits| == |s.hits|
            && forall r :: 0 <= r < |s.hits| ==>
                 s'.hits[r] == s.hits[r] + if Worthy(s.pol, oc) && FirstRule(s.pol, oc, r) then 1 else 0
  {
    hide Policy.Decide, Policy.MatchSuppress, Policy.Alertable, WithinWindow, KeyOfOcc, Worthy, Covered, Concerned,
         FirstRule, FoldDet, NewDet, EvictHead, NextSlot;
    FateIff(s, oc);
    DecideIff(s.pol, oc);
    FirstRuleIs(s.pol, oc);
    EvictFrame(s.(stats := s.stats.(observed := s.stats.observed + 1)));
    EvictHits(s.(stats := s.stats.(observed := s.stats.observed + 1)));
  }

  lemma EvictHits(s: Store)
    requires s.head < |s.ring| && (s.ring[s.head] != 0 ==> s.ring[s.head] in s.objs)
    ensures EvictHead(s).hits == s.hits
  {}

  lemma PurgeCounters(s: Store, before: Time)
    requires Sound(s)
    ensures var s' := Purge(s, before); s'.stats == s.stats.(expired := s'.stats.expired) && s'.hits == s.hits
  {
    PurgeKeepsBooks(s, before, |s.ring|);
    PurgeHits(s, before, |s.ring|);
  }

  lemma {:induction false} PurgeHits(s: Store, before: Time, n: nat)
    requires n <= |s.ring|
    ensures PurgeTo(s, before, n).hits == s.hits
  {
    hide Stale;
    if n > 0 {
      PurgeHits(s, before, n - 1);
    }
  }

  /** In every run: suppressed counts exactly the occurrences the policy was concerned with and found wanting, the
      rules have kept back what they cover, and everything else worth an alert is in some detection's count. */
  lemma {:induction false} CountersTell(pol: Policy, window: int, maxRecent: nat, its: seq<Item>)
    requires window >= 0 && maxRecent > 0
    ensures Core(New(pol, window, maxRecent)) && Tallied(Run(New(pol, window, maxRecent), its), pol, its)
  {
    hide Core, Sound, Tally, KeptBack, Apply, Purge, OutcomeOf, Worthy, FirstRule, InForce;
    var start := New(pol, window, maxRecent);
    NewInv(pol, window, maxRecent);
    if its == [] {
      NothingTallied(pol);
      assert Run(start, its) == start;
    } else {
      var init, it := its[..|its| - 1], its[|its| - 1];
      CountersTell(pol, window, maxRecent, init);
      PolicyInForce(start, init);
      TallyLast(pol, its);
      var s := Run(start, init);
      StepPolicy(s, it);
      match it
      case Occur(oc) => ApplyCounters(s, oc);
      case Swap(p) =>
      case Retain(before) => PurgeCounters(s, before);
    }
  }

  lemma NothingTallied(first: Policy)
    ensures forall o :: Tally(first, [], o) == 0
    ensures forall r :: KeptBack(first, [], r) == 0
  {}

  lemma TallyLast(first: Policy, its: seq<Item>)
    requires its != []
    ensures var init, it := its[..|its| - 1], its[|its| - 1];
            var pol := InForce(first, init);
            && (forall o :: Tally(first, its, o) == Tally(first, init, o) +
                            if it.Occur? && OutcomeOf(pol, it.oc) == o then 1 else 0)
            && (forall r :: KeptBack(first, its, r) ==
                            if it.Swap? then 0
                            else KeptBack(first, init, r) +
                                 if it.Occur? && Worthy(pol, it.oc) && FirstRule(pol, it.oc, r) then 1 else 0)
  {}

  // ---- the detections ----

  /** The items that each detection stands for, by position in the run. */
  ghost function Members(start: Store, its: seq<Item>): map<nat, seq<nat>>
    requires Core(start)
  {
    if its == [] then map[]
    else
      var init, it := its[..|its| - 1], its[|its| - 1];
      MemberStep(Run(start, init), Members(start, init), it, |init|)
  }

  function MemberStep(s: Store, mem: map<nat, seq<nat>>, it: Item, i: nat): map<nat, seq<nat>>
    requires Sound(s)
  {
    if !it.Occur? then mem
    else
      match FateOf(s, it.oc)
      case Absorbed(id) => if id in mem then mem[id := mem[id] + [i]] else mem
      case Opened => mem[s.nextID + 1 := [i]]
      case _ => mem
  }

  /** Item i of the run, under the policy in force, is worth an alert that no rule keeps back, and hit says so. */
  ghost predicate Justified(first: Policy, its: seq<Item>, i: nat, hit: Hit) {
    && i < |its| && its[i] == Occur(hit.oc)
    && var pol := InForce(first, its[..i]);
       OutcomeOf(pol, hit.oc) == Counted && Names(hit.v.reason, pol, hit.oc) && Graded(hit.v.severity, hit.oc.cls)
  }

  /** The occurrence list of one detection is that of its members, in the order of the run. */
  ghost predicate Matched(first: Policy, its: seq<Item>, at: seq<nat>, hs: seq<Hit>) {
    && |at| == |hs| && (forall k :: 0 <= k < |at| ==> Justified(first, its, at[k], hs[k]))
    && forall j, k :: 0 <= j < k < |at| ==> at[j] < at[k]
  }

  ghost predicate IsMember(mem: map<nat, seq<nat>>, i: nat) { exists id :: id in mem && i in mem[id] }

  ghost predicate Apart(mem: map<nat, seq<nat>>) {
    forall a, b, i :: a in mem && b in mem && i in mem[a] && i in mem[b] ==> a == b
  }

  /** Every item that counts is a member of exactly one detection. */
  ghost predicate Assigned(first: Policy, its: seq<Item>, mem: map<nat, seq<nat>>) {
    && (forall i: nat :: IsMember(mem, i) <==>
          i < |its| && its[i].Occur? && OutcomeOf(InForce(first, its[..i]), its[i].oc) == Counted)
    && Apart(mem)
  }

  ghost predicate AllMatched(first: Policy, its: seq<Item>, mem: map<nat, seq<nat>>, h: map<nat, seq<Hit>>) {
    mem.Keys == h.Keys && forall id :: id in mem ==> Matched(first, its, mem[id], h[id])
  }

  lemma JustifiedLater(first: Policy, its: seq<Item>, it: Item, i: nat, hit: Hit)
    requires Justified(first, its, i, hit)
    ensures Justified(first, its + [it], i, hit)
  {
    assert (its + [it])[..i] == its[..i];
  }

  lemma MatchedLater(first: Policy, its: seq<Item>, it: Item, at: seq<nat>, hs: seq<Hit>)
    requires Matched(first, its, at, hs)
    ensures Matched(first, its + [it], at, hs)
  {
    hide Justified;
    forall k | 0 <= k < |at| ensures Justified(first, its + [it], at[k], hs[k]) {
      JustifiedLater(first, its, it, at[k], hs[k]);
    }
  }

  /** The new item joins the members of one detection. */
  lemma MatchedGrows(first: Policy, its: seq<Item>, it: Item, at: seq<nat>, hs: seq<Hit>, hit: Hit)
    requires Matched(first, its, at, hs) && Justified(first, its + [it], |its|, hit)
    ensures Matched(first, its + [it], at + [|its|], hs + [hit])
  {
    MatchedLater(first, its, it, at, hs);
    assert forall k :: 0 <= k < |at| ==> at[k] < |its|;
    hide Justified;
  }

  /** What the verdict of a counted occurrence says. */
  lemma LastJustified(s: Store, first: Policy, its: seq<Item>, oc: Occurrence)
    requires Sound(s) && s.pol == InForce(first, its) && (FateOf(s, oc).Absorbed? || FateOf(s, oc).Opened?)
    ensures Justified(first, its + [Occur(oc)], |its|, Hit(oc, s.pol.Decide(oc.cls, oc.score, oc.disagreement)))
  {
    hide FateOf, Policy.Decide, Worthy, Covered, Concerned, Names, Graded;
    assert (its + [Occur(oc)])[..|its|] == its;
    FateIff(s, oc);
    DecideIff(s.pol, oc);
  }

  lemma StepMatched(s: Store, first: Policy, its: seq<Item>, it: Item, mem: map<nat, seq<nat>>, h: map<nat, seq<Hit>>)
    requires Core(s) && Sound(s) && s.pol == InForce(first, its) && AllMatched(first, its, mem, h)
    requires forall id :: id in s.objs <==> id in h
    ensures AllMatched(first, its + [it], MemberStep(s, mem, it, |its|), HitStep(s, h, it))
  {
    hide Core, Sound, FateOf, Policy.Decide, Matched, Justified, InForce;
    forall id | id in mem ensures Matched(first, its + [it], mem[id], h[id]) {
      MatchedLater(first, its, it, mem[id], h[id]);
    }
    if it.Occur? {
      var hit := Hit(it.oc, s.pol.Decide(it.oc.cls, it.oc.score, it.oc.disagreement));
      match FateOf(s, it.oc) {
        case Absorbed(id) =>
          LastJustified(s, first, its, it.oc);
          if id in mem {
            MatchedGrows(first, its, it, mem[id], h[id], hit);
          }
        case Opened =>
          LastJustified(s, first, its, it.oc);
          NoneMatched(first, its);
          MatchedGrows(first, its, it, [], [], hit);
          assert [] + [|its|] == [|its|] && [] + [hit] == [hit];
        case _ =>
      }
    }
  }

  lemma NoneMatched(first: Policy, its: seq<Item>)
    ensures Matched(first, its, [], [])
  {}

  lemma InLonger(s: seq<nat>, x: nat, y: nat)
    ensures y in s + [x] <==> y in s || y == x
  {
    assert (s + [x])[|s|] == x;
    if y in s {
      var k :| 0 <= k < |s| && s[k] == y;
      assert (s + [x])[k] == y;
    }
  }

  lemma MembersGrow(mem: map<nat, seq<nat>>, id: nat, i: nat)
    requires !IsMember(mem, i)
    ensures var mem' := mem[id := (if id in mem then mem[id] else []) + [i]];
            && (forall j: nat :: IsMember(mem', j) <==> IsMember(mem, j) || j == i)
            && (Apart(mem) ==> Apart(mem'))
  {
    var was := if id in mem then mem[id] else [];
    var mem' := mem[id := was + [i]];
    forall j: nat ensures IsMember(mem', j) <==> IsMember(mem, j) || j == i {
      InLonger(was, i, j);
      if IsMember(mem, j) {
        var a :| a in mem && j in mem[a];
        assert a in mem' && j in mem'[a];
      }
      if j == i {
        assert id in mem' && j in mem'[id];
      }
      if IsMember(mem', j) && j != i {
        var a :| a in mem' && j in mem'[a];
        assert a in mem && j in mem[a];
      }
    }
    forall j: nat ensures j in was + [i] <==> j in was || j == i {
      InLonger(was, i, j);
    }
    assert forall a :: a in mem ==> i !in mem[a];
  }

  /** Item n becomes a member of one detection if it is absorbed or opens one, and of none otherwise. */
  lemma StepMembers(s: Store, it: Item, mem: map<nat, seq<nat>>, n: nat)
    requires Core(s) && Sound(s) && !IsMember(mem, n) && forall id :: id in s.objs <==> id in mem
    ensures var mem' := MemberStep(s, mem, it, n);
            && (forall j: nat :: IsMember(mem', j) <==>
                  IsMember(mem, j) || (j == n && it.Occur? && OutcomeOf(s.pol, it.oc) == Counted))
            && (Apart(mem) ==> Apart(mem'))
  {
    hide FateOf, OutcomeOf, IsMember, Ring, Indexed, Anchored, Dets, Balanced;
    if it.Occur? {
      FateCounts(s, it.oc);
      match FateOf(s, it.oc) {
        case Absorbed(id) =>
          MembersGrow(mem, id, n);
        case Opened =>
          var none: seq<nat>, id := [], s.nextID + 1;
          assert id !in mem;
          MembersGrow(mem, id, n);
          assert none + [n] == [n];
          assert mem[id := none + [n]] == MemberStep(s, mem, it, n);
        case _ =>
      }
    }
  }

  lemma StepAssigned(s: Store, first: Policy, its: seq<Item>, it: Item, mem: map<nat, seq<nat>>)
    requires Core(s) && Sound(s) && s.pol == InForce(first, its) && Assigned(first, its, mem)
    requires forall id :: id in s.objs <==> id in mem
    ensures Assigned(first, its + [it], MemberStep(s, mem, it, |its|))
  {
    hide Core, FateOf, InForce, OutcomeOf, IsMember, MemberStep, Apart;
    var its', mem' := its + [it], MemberStep(s, mem, it, |its|);
    StepMembers(s, it, mem, |its|);
    assert its'[..|its|] == its;
    forall i: nat
      ensures IsMember(mem', i) <==>
              i < |its'| && its'[i].Occur? && OutcomeOf(InForce(first, its'[..i]), its'[i].oc) == Counted
    {
      if i < |its| {
        assert its'[..i] == its[..i];
      }
    }
  }

  lemma FateCounts(s: Store, oc: Occurrence)
    requires Sound(s)
    ensures var f := FateOf(s, oc);
            && (f.Absorbed? || f.Opened? <==> OutcomeOf(s.pol, oc) == Counted)
            && (f.Absorbed? ==> f.id in s.objs)
  {
    hide Policy.Decide, Policy.MatchSuppress, Policy.Alertable, WithinWindow, KeyOfOcc, Worthy, Covered, Concerned;
    FateIff(s, oc);
  }

  /** In every run the detections share out among them exactly the occurrences that the policy in force asked for and no
      rule kept back, each to one detection, in order and with a verdict that says why. */
  lemma {:induction false} MembersTell(start: Store, its: seq<Item>)
    requires Core(start) && start.objs == map[]
    ensures AllMatched(start.pol, its, Members(start, its), Hits(start, its))
    ensures Assigned(start.pol, its, Members(start, its))
    ensures AllStand(Run(start, its), Hits(start, its))
    ensures forall id :: id in Members(start, its) <==> id in Run(start, its).objs
  {
    hide Core, Sound, Step, HitStep, MemberStep, AllStand, InForce, AllMatched, Assigned;
    DetectionsSummarise(start, its);
    if its == [] {
      NoMembers(start.pol);
    } else {
      var init, it := its[..|its| - 1], its[|its| - 1];
      MembersTell(start, init);
      PolicyInForce(start, init);
      var s, mem, h := Run(start, init), Members(start, init), Hits(start, init);
      assert init + [it] == its;
      SameKeys(start.pol, init, mem, h);
      StepMatched(s, start.pol, init, it, mem, h);
      StepAssigned(s, start.pol, init, it, mem);
      MemberKeys(s, mem, it, |init|);
    }
  }

  lemma NoMembers(first: Policy)
    ensures AllMatched(first, [], map[], map[]) && Assigned(first, [], map[])
  {}

  lemma SameKeys(first: Policy, its: seq<Item>, mem: map<nat, seq<nat>>, h: map<nat, seq<Hit>>)
    requires AllMatched(first, its, mem, h)
    ensures forall id :: id in mem <==> id in h
  {
    hide Matched;
    assert forall id :: id in mem.Keys <==> id in h.Keys;
  }

  lemma MemberKeys(s: Store, mem: map<nat, seq<nat>>, it: Item, i: nat)
    requires Core(s) && Sound(s) && forall id :: id in mem <==> id in s.objs
    ensures forall id :: id in MemberStep(s, mem, it, i) <==> id in Step(s, it).objs
  {
    hide Core, Sound, Apply, FateOf;
    match it {
      case Occur(oc) => ApplyObjects(s, oc);
      case Swap(pol) =>
      case Retain(before) => PurgeFrame(s, before, |s.ring|);
    }
  }

  /** So a detection says what its occurrences were: it has their addresses and class, its count is their number, its
      severity is that of the class, and its reason is the true one of the first occurrence with the highest score. */
  lemma DetectionTells(start: Store, its: seq<Item>, id: nat) returns (w: nat)
    requires Core(start) && start.objs == map[] && id in Run(start, its).objs
    ensures id in Members(start, its) && w < |Members(start, its)[id]|
    ensures var d, at := Run(start, its).objs[id], Members(start, its)[id];
            && d.count == |at| && Graded(d.severity, d.cls)
            && (forall k :: 0 <= k < |at| ==>
                  && at[k] < |its| && its[at[k]].Occur?
                  && (its[at[k]].oc.src, its[at[k]].oc.dst, its[at[k]].oc.cls) == (d.src, d.dst, d.cls)
                  && its[at[k]].oc.score <= d.confidence && (k < w ==> its[at[k]].oc.score < d.confidence))
            && its[at[w]].oc.score == d.confidence && its[at[w]].oc.models == d.models
            && Names(d.reason, InForce(start.pol, its[..at[w]]), its[at[w]].oc)
  {
    hide Run, Members, Hits, Core, InForce, Names, Graded, Assigned, OutcomeOf, Stands, Matched;
    MembersTell(start, its);
    var d, at, hs := Run(start, its).objs[id], Members(start, its)[id], Hits(start, its)[id];
    assert Stands(d, hs) && Matched(start.pol, its, at, hs);
    w := StandsTells(start.pol, its, d, at, hs);
  }

  lemma StandsTells(first: Policy, its: seq<Item>, d: Det, at: seq<nat>, hs: seq<Hit>) returns (w: nat)
    requires Stands(d, hs) && Matched(first, its, at, hs)
    ensures w < |at| && d.count == |at| && Graded(d.severity, d.cls)
    ensures forall k :: 0 <= k < |at| ==>
              && at[k] < |its| && its[at[k]].Occur?
              && (its[at[k]].oc.src, its[at[k]].oc.dst, its[at[k]].oc.cls) == (d.src, d.dst, d.cls)
              && its[at[k]].oc.score <= d.confidence && (k < w ==> its[at[k]].oc.score < d.confidence)
    ensures its[at[w]].oc.score == d.confidence && its[at[w]].oc.models == d.models
    ensures Names(d.reason, InForce(first, its[..at[w]]), its[at[w]].oc)
  {
    hide InForce, Names, Graded, OutcomeOf;
    w :| FirstWorst(hs, w) && (d.confidence, d.reason, d.models) == (hs[w].oc.score, hs[w].v.reason, hs[w].oc.models);
    forall k | 0 <= k < |at| ensures Justified(first, its, at[k], hs[k]) {}
  }
}
