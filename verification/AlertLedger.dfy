/** The books of the detection store: every occurrence has exactly one fate, and each detection is
    the summary of the occurrences it stands for. */
module AlertLedger {
  import opened Common
  import opened AlertSpec
  import opened AlertInvariant

  // ---- fates ----

  /** The occurrences of a run that no policy could have alerted on; nothing else goes uncounted. */
  ghost function IgnoredIn(start: Store, its: seq<Item>): nat
    requires Core(start)
  {
    if its == [] then 0
    else
      var init, it := its[..|its| - 1], its[|its| - 1];
      IgnoredIn(start, init) + if it.Occur? && FateOf(Run(start, init), it.oc).Ignored? then 1 else 0
  }

  /** Detections opened, counts folded: what all detections ever opened stand for, up to ID n. */
  function SumCounts(objs: map<nat, Det>, n: nat): nat
    requires forall id :: 1 <= id <= n ==> id in objs
  {
    if n == 0 then 0 else SumCounts(objs, n - 1) + objs[n].count
  }

  lemma {:induction false} SumUnchanged(objs: map<nat, Det>, objs': map<nat, Det>, n: nat)
    requires forall id :: 1 <= id <= n ==> id in objs && id in objs' && objs[id].count == objs'[id].count
    ensures SumCounts(objs, n) == SumCounts(objs', n)
  {
    if n > 0 {
      SumUnchanged(objs, objs', n - 1);
    }
  }

  lemma {:induction false} SumBumped(objs: map<nat, Det>, id: nat, d: Det, n: nat)
    requires 1 <= id <= n && (forall j :: 1 <= j <= n ==> j in objs) && d.count == objs[id].count + 1
    ensures SumCounts(objs[id := d], n) == SumCounts(objs, n) + 1
  {
    if n == id {
      SumUnchanged(objs, objs[id := d], n - 1);
    } else {
      SumBumped(objs, id, d, n - 1);
    }
  }

  /** Every occurrence is counted once, and every alert that is not suppressed shows up in the count
      of exactly one detection. */
  ghost predicate Booked(s: Store, ignored: nat) {
    && Objects(s)
    && s.stats.observed == ignored + s.stats.suppressed + s.stats.suppressedByRule + s.stats.created + s.stats.deduped
    && SumCounts(s.objs, s.nextID) == s.stats.created + s.stats.deduped
  }

  lemma FoldBooked(s: Store, id: nat, oc: Occurrence, v: Verdict, ignored: nat)
    requires Booked(s, ignored) && id in s.objs
    ensures Booked(s.(objs := s.objs[id := FoldDet(s.objs[id], oc, v)],
                      stats := s.stats.(observed := s.stats.observed + 1, deduped := s.stats.deduped + 1)), ignored)
  {
    hide FoldDet, SumCounts;
    FoldCounts(s.objs[id], oc, v);
    SumBumped(s.objs, id, FoldDet(s.objs[id], oc, v), s.nextID);
  }

  lemma OpenBooked(s: Store, oc: Occurrence, v: Verdict, ignored: nat)
    requires Booked(s, ignored) && Sound(s)
    ensures Booked(Install(EvictHead(s.(stats := s.stats.(observed := s.stats.observed + 1))), oc, v), ignored)
  {
    hide NewDet, SumCounts, EvictHead, KeyOfOcc, NextSlot;
    EvictFrame(s.(stats := s.stats.(observed := s.stats.observed + 1)));
    var id := s.nextID + 1;
    var d := NewDet(id, oc, v);
    NewCounts(id, oc, v);
    SumUnchanged(s.objs, s.objs[id := d], s.nextID);
    SumNewest(s.objs[id := d], id);
  }

  lemma ApplyBooked(s: Store, oc: Occurrence, ignored: nat)
    requires Core(s) && Sound(s) && Booked(s, ignored)
    ensures Booked(Apply(s, oc), ignored + if FateOf(s, oc).Ignored? then 1 else 0)
  {
    hide Core, KeyOfOcc, WithinWindow, FoldDet, SumCounts, EvictHead, Install, Policy.Decide, Policy.MatchSuppress;
    var v := s.pol.Decide(oc.cls, oc.score, oc.disagreement);
    match FateOf(s, oc) {
      case Absorbed(id) => FoldBooked(s, id, oc, v, ignored);
      case Opened => OpenBooked(s, oc, v, ignored);
      case _ =>
    }
  }

  lemma FoldCounts(d: Det, oc: Occurrence, v: Verdict)
    ensures FoldDet(d, oc, v).count == d.count + 1 && FoldDet(d, oc, v).id == d.id
  {}

  lemma NewCounts(id: nat, oc: Occurrence, v: Verdict)
    ensures NewDet(id, oc, v).count == 1 && NewDet(id, oc, v).id == id
  {}

  lemma SumNewest(objs: map<nat, Det>, n: nat)
    requires n > 0 && forall id :: 1 <= id <= n ==> id in objs
    ensures SumCounts(objs, n) == SumCounts(objs, n - 1) + objs[n].count
  {}

  lemma {:induction false} PurgeKeepsBooks(s: Store, before: Time, n: nat)
    requires n <= |s.ring|
    ensures var s' := PurgeTo(s, before, n);
            s'.nextID == s.nextID && s'.objs == s.objs && s'.stats == s.stats.(expired := s'.stats.expired)
  {
    hide Stale;
    if n > 0 {
      PurgeKeepsBooks(s, before, n - 1);
    }
  }

  /** In every run: observed = ignored + suppressed + suppressed by rule + created + deduped, the
      counts of all detections ever opened add up to created + deduped, and
      created = retained + evicted + expired. */
  lemma {:induction false} BooksBalance(pol: Policy, window: int, maxRecent: nat, its: seq<Item>)
    requires window >= 0 && maxRecent > 0
    ensures Core(New(pol, window, maxRecent))
    ensures var start := New(pol, window, maxRecent);
            Booked(Run(start, its), IgnoredIn(start, its)) && Balanced(Run(start, its))
  {
    hide Core, Apply, Purge, Booked, Balanced;
    var start := New(pol, window, maxRecent);
    NewInv(pol, window, maxRecent);
    if its == [] {
      assert Booked(start, 0) by { NewBooked(pol, window, maxRecent); }
    } else {
      var init, it := its[..|its| - 1], its[|its| - 1];
      BooksBalance(pol, window, maxRecent, init);
      var s := Run(start, init);
      match it {
        case Occur(oc) => ApplyBooked(s, oc, IgnoredIn(start, init));
        case Swap(p) => BookedIgnoresPolicy(s, p, IgnoredIn(start, init));
        case Retain(before) => PurgeBooked(s, before, IgnoredIn(start, init));
      }
    }
    CoreBalanced(Run(start, its));
  }

  lemma NewBooked(pol: Policy, window: int, maxRecent: nat)
    ensures Booked(New(pol, window, maxRecent), 0)
  {}

  lemma CoreBalanced(s: Store)
    requires Core(s)
    ensures Balanced(s)
  {}

  lemma BookedIgnoresPolicy(s: Store, pol: Policy, ignored: nat)
    requires Booked(s, ignored)
    ensures Booked(SetPolicy(s, pol), ignored)
  {}

  lemma PurgeBooked(s: Store, before: Time, ignored: nat)
    requires Booked(s, ignored)
    ensures Booked(Purge(s, before), ignored)
  {
    PurgeKeepsBooks(s, before, |s.ring|);
  }

  // ---- what one detection stands for ----

  datatype Hit = Hit(oc: Occurrence, v: Verdict)

  /** The occurrence lists of all detections, by ID. */
  ghost function Hits(start: Store, its: seq<Item>): map<nat, seq<Hit>>
    requires Core(start)
  {
    if its == [] then map[]
    else
      var init, it := its[..|its| - 1], its[|its| - 1];
      HitStep(Run(start, init), Hits(start, init), it)
  }

  function HitStep(s: Store, h: map<nat, seq<Hit>>, it: Item): map<nat, seq<Hit>>
    requires Sound(s)
  {
    if !it.Occur? then h
    else
      var hit := Hit(it.oc, s.pol.Decide(it.oc.cls, it.oc.score, it.oc.disagreement));
      match FateOf(s, it.oc)
      case Absorbed(id) => if id in h then h[id := h[id] + [hit]] else h
      case Opened => h[s.nextID + 1 := [hit]]
      case _ => h
  }

  /** The flow list that a list of occurrences leaves behind. */
  function FlowsOf(hs: seq<Hit>): seq<nat> {
    if hs == [] then [] else AddFlow(FlowsOf(hs[..|hs| - 1]), hs[|hs| - 1].oc.flowID)
  }

  /** The first occurrence with the highest score, and so the one that Reason quotes. */
  predicate FirstWorst(hs: seq<Hit>, w: nat) {
    && w < |hs|
    && (forall i :: 0 <= i < |hs| ==> hs[i].oc.score <= hs[w].oc.score)
    && (forall i :: 0 <= i < w ==> hs[i].oc.score < hs[w].oc.score)
  }

  /** Identity, from the first occurrence. */
  ghost predicate Identity(d: Det, hs: seq<Hit>)
    requires hs != []
  {
    var o := hs[0].oc;
    && (d.ts, d.flowID, d.srcPort, d.dstPort, d.proto) == (o.ts, o.flowID, o.srcPort, o.dstPort, o.proto)
    && d.severity == hs[0].v.severity && KeyOfDet(d) == KeyOfOcc(o)
  }

  /** Recency: the latest timestamp and the flow list. */
  ghost predicate Recency(d: Det, hs: seq<Hit>) {
    && (forall i :: 0 <= i < |hs| ==> hs[i].oc.ts <= d.lastTS)
    && (exists i :: 0 <= i < |hs| && hs[i].oc.ts == d.lastTS)
    && d.flowIDs == FlowsOf(hs)
  }

  /** Worst case: score, sentence and models of one and the same occurrence. */
  ghost predicate WorstCase(d: Det, hs: seq<Hit>) {
    exists w: nat :: FirstWorst(hs, w) &&
                     (d.confidence, d.reason, d.models) == (hs[w].oc.score, hs[w].v.reason, hs[w].oc.models)
  }

  ghost predicate Aggregate(d: Det, hs: seq<Hit>) {
    && d.count == |hs|
    && (d.disagreement <==> exists i :: 0 <= i < |hs| && hs[i].oc.disagreement)
    && (forall i :: 0 <= i < |hs| ==> KeyOfOcc(hs[i].oc) == KeyOfDet(d))
  }

  ghost predicate Stands(d: Det, hs: seq<Hit>) {
    hs != [] && Identity(d, hs) && Recency(d, hs) && WorstCase(d, hs) && Aggregate(d, hs)
  }

  lemma NewStands(id: nat, oc: Occurrence, v: Verdict)
    ensures Stands(NewDet(id, oc, v), [Hit(oc, v)])
  {
    var hs := [Hit(oc, v)];
    assert hs[0].oc.ts == oc.ts && hs[0].oc.disagreement == oc.disagreement;
    assert FirstWorst(hs, 0);
    assert FlowsOf(hs[..0]) == [];
  }

  lemma FoldStands(d: Det, hs: seq<Hit>, oc: Occurrence, v: Verdict)
    requires Stands(d, hs) && KeyOfOcc(oc) == KeyOfDet(d)
    ensures Stands(FoldDet(d, oc, v), hs + [Hit(oc, v)])
  {
    hide Identity, Recency, WorstCase, Aggregate, FoldDet;
    FoldIdentity(d, hs, oc, v);
    FoldRecency(d, hs, oc, v);
    FoldWorst(d, hs, oc, v);
    FoldAggregate(d, hs, oc, v);
  }

  lemma FoldIdentity(d: Det, hs: seq<Hit>, oc: Occurrence, v: Verdict)
    requires hs != [] && Identity(d, hs)
    ensures Identity(FoldDet(d, oc, v), hs + [Hit(oc, v)])
  {
    hide AddFlow;
    assert (hs + [Hit(oc, v)])[0] == hs[0];
  }

  lemma FoldRecency(d: Det, hs: seq<Hit>, oc: Occurrence, v: Verdict)
    requires Recency(d, hs)
    ensures Recency(FoldDet(d, oc, v), hs + [Hit(oc, v)])
  {
    hide AddFlow;
    var hs', d' := hs + [Hit(oc, v)], FoldDet(d, oc, v);
    assert hs'[..|hs|] == hs && hs'[|hs|] == Hit(oc, v);
    assert d'.flowIDs == FlowsOf(hs');
    hide FlowsOf;
    var i :| 0 <= i < |hs| && hs[i].oc.ts == d.lastTS;
    assert hs'[if oc.ts > d.lastTS then |hs| else i].oc.ts == d'.lastTS;
  }

  lemma FoldWorst(d: Det, hs: seq<Hit>, oc: Occurrence, v: Verdict)
    requires WorstCase(d, hs)
    ensures WorstCase(FoldDet(d, oc, v), hs + [Hit(oc, v)])
  {
    hide AddFlow;
    var hs' := hs + [Hit(oc, v)];
    var w: nat :| FirstWorst(hs, w) &&
                  (d.confidence, d.reason, d.models) == (hs[w].oc.score, hs[w].v.reason, hs[w].oc.models);
    assert hs'[|hs|] == Hit(oc, v) && hs'[w] == hs[w];
    assert FirstWorst(hs', if oc.score > d.confidence then |hs| else w);
  }

  lemma FoldAggregate(d: Det, hs: seq<Hit>, oc: Occurrence, v: Verdict)
    requires Aggregate(d, hs) && KeyOfOcc(oc) == KeyOfDet(d)
    ensures Aggregate(FoldDet(d, oc, v), hs + [Hit(oc, v)])
  {
    hide AddFlow;
    var hs' := hs + [Hit(oc, v)];
    assert hs'[|hs|] == Hit(oc, v);
    if d.disagreement {
      var j :| 0 <= j < |hs| && hs[j].oc.disagreement;
      assert hs'[j].oc.disagreement;
    }
  }

  ghost predicate AllStand(s: Store, h: map<nat, seq<Hit>>) {
    forall id :: id in s.objs ==> id in h && Stands(s.objs[id], h[id])
  }

  lemma StepStands(s: Store, h: map<nat, seq<Hit>>, it: Item)
    requires Core(s) && Sound(s) && AllStand(s, h)
    ensures AllStand(Step(s, it), HitStep(s, h, it))
  {
    hide Core, Stands, KeyOfDet, KeyOfOcc, WithinWindow, FoldDet, NewDet, EvictHead, PurgeTo,
         Policy.Decide, Policy.MatchSuppress;
    match it {
      case Occur(oc) =>
        var v := s.pol.Decide(oc.cls, oc.score, oc.disagreement);
        var s0 := s.(stats := s.stats.(observed := s.stats.observed + 1));
        match FateOf(s, oc) {
          case Absorbed(id) =>
            ActiveKey(s, KeyOfOcc(oc));
            FoldStands(s.objs[id], h[id], oc, v);
          case Opened =>
            EvictFrame(s0);
            NewStands(s.nextID + 1, oc, v);
          case _ =>
        }
      case Swap(p) =>
      case Retain(before) =>
        PurgeKeepsBooks(s, before, |s.ring|);
    }
  }

  lemma ActiveKey(s: Store, k: DKey)
    requires Core(s) && k in s.active
    ensures s.active[k] in s.objs && KeyOfDet(s.objs[s.active[k]]) == k
  {}

  /** In every run, every detection ever opened, retained or not, is the summary of its occurrences:
      identity from the first, Confidence, Reason and Models from the first worst one. */
  lemma {:induction false} DetectionsSummarise(start: Store, its: seq<Item>)
    requires Core(start) && start.objs == map[]
    ensures AllStand(Run(start, its), Hits(start, its))
  {
    hide Core, AllStand, Step, HitStep;
    if its == [] {
      assert AllStand(start, map[]) by { NoneStand(start); }
    } else {
      var init := its[..|its| - 1];
      DetectionsSummarise(start, init);
      StepStands(Run(start, init), Hits(start, init), its[|its| - 1]);
    }
  }

  lemma NoneStand(s: Store)
    requires s.objs == map[]
    ensures AllStand(s, map[])
  {}

  // ---- the flow list ----

  /** The list holds flows that did occur, the latest among them; all of them, while it is not full. */
  lemma {:induction false} FlowListHolds(hs: seq<Hit>)
    requires hs != []
    ensures var ids := FlowsOf(hs);
            && 1 <= |ids| <= MAX_FLOW_IDS && hs[|hs| - 1].oc.flowID in ids
            && (forall i, j :: 0 <= i < j < |ids| ==> ids[i] != ids[j])
            && (forall x :: x in ids ==> exists i :: 0 <= i < |hs| && hs[i].oc.flowID == x)
            && (|ids| < MAX_FLOW_IDS ==> forall i :: 0 <= i < |hs| ==> hs[i].oc.flowID in ids)
  {
    var init, id := hs[..|hs| - 1], hs[|hs| - 1].oc.flowID;
    if init == [] {
      assert FlowsOf(init) == [] && FlowsOf(hs) == [id];
    } else {
      FlowListHolds(init);
      var ids := FlowsOf(init);
      AddFlowFacts(ids, id);
      forall x | x in FlowsOf(hs) ensures exists i :: 0 <= i < |hs| && hs[i].oc.flowID == x {
        if x == id {
          assert hs[|hs| - 1].oc.flowID == x;
        } else {
          var i :| 0 <= i < |init| && init[i].oc.flowID == x;
          assert hs[i].oc.flowID == x;
        }
      }
      if |FlowsOf(hs)| < MAX_FLOW_IDS {
        forall i | 0 <= i < |hs| ensures hs[i].oc.flowID in FlowsOf(hs) {
          if i < |init| {
            assert init[i].oc.flowID in ids;
            AddFlowKeeps(ids, id, hs[i].oc.flowID);
          }
        }
      }
    }
  }

  lemma AddFlowKeeps(ids: seq<nat>, id: nat, x: nat)
    requires x in ids && |ids| < MAX_FLOW_IDS
    ensures x in AddFlow(ids, id)
  {
    if id !in ids {
      var i :| 0 <= i < |ids| && ids[i] == x;
      assert AddFlow(ids, id)[i] == x;
    }
  }

  /** When flow x last occurred: one more than its position, 0 for never. */
  function LastAt(hs: seq<Hit>, x: nat): (at: nat)
    ensures at <= |hs|
  {
    if hs == [] then 0 else if hs[|hs| - 1].oc.flowID == x then |hs| else LastAt(hs[..|hs| - 1], x)
  }

  /** The documented promise: the listed flows are the ones that occurred most recently. */
  ghost predicate Newest(hs: seq<Hit>) {
    forall x, y :: x in FlowsOf(hs) && y !in FlowsOf(hs) ==> LastAt(hs, y) < LastAt(hs, x)
  }

  /** A full list keeps that promise exactly when the flow it drops is the one that has been silent
      longest; it drops the one that was listed first, which need not be the same. */
  lemma NewestIff(hs: seq<Hit>, hit: Hit)
    requires hs != [] && Newest(hs) && |FlowsOf(hs)| == MAX_FLOW_IDS && hit.oc.flowID !in FlowsOf(hs)
    ensures Newest(hs + [hit]) <==>
            forall i :: 0 <= i < MAX_FLOW_IDS ==> LastAt(hs, FlowsOf(hs)[0]) <= LastAt(hs, FlowsOf(hs)[i])
  {
    hide Newest, FlowsOf, LastAt;
    var ids := FlowsOf(hs);
    if forall i :: 0 <= i < MAX_FLOW_IDS ==> LastAt(hs, ids[0]) <= LastAt(hs, ids[i]) {
      DropsOldest(hs, hit);
    } else {
      var i :| 0 <= i < MAX_FLOW_IDS && LastAt(hs, ids[i]) < LastAt(hs, ids[0]);
      DropsNewer(hs, hit, i);
    }
  }

  /** What one more occurrence of a flow that is not listed does to a full list. */
  lemma OneMore(hs: seq<Hit>, hit: Hit)
    requires hs != [] && |FlowsOf(hs)| == MAX_FLOW_IDS && hit.oc.flowID !in FlowsOf(hs)
    ensures var ids, id := FlowsOf(hs), hit.oc.flowID;
            FlowsOf(hs + [hit]) == ids[1..] + [id] && ids[0] !in ids[1..] + [id]
    ensures forall x :: LastAt(hs + [hit], x) == if x == hit.oc.flowID then |hs| + 1 else LastAt(hs, x)
  {
    FlowListHolds(hs);
    assert (hs + [hit])[..|hs|] == hs;
  }

  lemma DropsOldest(hs: seq<Hit>, hit: Hit)
    requires hs != [] && Newest(hs) && |FlowsOf(hs)| == MAX_FLOW_IDS && hit.oc.flowID !in FlowsOf(hs)
    requires forall i :: 0 <= i < MAX_FLOW_IDS ==> LastAt(hs, FlowsOf(hs)[0]) <= LastAt(hs, FlowsOf(hs)[i])
    ensures Newest(hs + [hit])
  {
    var hs', ids, id := hs + [hit], FlowsOf(hs), hit.oc.flowID;
    OneMore(hs, hit);
    FlowListHolds(hs);
    hide FlowsOf, LastAt;
    forall x, y | x in FlowsOf(hs') && y !in FlowsOf(hs') ensures LastAt(hs', y) < LastAt(hs', x) {
      if x != id {
        var i :| 0 < i < |ids| && ids[i] == x;
        if y == ids[0] {
          DistinctFlowsDistinctTimes(hs, x, y);
        } else {
          NotDropped(ids, id, y);
        }
      }
    }
  }

  lemma DropsNewer(hs: seq<Hit>, hit: Hit, i: nat)
    requires hs != [] && |FlowsOf(hs)| == MAX_FLOW_IDS && hit.oc.flowID !in FlowsOf(hs)
    requires i < MAX_FLOW_IDS && LastAt(hs, FlowsOf(hs)[i]) < LastAt(hs, FlowsOf(hs)[0])
    ensures !Newest(hs + [hit])
  {
    var hs', ids, id := hs + [hit], FlowsOf(hs), hit.oc.flowID;
    OneMore(hs, hit);
    hide FlowsOf, LastAt;
    assert (ids[1..] + [id])[i - 1] == ids[i];
    assert ids[i] != id && ids[0] != id;
  }

  lemma NotDropped(ids: seq<nat>, id: nat, y: nat)
    requires |ids| > 0 && y !in ids[1..] + [id] && y != ids[0]
    ensures y !in ids
  {
    assert ids == [ids[0]] + ids[1..];
    assert y !in ids[1..];
  }

  lemma {:induction false} DistinctFlowsDistinctTimes(hs: seq<Hit>, x: nat, y: nat)
    requires x != y && exists i :: 0 <= i < |hs| && hs[i].oc.flowID == x
    ensures LastAt(hs, x) != LastAt(hs, y)
  {
    if hs[|hs| - 1].oc.flowID != x && hs[|hs| - 1].oc.flowID != y {
      var i :| 0 <= i < |hs| && hs[i].oc.flowID == x;
      assert hs[..|hs| - 1][i].oc.flowID == x;
      DistinctFlowsDistinctTimes(hs[..|hs| - 1], x, y);
    }
  }

  // ---- and for whole lists ----

  /** If the next occurrence pushes a flow out of the list, it is the one that has been silent longest. */
  predicate DropsSilent(hs: seq<Hit>, hit: Hit) {
    |FlowsOf(hs)| >= MAX_FLOW_IDS && hit.oc.flowID !in FlowsOf(hs) ==>
      forall i :: 0 <= i < |FlowsOf(hs)| ==> LastAt(hs, FlowsOf(hs)[0]) <= LastAt(hs, FlowsOf(hs)[i])
  }

  lemma NoneListed()
    ensures FlowsOf([]) == [] && Newest([])
  {}

  lemma NewestStep(hs: seq<Hit>, hit: Hit)
    requires Newest(hs)
    ensures Newest(hs + [hit]) <==> DropsSilent(hs, hit)
  {
    hide Newest, FlowsOf, LastAt;
    NoneListed();
    if hs != [] {
      FlowListHolds(hs);
    }
    if hit.oc.flowID in FlowsOf(hs) {
      KnownKeepsNewest(hs, hit);
    } else if |FlowsOf(hs)| < MAX_FLOW_IDS {
      RoomKeepsNewest(hs, hit);
    } else {
      NewestIff(hs, hit);
    }
  }

  lemma KnownKeepsNewest(hs: seq<Hit>, hit: Hit)
    requires Newest(hs) && hit.oc.flowID in FlowsOf(hs)
    ensures Newest(hs + [hit])
  {
    var hs' := hs + [hit];
    assert hs'[..|hs|] == hs;
    assert FlowsOf(hs') == FlowsOf(hs);
    assert forall x :: LastAt(hs', x) == if x == hit.oc.flowID then |hs| + 1 else LastAt(hs, x);
  }

  /** While the list is not full, a flow that is not listed has not occurred. */
  lemma RoomKeepsNewest(hs: seq<Hit>, hit: Hit)
    requires hit.oc.flowID !in FlowsOf(hs) && |FlowsOf(hs)| < MAX_FLOW_IDS
    ensures Newest(hs + [hit])
  {
    var hs' := hs + [hit];
    assert hs'[..|hs|] == hs;
    assert FlowsOf(hs') == FlowsOf(hs) + [hit.oc.flowID];
    FlowListHolds(hs');
    forall x, y | x in FlowsOf(hs') && y !in FlowsOf(hs') ensures LastAt(hs', y) < LastAt(hs', x) {
      if x == hit.oc.flowID {
        assert y != x;
      } else {
        assert x in FlowsOf(hs);
        FlowListHolds(hs);
        Occurred(hs, x);
        NotOccurred(hs, y);
      }
    }
  }

  lemma {:induction false} Occurred(hs: seq<Hit>, x: nat)
    requires exists i :: 0 <= i < |hs| && hs[i].oc.flowID == x
    ensures LastAt(hs, x) > 0
  {
    if hs[|hs| - 1].oc.flowID != x {
      var i :| 0 <= i < |hs| && hs[i].oc.flowID == x;
      assert hs[..|hs| - 1][i].oc.flowID == x;
      Occurred(hs[..|hs| - 1], x);
    }
  }

  lemma {:induction false} NotOccurred(hs: seq<Hit>, x: nat)
    requires forall i :: 0 <= i < |hs| ==> hs[i].oc.flowID != x
    ensures LastAt(hs, x) == 0
  {
    if hs != [] {
      NotOccurred(hs[..|hs| - 1], x);
    }
  }

  /** The promise holds at every moment exactly for the lists in which each flow that is pushed out has been silent
      longest. */
  lemma {:induction false} AlwaysNewestIff(hs: seq<Hit>)
    ensures (forall n :: 0 <= n <= |hs| ==> Newest(hs[..n])) <==>
            (forall n :: 0 <= n < |hs| ==> DropsSilent(hs[..n], hs[n]))
  {
    hide Newest, DropsSilent;
    if hs == [] {
      NoneListed();
      assert hs[..0] == [];
    } else {
      var init := hs[..|hs| - 1];
      AlwaysNewestIff(init);
      assert forall n :: 0 <= n <= |init| ==> init[..n] == hs[..n];
      assert hs[..|hs|] == hs == init + [hs[|hs| - 1]];
      if Newest(init) {
        NewestStep(init, hs[|hs| - 1]);
      } else {
        assert init[..|init|] == init;
      }
    }
  }

  // ---- a run in which the promise fails ----

  function UpTo(n: nat): seq<nat> { seq(n, i requires 0 <= i < n => i + 1) }

  lemma InUpTo(n: nat)
    ensures forall y: nat :: y in UpTo(n) <==> 1 <= y <= n
  {
    forall y: nat | 1 <= y <= n ensures y in UpTo(n) {
      assert UpTo(n)[y - 1] == y;
    }
  }

  /** One occurrence each of the flows 1..n. */
  function Sweep(o: Hit, n: nat): seq<Hit> {
    seq(n, i requires 0 <= i < n => o.(oc := o.oc.(flowID := i + 1)))
  }

  lemma {:induction false} SweepListed(o: Hit, n: nat)
    requires n <= MAX_FLOW_IDS
    ensures FlowsOf(Sweep(o, n)) == UpTo(n)
    ensures forall x: nat :: LastAt(Sweep(o, n), x) == if 1 <= x <= n then x else 0
  {
    if n > 0 {
      SweepListed(o, n - 1);
      InUpTo(n - 1);
      assert Sweep(o, n)[..n - 1] == Sweep(o, n - 1);
      assert UpTo(n - 1) + [n] == UpTo(n);
    }
  }

  /** Twenty flows, the first of them again, then a new one: the list drops the first flow, though
      it is the one that occurred last. */
  lemma ReturningFlowDropped(o: Hit)
    ensures var hs := Sweep(o, MAX_FLOW_IDS) + [o.(oc := o.oc.(flowID := 1))];
            Newest(hs) && !Newest(hs + [o.(oc := o.oc.(flowID := MAX_FLOW_IDS + 1))])
  {
    var n, swept, ids := MAX_FLOW_IDS, Sweep(o, MAX_FLOW_IDS), UpTo(MAX_FLOW_IDS);
    var again, novel := o.(oc := o.oc.(flowID := 1)), o.(oc := o.oc.(flowID := n + 1));
    var hs := swept + [again];
    SweepListed(o, n);
    InUpTo(n);
    assert hs[..|swept|] == swept;
    assert FlowsOf(hs) == ids;
    hide FlowsOf, UpTo;
    assert forall x :: x in ids ==> LastAt(hs, x) > 0;
    assert forall y: nat :: y !in ids ==> LastAt(hs, y) == 0;
    NewestIff(hs, novel);
    FirstTwo();
    assert LastAt(hs, ids[0]) > LastAt(hs, ids[1]);
  }

  lemma FirstTwo()
    ensures |UpTo(MAX_FLOW_IDS)| == MAX_FLOW_IDS && UpTo(MAX_FLOW_IDS)[0] == 1 && UpTo(MAX_FLOW_IDS)[1] == 2
  {}
}
