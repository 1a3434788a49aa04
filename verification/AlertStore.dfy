/** The mutable detection store of internal/alert/alert.go: detections are heap objects shared by
    the ring, the ID index and the active index. Model() is the abstract store; ghost fields hold
    the parts of it that the objects and pointers stand for. */
module AlertStore {
  import opened Common
  import opened Spec = AlertSpec
  import opened AlertInvariant
  import opened AlertQuery

  class Detection {
    var id: nat
    var ts: Time
    var lastTS: Time
    var count: nat
    var cls: string
    var severity: Severity
    var confidence: real
    var flowID: nat
    var flowIDs: seq<nat>
    var src: string
    var dst: string
    var srcPort: nat
    var dstPort: nat
    var proto: string
    var disagreement: bool
    var reason: Reason
    var models: seq<ModelVerdict>

    function Clone(): Det
      reads this
    {
      Det(id, ts, lastTS, count, cls, severity, confidence, flowID, flowIDs, src, dst, srcPort, dstPort, proto,
          disagreement, reason, models)
    }

    constructor (d: Det)
      ensures Clone() == d
    {
      id, ts, lastTS, count := d.id, d.ts, d.lastTS, d.count;
      cls, severity, confidence := d.cls, d.severity, d.confidence;
      flowID, flowIDs, src, dst := d.flowID, d.flowIDs, d.src, d.dst;
      srcPort, dstPort, proto := d.srcPort, d.dstPort, d.proto;
      disagreement, reason, models := d.disagreement, d.reason, d.models;
    }

    method Fold(oc: Occurrence, v: Verdict)
      requires |flowIDs| <= MAX_FLOW_IDS
      modifies this
      ensures Clone() == FoldDet(old(Clone()), oc, v)
    {
      hide AddFlow;
      FoldScalars(oc, v);
      NoteFlow(oc.flowID);
    }

    /** Everything a repeat occurrence changes but the flow list. */
    method FoldScalars(oc: Occurrence, v: Verdict)
      modifies this
      ensures Clone() == FoldDet(old(Clone()), oc, v).(flowIDs := old(flowIDs))
    {
      hide AddFlow;
      count := count + 1;
      if oc.ts > lastTS {
        lastTS := oc.ts;
      }
      if oc.disagreement {
        disagreement := true;
      }
      NoteScore(oc, v);
    }

    /** The highest score so far explains the detection. */
    method NoteScore(oc: Occurrence, v: Verdict)
      modifies `confidence, `reason, `models
      ensures var higher := oc.score > old(confidence);
              Clone() == old(Clone()).(confidence := if higher then oc.score else old(confidence),
                                       reason := if higher then v.reason else old(reason),
                                       models := if higher then oc.models else old(models))
    {
      if oc.score > confidence {
        confidence := oc.score;
        reason := v.reason;
        models := oc.models;
      }
    }

    /** The flow list: a set in order of listing, bounded. */
    method NoteFlow(flow: nat)
      requires |flowIDs| <= MAX_FLOW_IDS
      modifies `flowIDs
      ensures flowIDs == AddFlow(old(flowIDs), flow)
    {
      var i := 0;
      while i < |flowIDs|
        invariant i <= |flowIDs| && flow !in flowIDs[..i]
      {
        if flowIDs[i] == flow {
          return;
        }
        i := i + 1;
      }
      if |flowIDs| >= MAX_FLOW_IDS {
        flowIDs := flowIDs[1..];
      }
      flowIDs := flowIDs + [flow];
    }
  }

  class Store {
    const window: int
    const ring: array<Detection?>
    var pol: Policy
    var head: nat
    var full: bool
    var byID: map<nat, Detection>
    var active: map<DKey, Detection>
    var nextID: nat
    var hits: seq<nat>
    var stats: Counters
    ghost var objs: map<nat, Detection>  // every detection ever opened
    ghost var Repr: set<Detection>
    ghost var dets: map<nat, Det>        // what they hold
    ghost var slots: seq<nat>            // the ring, as IDs
    ghost var newest: map<DKey, nat>     // the active index, as IDs

    ghost function Model(): AlertSpec.Store
      reads this
    {
      AlertSpec.Store(pol, window, slots, head, full, byID.Keys, newest, nextID, dets, hits, stats)
    }

    /** The objects hold what the model says they hold. */
    ghost predicate Stored()
      reads `dets, `objs, `Repr, Repr
    {
      && objs.Keys == dets.Keys
      && (forall id :: id in objs ==> objs[id] in Repr && objs[id].Clone() == dets[id] && objs[id].id == id)
    }

    /** The ring points where the model says it points. */
    ghost predicate RingLinked()
      reads `slots, `objs, ring
    {
      && |slots| == ring.Length
      && (forall i :: 0 <= i < ring.Length ==>
                        if slots[i] == 0 then ring[i] == null
                        else slots[i] in objs && ring[i] == objs[slots[i]])
    }

    ghost predicate IndexLinked()
      reads `objs, `byID
    {
      forall id :: id in byID ==> id in objs && byID[id] == objs[id]
    }

    ghost predicate ActiveLinked()
      reads `newest, `objs, `active
    {
      && active.Keys == newest.Keys
      && (forall k :: k in active ==> newest[k] in objs && active[k] == objs[newest[k]])
    }

    ghost predicate Linked()
      reads `slots, `newest, `objs, `byID, `active, ring
    {
      RingLinked() && IndexLinked() && ActiveLinked()
    }

    ghost predicate Valid()
      reads this, ring, Repr
    {
      Stored() && Linked() && Core(Model()) && Sound(Model())
    }

    constructor (p: Policy, dedupWindow: int, maxRecent: nat)
      requires dedupWindow >= 0 && maxRecent > 0
      ensures Valid() && fresh(ring) && Repr == {}
      ensures Model() == New(p, dedupWindow, maxRecent)
    {
      window := dedupWindow;
      ring := new Detection?[maxRecent](_ => null);
      pol, head, full, nextID := p, 0, false, 0;
      byID, active := map[], map[];
      hits := seq(|p.suppress|, _ => 0);
      stats := Counters(0, 0, 0, 0, 0, 0, 0);
      objs, Repr, dets, slots, newest := map[], {}, map[], seq(maxRecent, _ => 0), map[];
      NewInv(p, dedupWindow, maxRecent);
      CoreSound(New(p, dedupWindow, maxRecent));
      new;
      hide Core, Sound;
      assert Model() == New(p, dedupWindow, maxRecent);
    }

    method Apply(oc: Occurrence)
      requires Valid()
      modifies this, ring, Repr
      ensures Valid() && fresh(Repr - old(Repr))
      ensures Model() == AlertSpec.Apply(old(Model()), oc)
    {
      hide Core, Sound, Stored, RingLinked, IndexLinked, KeyOfOcc, AlertSpec.Apply, Filtered, Passes, Kept;
      ApplyCore(Model(), oc);
      CoreSound(AlertSpec.Apply(Model(), oc));
      ApplyIs(Model(), oc);
      NextFree(Model());
      if KeyOfOcc(oc) in active {
        ActiveRoom(Model(), KeyOfOcc(oc));
      }
      HitsAligned(Model());
      FilteredKeeps(Model(), oc);
      var pass, v := Filter(oc);
      if pass {
        Keep(oc, v);
      }
    }

    /** The counters of what comes in, and whether it is an alert that no rule suppresses. */
    method Filter(oc: Occurrence) returns (pass: bool, v: Verdict)
      requires Stored() && Linked() && |hits| == |pol.suppress|
      modifies `stats, `hits
      ensures Stored() && Linked() && Model() == Filtered(old(Model()), oc)
      ensures pass == Passes(old(Model()), oc) && v == pol.Decide(oc.cls, oc.score, oc.disagreement)
    {
      hide Stored, Linked, Policy.Decide, Policy.MatchSuppress, Policy.Alertable;
      stats := stats.(observed := stats.observed + 1);
      v := pol.Decide(oc.cls, oc.score, oc.disagreement);
      if !v.alert {
        if pol.Alertable(oc.cls) {
          stats := stats.(suppressed := stats.suppressed + 1);
        }
        return false, v;
      }
      var rule := pol.MatchSuppress(oc, 0);
      if rule.Some? {
        stats := stats.(suppressedByRule := stats.suppressedByRule + 1);
        hits := hits[rule.value := hits[rule.value] + 1];
        return false, v;
      }
      pass := true;
    }

    /** The rest of Apply: the occurrence is an alert that no rule suppresses. */
    method Keep(oc: Occurrence, v: Verdict)
      requires Stored() && Linked() && Sound(Model()) && nextID + 1 !in dets
      requires KeyOfOcc(oc) in active ==>
                 && KeyOfOcc(oc) in newest && newest[KeyOfOcc(oc)] in dets
                 && |dets[newest[KeyOfOcc(oc)]].flowIDs| <= MAX_FLOW_IDS
      modifies this, ring, Repr
      ensures Stored() && Linked() && fresh(Repr - old(Repr)) && Model() == Kept(old(Model()), oc, v)
    {
      hide Sound, EvictHead, Install, FoldDet, Stored, WithinWindow, RingLinked, IndexLinked;
      HitsAligned(Model());
      var k := KeyOfOcc(oc);
      var live := Covers(k, oc.ts);
      if live {
        FoldActive(k, oc, v);
        stats := stats.(deduped := stats.deduped + 1);
      } else {
        Open(k, oc, v);
      }
    }

    /** Is there an active detection of k whose window still covers ts? */
    method Covers(k: DKey, ts: Time) returns (live: bool)
      requires Stored() && Linked() && (forall j :: j in newest ==> newest[j] in dets)
      ensures live <==> k in newest && WithinWindow(window, dets[newest[k]], ts)
    {
      live := false;
      if k in active {
        var d := active[k];
        CloneID(d);
        live := ts == ZERO_TIME || ts <= d.ts + window;
      }
    }

    /** Folds into the active detection of k. */
    method FoldActive(k: DKey, oc: Occurrence, v: Verdict)
      requires Stored() && Linked() && k in newest && newest[k] in dets && |dets[newest[k]].flowIDs| <= MAX_FLOW_IDS
      modifies Repr, `dets
      ensures Stored() && Linked()
      ensures dets == old(dets)[newest[k] := FoldDet(old(dets)[newest[k]], oc, v)]
    {
      hide Detection.Clone, FoldDet, RingLinked, IndexLinked;
      FoldObject(active[k], newest[k], oc, v);
    }

    /** Folds into the object d of detection id. */
    method FoldObject(d: Detection, ghost id: nat, oc: Occurrence, v: Verdict)
      requires Stored() && id in objs && objs[id] == d && |dets[id].flowIDs| <= MAX_FLOW_IDS
      modifies Repr, `dets
      ensures Stored() && dets == old(dets)[id := FoldDet(old(dets)[id], oc, v)]
    {
      hide Detection.Clone, FoldDet;
      CloneID(d);
      d.Fold(oc, v);
      dets := dets[id := d.Clone()];
      FoldKeepsID(old(dets)[id], oc, v);
      CloneID(d);
      forall j | j in objs ensures objs[j].Clone() == dets[j] && objs[j].id == j {
        if j != id {
          assert old(objs[j].id) == j;
        }
      }
    }

    method Open(k: DKey, oc: Occurrence, v: Verdict)
      requires Stored() && Linked() && Sound(Model()) && k == KeyOfOcc(oc) && nextID + 1 !in dets
      modifies this, ring
      ensures Stored() && Linked() && fresh(Repr - old(Repr))
      ensures Model() == Install(EvictHead(old(Model())), oc, v)
    {
      hide Stored, Linked, Sound, Install, EvictHead, KeyOfOcc;
      HeadSound(Model());
      EvictOldest();
      EvictFrame(old(Model()));
      OpenInHead(k, oc, v);
    }

    /** The rest of Open, with the head slot free. */
    method OpenInHead(k: DKey, oc: Occurrence, v: Verdict)
      requires Stored() && Linked() && k == KeyOfOcc(oc) && nextID + 1 !in dets && head < |slots|
      modifies this, ring
      ensures Stored() && Linked() && fresh(Repr - old(Repr))
      ensures Model() == Install(old(Model()), oc, v)
    {
      hide Stored, Linked, Install, Placed, Advanced, KeyOfOcc;
      InstallParts(Model(), oc, v);
      Place(k, oc, v);
      Advance();
    }

    method Place(k: DKey, oc: Occurrence, v: Verdict)
      requires Stored() && Linked() && k == KeyOfOcc(oc) && nextID + 1 !in dets && head < |slots|
      modifies this, ring
      ensures Stored() && Linked() && fresh(Repr - old(Repr))
      ensures Model() == Placed(old(Model()), oc, v)
    {
      hide Detection.Clone, NewDet, KeyOfOcc, Stored, Linked;
      nextID := nextID + 1;
      var d := new Detection(NewDet(nextID, oc, v));
      NewDetID(nextID, oc, v);
      Enter(d, k);
    }

    method Advance()
      requires Stored() && Linked() && |slots| > 0
      modifies `head, `full, `stats
      ensures Stored() && Linked() && Model() == Advanced(old(Model()))
    {
      hide Stored, NextSlot, IndexLinked, ActiveLinked;
      head := NextSlot(head, ring.Length);
      if head == 0 {
        full := true;
      }
      stats := stats.(created := stats.created + 1);
    }

    /** Makes room in the head slot. */
    method EvictOldest()
      requires Stored() && Linked() && head < |slots| && (slots[head] != 0 ==> slots[head] in dets)
      modifies `slots, `newest, `byID, `active, `stats, ring
      ensures Stored() && Linked() && Model() == EvictHead(old(Model())) && |slots| == old(|slots|)
    {
      hide Detection.Clone, Remove;
      if ring[head] != null {
        Unlink(head);
        stats := stats.(evicted := stats.evicted + 1);
      }
    }

    /** Stores d under the newest ID in the head slot and both indexes. */
    method Enter(d: Detection, k: DKey)
      requires Stored() && Linked() && head < |slots| && nextID !in dets && d !in Repr && nextID != 0
      requires d.Clone().id == nextID
      modifies `slots, `newest, `byID, `active, `objs, `dets, `Repr, ring
      ensures Stored() && Linked() && Repr == old(Repr) + {d}
      ensures slots == old(slots)[head := nextID] && newest == old(newest)[k := nextID]
      ensures byID.Keys == old(byID.Keys) + {nextID} && dets == old(dets)[nextID := d.Clone()]
    {
      hide Detection.Clone, Stored, RingLinked, IndexLinked, ActiveLinked;
      Adopt(d);
      PutInHead(d);
      PutInIndex(d);
      PutInActive(d, k);
    }

    method PutInIndex(d: Detection)
      requires IndexLinked() && nextID in objs && objs[nextID] == d
      modifies `byID
      ensures IndexLinked() && byID.Keys == old(byID.Keys) + {nextID}
    {
      byID := byID[nextID := d];
    }

    method PutInActive(d: Detection, k: DKey)
      requires ActiveLinked() && nextID in objs && objs[nextID] == d
      modifies `newest, `active
      ensures ActiveLinked() && newest == old(newest)[k := nextID]
    {
      active, newest := active[k := d], newest[k := nextID];
    }

    /** d joins the objects, before anything points to it. */
    ghost method Adopt(d: Detection)
      requires Stored() && Linked() && nextID !in dets && d !in Repr && d.Clone().id == nextID
      modifies `objs, `dets, `Repr
      ensures Stored() && Linked() && Repr == old(Repr) + {d} && nextID in objs && objs[nextID] == d
      ensures dets == old(dets)[nextID := d.Clone()]
    {
      hide Detection.Clone;
      CloneID(d);
      objs, dets, Repr := objs[nextID := d], dets[nextID := d.Clone()], Repr + {d};
      assert Stored() by { hide RingLinked, IndexLinked, ActiveLinked; }
      hide Stored;
      assert RingLinked() by { hide IndexLinked, ActiveLinked; }
      assert IndexLinked() by { hide RingLinked, ActiveLinked; }
      assert ActiveLinked() by { hide RingLinked, IndexLinked; }
    }

    method PutInHead(d: Detection)
      requires RingLinked() && head < |slots| && nextID != 0 && nextID in objs && objs[nextID] == d
      modifies `slots, ring
      ensures RingLinked() && slots == old(slots)[head := nextID]
    {
      ring[head] := d;
      slots := slots[head := nextID];
    }

    /** Takes the detection in slot i out of the ring and both indexes. */
    method Unlink(i: nat)
      requires Stored() && Linked() && i < ring.Length == |slots| && ring[i] != null && slots[i] in dets
      modifies `slots, `newest, `byID, `active, ring
      ensures Stored() && Linked() && Model() == Remove(old(Model()), i)
    {
      hide Detection.Clone, Remove, Stored, RingLinked, IndexLinked, ActiveLinked, KeyOfDet;
      SlotLeads(i);
      var d := ring[i];
      var id, k := d.id, DKey(d.src, d.dst, d.cls);
      UnlinkActive(d, k);
      UnlinkIndex(id);
      ClearSlot(i);
      RemoveParts(old(Model()), i, id, k, Model());
    }

    method UnlinkIndex(id: nat)
      requires IndexLinked()
      modifies `byID
      ensures IndexLinked() && byID.Keys == old(byID.Keys) - {id}
    {
      byID := byID - {id};
    }

    method ClearSlot(i: nat)
      requires RingLinked() && i < |slots|
      modifies `slots, ring
      ensures RingLinked() && slots == old(slots)[i := 0]
    {
      ring[i] := null;
      slots := slots[i := 0];
    }

    /** Drops k from the active index if it leads to d. */
    method UnlinkActive(d: Detection, k: DKey)
      requires ActiveLinked() && d.id in objs && objs[d.id] == d
      requires forall j :: j in objs ==> objs[j].id == j
      modifies `newest, `active
      ensures ActiveLinked()
      ensures newest == if k in old(newest) && old(newest)[k] == d.id then old(newest) - {k} else old(newest)
    {
      hide Detection.Clone;
      if k in active && active[k] == d {
        active, newest := active - {k}, newest - {k};
      }
    }

    method Purge(before: Time)
      requires Valid()
      modifies this, ring
      ensures Valid() && Repr == old(Repr)
      ensures Model() == AlertSpec.Purge(old(Model()), before)
    {
      hide Core, Sound, Stored, Linked, Remove;
      PurgeCore(Model(), before);
      CoreSound(AlertSpec.Purge(Model(), before));
      ghost var s0 := Model();
      SlotsBound();
      var i := 0;
      while i < ring.Length
        invariant i <= ring.Length == |s0.ring|
        invariant Stored() && Linked() && Repr == old(Repr)
        invariant Model() == PurgeTo(s0, before, i)
      {
        PurgeSlot(i, before);
        i := i + 1;
      }
    }

    /** The body of the sweep, for one slot. */
    method PurgeSlot(i: nat, before: Time)
      requires Stored() && Linked() && i < |slots|
      modifies `slots, `newest, `byID, `active, `stats, ring
      ensures Stored() && Linked() && |slots| == old(|slots|)
      ensures var s := old(Model());
              Model() ==
              if Stale(s, i, before) then Remove(s, i).(stats := s.stats.(expired := s.stats.expired + 1)) else s
    {
      hide Remove, Stored, Linked, AlertSpec.Stale;
      var stale := IsStale(i, before);
      if stale {
        Unlink(i);
        stats := stats.(expired := stats.expired + 1);
        SlotsBound();
      }
    }

    method IsStale(i: nat, before: Time) returns (stale: bool)
      requires Stored() && Linked() && i < |slots|
      ensures |slots| == ring.Length && stale == AlertSpec.Stale(Model(), i, before)
      ensures stale ==> ring[i] != null && slots[i] in dets
    {
      hide Detection.Clone;
      SlotHolds(i);
      var d := ring[i];
      stale := false;
      if d != null {
        CloneKey(d);
        stale := d.lastTS < before;
      }
    }

    /** The retained detections that match, most recently active first; `total` counts them before
        the limit is applied. */
    method Detections(q: Query) returns (out: seq<Det>, total: nat, returned: nat, evicted: nat)
      requires Valid()
      ensures IsPage(out, total, Model(), q)
      ensures returned == |out| && evicted == stats.evicted
    {
      hide Core, Sound, Matches, Detection.Clone, Stored, RingLinked;
      ghost var s := Model();
      CoreQueryable(s);
      SlotsBound();
      out := [];
      var n := if full then ring.Length else head;
      for i := 0 to n
        invariant Collected(out, s, q, i)
      {
        var idx := (head - 1 - i + ring.Length) % ring.Length;
        IndexOfVisit(head, ring.Length, i);
        SlotHolds(idx);
        var d := ring[idx];
        if d != null && Matches(q, d.Clone()) {
          CollectOne(out, s, q, i);
          out := out + [d.Clone()];
        } else {
          SkipOne(out, s, q, i);
        }
      }
      AllCollected(out, s, q, n);
      out := SortRecent(out);
      total := |out|;
      if q.limit > 0 && |out| > q.limit {
        out := out[..q.limit];
      }
      returned, evicted := |out|, stats.evicted;
      PageOf(out, total, s, q);
    }

    ghost method SlotLeads(i: nat)
      requires Stored() && RingLinked() && i < ring.Length && ring[i] != null && slots[i] in dets
      ensures |slots| == ring.Length && slots[i] == ring[i].id && slots[i] in objs && objs[slots[i]] == ring[i]
      ensures KeyOfDet(dets[slots[i]]) == DKey(ring[i].src, ring[i].dst, ring[i].cls)
      ensures forall j :: j in objs ==> objs[j].id == j
    {
      hide Detection.Clone, KeyOfDet;
      CloneKey(ring[i]);
    }

    ghost method SlotHolds(i: nat)
      requires Stored() && RingLinked() && i < |slots|
      ensures |slots| == ring.Length
      ensures if slots[i] == 0 then ring[i] == null
              else ring[i] != null && slots[i] in dets && ring[i].Clone() == dets[slots[i]]
    {}

    ghost method SlotsBound()
      requires Linked()
      ensures |slots| == ring.Length
    {}

    method SetPolicy(p: Policy)
      requires Valid()
      modifies `pol, `hits
      ensures Valid() && Model() == AlertSpec.SetPolicy(old(Model()), p)
    {
      hide Core, Sound, Stored, Linked;
      CoreIgnoresPolicy(Model(), p, seq(|p.suppress|, _ => 0));
      CoreSound(AlertSpec.SetPolicy(Model(), p));
      pol := p;
      hits := seq(|p.suppress|, _ => 0);
    }
  }

  // ---- facts about single objects ----

  lemma CloneID(d: Detection)
    ensures d.Clone().id == d.id && d.Clone().flowIDs == d.flowIDs && d.Clone().ts == d.ts
  {}

  lemma CloneKey(d: Detection)
    ensures KeyOfDet(d.Clone()) == DKey(d.src, d.dst, d.cls) && d.Clone().id == d.id && d.Clone().lastTS == d.lastTS
  {}

  lemma NewDetID(id: nat, oc: Occurrence, v: Verdict)
    ensures NewDet(id, oc, v).id == id
  {}

  lemma FoldKeepsID(d: Det, oc: Occurrence, v: Verdict)
    ensures FoldDet(d, oc, v).id == d.id
  {}

  lemma ActiveRoom(s: AlertSpec.Store, k: DKey)
    requires Core(s) && k in s.active
    ensures s.active[k] in s.objs && |s.objs[s.active[k]].flowIDs| <= MAX_FLOW_IDS
  {}

  lemma NextFree(s: AlertSpec.Store)
    requires Core(s)
    ensures s.nextID + 1 !in s.objs
  {}

  lemma HitsAligned(s: AlertSpec.Store)
    requires Sound(s)
    ensures |s.hits| == |s.pol.suppress| && forall k :: k in s.active ==> s.active[k] in s.objs
  {}

  lemma RemoveParts(s: AlertSpec.Store, i: nat, id: nat, k: DKey, s': AlertSpec.Store)
    requires i < |s.ring| && s.ring[i] == id && id in s.objs && KeyOfDet(s.objs[id]) == k
    requires s' == s.(ring := s.ring[i := 0], byID := s.byID - {id},
                   active := if k in s.active && s.active[k] == id then s.active - {k} else s.active)
    ensures s' == Remove(s, i)
  {}

  predicate Passes(s: AlertSpec.Store, oc: Occurrence) {
    s.pol.Decide(oc.cls, oc.score, oc.disagreement).alert && s.pol.MatchSuppress(oc, 0).None?
  }

  /** The counters after an occurrence came in, before it is kept. */
  ghost function Filtered(s: AlertSpec.Store, oc: Occurrence): AlertSpec.Store
    requires |s.hits| == |s.pol.suppress|
  {
    var v, rule := s.pol.Decide(oc.cls, oc.score, oc.disagreement), s.pol.MatchSuppress(oc, 0);
    var st := s.stats.(observed := s.stats.observed + 1);
    if !v.alert then s.(stats := if s.pol.Alertable(oc.cls) then st.(suppressed := st.suppressed + 1) else st)
    else if rule.Some? then
      s.(stats := st.(suppressedByRule := st.suppressedByRule + 1),
         hits := s.hits[rule.value := s.hits[rule.value] + 1])
    else s.(stats := st)
  }

  lemma FilteredKeeps(s: AlertSpec.Store, oc: Occurrence)
    requires Sound(s)
    ensures var s' := Filtered(s, oc);
            Sound(s') && s'.(stats := s.stats, hits := s.hits) == s
  {}

  lemma ApplyIs(s: AlertSpec.Store, oc: Occurrence)
    requires Sound(s)
    ensures Sound(Filtered(s, oc))
    ensures AlertSpec.Apply(s, oc) ==
            if Passes(s, oc) then Kept(Filtered(s, oc), oc, s.pol.Decide(oc.cls, oc.score, oc.disagreement))
            else Filtered(s, oc)
  {
    hide Policy.Decide, Policy.MatchSuppress, Policy.Alertable, WithinWindow, FoldDet, EvictHead, Install, KeyOfOcc;
  }

  /** Folded into the active detection of its key if that still covers it, else opened. */
  ghost function Kept(s: AlertSpec.Store, oc: Occurrence, v: Verdict): AlertSpec.Store
    requires Sound(s)
  {
    var k := KeyOfOcc(oc);
    if k in s.active && WithinWindow(s.window, s.objs[s.active[k]], oc.ts) then
      s.(objs := s.objs[s.active[k] := FoldDet(s.objs[s.active[k]], oc, v)],
         stats := s.stats.(deduped := s.stats.deduped + 1))
    else Install(EvictHead(s), oc, v)
  }

  /** The newest detection in the head slot and both indexes. */
  ghost function Placed(s: AlertSpec.Store, oc: Occurrence, v: Verdict): AlertSpec.Store
    requires s.head < |s.ring|
  {
    var id := s.nextID + 1;
    s.(nextID := id, ring := s.ring[s.head := id], byID := s.byID + {id}, active := s.active[KeyOfOcc(oc) := id],
       objs := s.objs[id := NewDet(id, oc, v)])
  }

  ghost function Advanced(s: AlertSpec.Store): AlertSpec.Store
    requires |s.ring| > 0
  {
    var head := NextSlot(s.head, |s.ring|);
    s.(head := head, full := s.full || head == 0, stats := s.stats.(created := s.stats.created + 1))
  }

  lemma InstallParts(s: AlertSpec.Store, oc: Occurrence, v: Verdict)
    requires s.head < |s.ring|
    ensures |Placed(s, oc, v).ring| == |s.ring| && Advanced(Placed(s, oc, v)) == Install(s, oc, v)
  {
    hide NewDet, KeyOfOcc, NextSlot;
  }

  lemma HeadSound(s: AlertSpec.Store)
    requires Sound(s)
    ensures s.head < |s.ring| && (s.ring[s.head] != 0 ==> s.ring[s.head] in s.objs)
  {}
}
