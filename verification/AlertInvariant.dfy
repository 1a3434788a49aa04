/** What holds of the detection store in every reachable state: the ring, the ID index and the
    active index agree, also after evictions and after purges that leave holes. */
module AlertInvariant {
  import opened AlertSpec
  import opened Common
  import opened Division

  // ---- the invariant, part by part ----

  /** IDs are handed out in order and every object keeps the one it got. */
  ghost predicate Objects(s: Store) {
    && (forall id :: id in s.objs <==> 1 <= id <= s.nextID)
    && (forall id :: id in s.objs ==> s.objs[id].id == id)
  }

  /** Slot i only ever holds IDs congruent to i+1, and only recent ones; the head and the full flag
      are determined by how many detections were ever opened. */
  ghost predicate Ring(s: Store) {
    var n := |s.ring|;
    && n > 0
    && s.head == s.nextID % n && (s.full <==> s.nextID >= n)
    && (forall i :: 0 <= i < n && s.ring[i] != 0 ==>
                      s.ring[i] <= s.nextID && s.nextID < s.ring[i] + n && (s.ring[i] - 1) % n == i)
  }

  /** The ID index is exactly the non-nil ring. */
  ghost predicate Indexed(s: Store) {
    && (forall i :: 0 <= i < |s.ring| && s.ring[i] != 0 ==> s.ring[i] in s.byID)
    && (forall id :: id in s.byID ==> id != 0 && id in s.ring)
  }

  /** Every active key leads to a retained detection of that key. */
  ghost predicate Anchored(s: Store) {
    forall k :: k in s.active ==>
                  s.active[k] in s.byID && s.active[k] in s.objs && KeyOfDet(s.objs[s.active[k]]) == k
  }

  ghost predicate DetOK(d: Det) {
    && d.ts <= d.lastTS && d.count >= 1 && 1 <= |d.flowIDs| <= MAX_FLOW_IDS
    && (forall i, j :: 0 <= i < j < |d.flowIDs| ==> d.flowIDs[i] != d.flowIDs[j])
  }

  ghost predicate Dets(s: Store) {
    forall id :: id in s.objs ==> DetOK(s.objs[id])
  }

  /** created = retained + evicted + expired. */
  ghost predicate Balanced(s: Store) {
    && s.stats.created == s.nextID
    && s.stats.created == |s.byID| + s.stats.evicted + s.stats.expired
  }

  /** Everything but the balance. */
  ghost predicate Shape(s: Store) {
    && s.window >= 0 && s.head < |s.ring| && |s.hits| == |s.pol.suppress|
    && Objects(s) && Ring(s) && Indexed(s) && Anchored(s) && Dets(s)
  }

  /** What holds in every reachable state, whatever the timestamps are. */
  ghost predicate Core(s: Store) {
    Shape(s) && Balanced(s)
  }

  // ---- and what the deduplication window adds ----

  /** The key of a retained detection is active and leads to the newest of its detections. */
  ghost predicate Complete(s: Store) {
    forall id :: id in s.byID && id in s.objs ==>
                   KeyOfDet(s.objs[id]) in s.active && id <= s.active[KeyOfDet(s.objs[id])]
  }

  /** Detections with one key are more than a window apart. */
  ghost predicate Spaced(s: Store) {
    forall a, b ::
      (a in s.byID && b in s.byID && a < b && a in s.objs && b in s.objs &&
       KeyOfDet(s.objs[a]) == KeyOfDet(s.objs[b])) ==> s.objs[b].ts > s.objs[a].ts + s.window
  }

  /** No detection was active beyond its window. */
  ghost predicate Tight(s: Store) {
    forall id :: id in s.objs ==> s.objs[id].lastTS <= s.objs[id].ts + s.window
  }

  ghost predicate Windowed(s: Store) {
    Complete(s) && Spaced(s) && Tight(s)
  }

  ghost predicate Inv(s: Store) {
    Core(s) && Windowed(s)
  }

  lemma CoreSound(s: Store)
    requires Core(s)
    ensures Sound(s)
  {
    hide Dets, Balanced;
  }

  // ---- removal ----

  /** No retained detection shares a key with the one in slot i and is older. */
  ghost predicate Oldest(s: Store, i: nat)
    requires i < |s.ring| && s.ring[i] in s.objs
  {
    forall id :: id in s.byID && id in s.objs && KeyOfDet(s.objs[id]) == KeyOfDet(s.objs[s.ring[i]]) ==> id >= s.ring[i]
  }

  lemma SlotsDistinct(s: Store, i: nat, j: nat)
    requires Ring(s) && i < |s.ring| && j < |s.ring| && s.ring[i] != 0 && s.ring[i] == s.ring[j]
    ensures i == j
  {}

  lemma OtherSlot(s: Store, i: nat, j: nat)
    requires Ring(s) && i < |s.ring| && j < |s.ring| && s.ring[i] != 0 && i != j
    ensures s.ring[j] != s.ring[i]
  {}

  lemma RemoveShape(s: Store, i: nat)
    requires Shape(s) && i < |s.ring| && s.ring[i] != 0 && s.ring[i] in s.objs
    ensures Shape(Remove(s, i)) && |Remove(s, i).byID| == |s.byID| - 1
  {
    hide KeyOfDet, Ring, Indexed, Anchored, DetOK;
    assert s.ring[i] in s.byID by { SlotIndexed(s, i); }
    RemoveRing(s, i);
    RemoveIndexed(s, i);
    RemoveAnchored(s, i);
  }

  lemma SlotIndexed(s: Store, i: nat)
    requires Indexed(s) && i < |s.ring| && s.ring[i] != 0
    ensures s.ring[i] in s.byID
  {}

  lemma RemoveRing(s: Store, i: nat)
    requires Ring(s) && i < |s.ring| && s.ring[i] in s.objs
    ensures Ring(Remove(s, i))
  {}

  lemma RemoveIndexed(s: Store, i: nat)
    requires Ring(s) && Indexed(s) && i < |s.ring| && s.ring[i] != 0 && s.ring[i] in s.objs
    ensures Indexed(Remove(s, i))
  {
    hide KeyOfDet;
    var s' := Remove(s, i);
    var id := s.ring[i];
    forall j | 0 <= j < |s'.ring| && s'.ring[j] != 0 ensures s'.ring[j] in s'.byID {
      assert s'.ring[j] == s.ring[j];
      OtherSlot(s, i, j);
    }
    forall x | x in s'.byID ensures x in s'.ring {
      var j :| 0 <= j < |s.ring| && s.ring[j] == x;
      assert s'.ring[j] == x;
    }
  }

  lemma RemoveAnchored(s: Store, i: nat)
    requires Anchored(s) && i < |s.ring| && s.ring[i] in s.objs
    ensures Anchored(Remove(s, i))
  {
    hide KeyOfDet;
  }

  /** Removing the oldest detection of its key keeps the active index right: it is touched only if
      no other detection has that key. */
  lemma RemoveWindowed(s: Store, i: nat)
    requires Windowed(s) && i < |s.ring| && s.ring[i] in s.byID && s.ring[i] in s.objs && Oldest(s, i)
    ensures Windowed(Remove(s, i))
  {
    hide KeyOfDet;
    var s' := Remove(s, i);
    var id, k := s.ring[i], KeyOfDet(s.objs[s.ring[i]]);
    forall x | x in s'.byID && x in s'.objs
      ensures KeyOfDet(s'.objs[x]) in s'.active && x <= s'.active[KeyOfDet(s'.objs[x])]
    {
      if KeyOfDet(s.objs[x]) == k && s.active[k] == id {
        assert false;
      }
    }
  }

  // ---- opening ----

  /** The head of a full ring is the oldest detection of all. */
  lemma HeadIsOldest(s: Store)
    requires Objects(s) && Ring(s) && Indexed(s) && s.ring[s.head] != 0
    ensures Oldest(s, s.head) && s.ring[s.head] == s.nextID - |s.ring| + 1
  {
    var n, id := |s.ring|, s.ring[s.head];
    assert id in s.objs;
    CongruentInRange(n, s.nextID, id);
    forall x | x in s.byID && x in s.objs ensures x >= id {
      var j :| 0 <= j < n && s.ring[j] == x;
      assert s.nextID < s.ring[j] + n;
    }
  }

  lemma CongruentInRange(n: nat, top: nat, id: nat)
    requires n > 0 && 1 <= id <= top < id + n && (id - 1) % n == top % n
    ensures id == top - n + 1
  {
    var d := top - (id - 1);
    assert 1 <= d <= n;
    ModDifference(top, id - 1, n);
  }

  lemma ModDifference(a: nat, b: nat, n: nat)
    requires n > 0 && a % n == b % n && 1 <= a - b <= n
    ensures a - b == n
  {
    if a - b < n {
      var q, r := b / n, b % n;
      assert b == q * n + r;
      if r + (a - b) < n {
        DivUnique(a, n, q, r + (a - b));
      } else {
        assert (q + 1) * n == q * n + n;
        DivUnique(a, n, q + 1, r + (a - b) - n);
      }
    }
  }

  lemma EvictHeadCore(s: Store)
    requires Core(s) && Sound(s)
    ensures var s' := EvictHead(s);
            Core(s') && s'.ring[s'.head] == 0 && s'.objs == s.objs && s'.byID <= s.byID
  {
    hide Objects, Ring, Indexed, Anchored, Dets, KeyOfDet;
    assert 0 <= s.head < |s.ring|;
    if s.ring[s.head] != 0 {
      RemoveShape(s, s.head);
      ShapeIgnoresStats(Remove(s, s.head), EvictHead(s).stats);
    }
  }

  lemma EvictHeadWindowed(s: Store)
    requires Shape(s) && Sound(s) && Windowed(s)
    ensures Windowed(EvictHead(s))
  {
    hide Objects, Ring, Indexed, Anchored, Dets, KeyOfDet, Oldest, Complete, Spaced, Tight;
    assert 0 <= s.head < |s.ring|;
    if s.ring[s.head] != 0 {
      HeadIsOldest(s);
      SlotIndexed(s, s.head);
      RemoveWindowed(s, s.head);
      WindowedIgnoresStats(Remove(s, s.head), EvictHead(s).stats);
    }
  }

  lemma ShapeIgnoresStats(s: Store, st: Counters)
    requires Shape(s)
    ensures Shape(s.(stats := st))
  {}

  lemma WindowedIgnoresStats(s: Store, st: Counters)
    requires Windowed(s)
    ensures Windowed(s.(stats := st))
  {}

  /** With the head slot free, every retained detection outlives the next opening. */
  lemma RoomForOne(s: Store, id: nat)
    requires Objects(s) && Ring(s) && Indexed(s) && s.ring[s.head] == 0 && id in s.byID
    ensures s.nextID < id + |s.ring| - 1
  {
    var n := |s.ring|;
    var j :| 0 <= j < n && s.ring[j] == id;
    if s.nextID == id + n - 1 {
      HeadSlot(n, s.nextID, id);
    }
  }

  lemma HeadSlot(n: nat, top: nat, id: nat)
    requires n > 0 && id >= 1 && top == id + n - 1
    ensures (id - 1) % n == top % n
  {
    assert top == (id - 1) + n;
    AddModulus(id - 1, n);
  }

  lemma AddModulus(a: nat, n: nat)
    requires n > 0
    ensures (a + n) % n == a % n
  {
    var q, r := a / n, a % n;
    assert a == q * n + r;
    assert (q + 1) * n == q * n + n;
    DivUnique(a + n, n, q + 1, r);
  }

  lemma NextHead(top: nat, n: nat)
    requires n > 0
    ensures (top % n + 1) % n == (top + 1) % n
    ensures (top + 1) % n == 0 ==> top + 1 >= n
    ensures top + 1 == n ==> (top + 1) % n == 0
  {
    var q, r := top / n, top % n;
    assert top == q * n + r;
    if r + 1 == n {
      assert (q + 1) * n == q * n + n;
      DivUnique(top + 1, n, q + 1, 0);
      DivUnique(n, n, 1, 0);
    } else {
      DivUnique(top + 1, n, q, r + 1);
      DivUnique(r + 1, n, 0, r + 1);
    }
    if top + 1 < n {
      DivUnique(top + 1, n, 0, top + 1);
    } else if top + 1 == n {
      DivUnique(top + 1, n, 1, 0);
    }
  }

  lemma InstallCore(s: Store, oc: Occurrence, v: Verdict)
    requires Core(s) && s.ring[s.head] == 0
    ensures Core(Install(s, oc, v))
  {
    hide Ring, Anchored, Indexed, Objects, Dets, KeyOfDet, KeyOfOcc, NewDet;
    IndexedObjects(s);
    InstallObjects(s, oc, v);
    InstallRing(s, oc, v);
    InstallIndexed(s, oc, v);
    InstallAnchored(s, oc, v);
  }

  lemma InstallObjects(s: Store, oc: Occurrence, v: Verdict)
    requires Objects(s) && Dets(s) && s.head < |s.ring|
    ensures Objects(Install(s, oc, v)) && Dets(Install(s, oc, v))
  {
    hide DetOK, NewDet;
    NewDetFacts(s.nextID + 1, oc, v);
  }

  lemma InstallIndexed(s: Store, oc: Occurrence, v: Verdict)
    requires Objects(s) && Ring(s) && Indexed(s) && s.head < |s.ring| && s.ring[s.head] == 0
    ensures Indexed(Install(s, oc, v))
  {
    hide Ring, NewDet;
    var s' := Install(s, oc, v);
    var id := s.nextID + 1;
    assert s'.ring[s.head] == id;
    forall x | x in s'.byID ensures x in s'.ring {
      if x != id {
        var j :| 0 <= j < |s.ring| && s.ring[j] == x;
        assert s'.ring[j] == x;
      }
    }
  }

  lemma NewDetFacts(id: nat, oc: Occurrence, v: Verdict)
    ensures var d := NewDet(id, oc, v);
            d.id == id && KeyOfDet(d) == KeyOfOcc(oc) && d.ts == d.lastTS == oc.ts && DetOK(d)
  {}

  lemma IndexedObjects(s: Store)
    requires Objects(s) && Ring(s) && Indexed(s)
    ensures forall x :: x in s.byID ==> x in s.objs && x <= s.nextID
  {
    forall x | x in s.byID ensures x in s.objs {
      var j :| 0 <= j < |s.ring| && s.ring[j] == x;
    }
  }

  lemma InstallRing(s: Store, oc: Occurrence, v: Verdict)
    requires Objects(s) && Ring(s) && Indexed(s) && s.ring[s.head] == 0
    ensures Ring(Install(s, oc, v))
  {
    hide KeyOfOcc, NewDet;
    var s' := Install(s, oc, v);
    var n := |s.ring|;
    NextHead(s.nextID, n);
    forall i | 0 <= i < n && s'.ring[i] != 0
      ensures s'.ring[i] <= s'.nextID && s'.nextID < s'.ring[i] + n && (s'.ring[i] - 1) % n == i
    {
      if i != s.head {
        assert s.ring[i] in s.byID;
        RoomForOne(s, s.ring[i]);
      }
    }
  }

  lemma InstallAnchored(s: Store, oc: Occurrence, v: Verdict)
    requires Objects(s) && Ring(s) && Indexed(s) && Anchored(s)
    ensures Anchored(Install(s, oc, v))
  {
    hide KeyOfDet, KeyOfOcc, NewDet;
    NewDetFacts(s.nextID + 1, oc, v);
    IndexedObjects(s);
  }

  /** A new detection is more than a window later than the newest one of its key, if there is one. */
  lemma InstallWindowed(s: Store, oc: Occurrence, v: Verdict)
    requires Shape(s) && Windowed(s)
    requires KeyOfOcc(oc) in s.active ==> oc.ts > s.objs[s.active[KeyOfOcc(oc)]].ts + s.window
    ensures Windowed(Install(s, oc, v))
  {
    hide KeyOfDet, KeyOfOcc, NewDet, Ring, Indexed, Spaced, Anchored, Dets;
    NewDetFacts(s.nextID + 1, oc, v);
    IndexedObjects(s);
    InstallSpaced(s, oc, v);
  }

  lemma InstallSpaced(s: Store, oc: Occurrence, v: Verdict)
    requires Objects(s) && Ring(s) && Indexed(s) && Anchored(s) && Complete(s) && Spaced(s) && s.window >= 0
    requires KeyOfOcc(oc) in s.active ==> oc.ts > s.objs[s.active[KeyOfOcc(oc)]].ts + s.window
    ensures Spaced(Install(s, oc, v))
  {
    hide KeyOfDet, KeyOfOcc, NewDet;
    var s' := Install(s, oc, v);
    NewDetFacts(s.nextID + 1, oc, v);
    IndexedObjects(s);
    forall a, b | a in s'.byID && b in s'.byID && a < b && a in s'.objs && b in s'.objs &&
                  KeyOfDet(s'.objs[a]) == KeyOfDet(s'.objs[b])
      ensures s'.objs[b].ts > s'.objs[a].ts + s'.window
    {
      if b == s.nextID + 1 {
        var c := s.active[KeyOfOcc(oc)];
        assert a <= c;
        if a < c {
          assert s.objs[c].ts > s.objs[a].ts + s.window;
        }
      }
    }
  }

  // ---- folding ----

  lemma AddFlowFacts(ids: seq<nat>, id: nat)
    requires 1 <= |ids| <= MAX_FLOW_IDS
    requires forall i, j :: 0 <= i < j < |ids| ==> ids[i] != ids[j]
    ensures var ids' := AddFlow(ids, id);
            && |ids| <= |ids'| <= MAX_FLOW_IDS && id in ids'
            && (forall i, j :: 0 <= i < j < |ids'| ==> ids'[i] != ids'[j])
            && (forall x :: x in ids' ==> x in ids || x == id)
  {
    var ids' := AddFlow(ids, id);
    if id !in ids {
      assert ids'[|ids'| - 1] == id;
    }
  }

  lemma FoldOK(d: Det, oc: Occurrence, v: Verdict)
    requires DetOK(d)
    ensures var d' := FoldDet(d, oc, v);
            && DetOK(d') && d'.id == d.id && KeyOfDet(d') == KeyOfDet(d) && d'.ts == d.ts && oc.flowID in d'.flowIDs
            && d'.lastTS == if oc.ts > d.lastTS then oc.ts else d.lastTS
  {
    AddFlowFacts(d.flowIDs, oc.flowID);
  }

  /** Changing what an object holds, but not its identity, key or first timestamp. */
  lemma UpdateCore(s: Store, id: nat, d: Det)
    requires Core(s) && id in s.objs && d.id == id && KeyOfDet(d) == KeyOfDet(s.objs[id]) && DetOK(d)
    ensures Core(s.(objs := s.objs[id := d]))
  {
    hide KeyOfDet, DetOK;
    var s' := s.(objs := s.objs[id := d]);
    assert Objects(s') && Dets(s');
    assert Ring(s') && Indexed(s') by { hide Anchored, Objects, Dets; }
    UpdateAnchored(s, id, d);
    hide Objects, Ring, Indexed, Anchored, Dets;
  }

  lemma UpdateAnchored(s: Store, id: nat, d: Det)
    requires Anchored(s) && id in s.objs && KeyOfDet(d) == KeyOfDet(s.objs[id])
    ensures Anchored(s.(objs := s.objs[id := d]))
  {
    hide KeyOfDet;
  }

  lemma UpdateWindowed(s: Store, id: nat, d: Det)
    requires Windowed(s) && id in s.objs && KeyOfDet(d) == KeyOfDet(s.objs[id]) && d.ts == s.objs[id].ts
    ensures var s' := s.(objs := s.objs[id := d]);
            Complete(s') && Spaced(s') && (Tight(s') <==> d.lastTS <= d.ts + s.window)
  {
    hide KeyOfDet;
    var s' := s.(objs := s.objs[id := d]);
    assert Complete(s') && Spaced(s');
    assert s'.objs[id] == d;
  }

  lemma CoreIgnoresStats(s: Store, st: Counters)
    requires Core(s) && st.created == s.stats.created && st.evicted == s.stats.evicted && st.expired == s.stats.expired
    ensures Core(s.(stats := st))
  {
    ShapeIgnoresStats(s, st);
  }

  lemma CoreIgnoresPolicy(s: Store, pol: Policy, hits: seq<nat>)
    requires Core(s) && |hits| == |pol.suppress|
    ensures Core(s.(pol := pol, hits := hits))
  {}

  lemma WindowedIgnoresPolicy(s: Store, pol: Policy, hits: seq<nat>)
    requires Windowed(s)
    ensures Windowed(s.(pol := pol, hits := hits))
  {}

  /** Whatever its timestamp, an occurrence keeps ring, indexes, objects and counters consistent. */
  lemma ApplyCore(s: Store, oc: Occurrence)
    requires Core(s) && Sound(s)
    ensures Core(Apply(s, oc))
  {
    hide Core, KeyOfDet, KeyOfOcc, DetOK, FoldDet, NewDet, WithinWindow, Policy.Decide, Policy.MatchSuppress;
    var v := s.pol.Decide(oc.cls, oc.score, oc.disagreement);
    var s0 := s.(stats := s.stats.(observed := s.stats.observed + 1));
    CoreIgnoresStats(s, s0.stats);
    match FateOf(s, oc) {
      case Ignored =>
      case Below =>
        CoreIgnoresStats(s0, Apply(s, oc).stats);
      case Ruled(i) =>
        CoreIgnoresStats(s0, Apply(s, oc).stats);
        var s1 := s0.(stats := Apply(s, oc).stats);
        CoreIgnoresPolicy(s1, s.pol, s0.hits[i := s0.hits[i] + 1]);
      case Absorbed(id) =>
        CoreDet(s, id);
        FoldOK(s.objs[id], oc, v);
        UpdateCore(s0, id, FoldDet(s0.objs[id], oc, v));
        CoreIgnoresStats(s0.(objs := s0.objs[id := FoldDet(s0.objs[id], oc, v)]), Apply(s, oc).stats);
      case Opened =>
        EvictHeadCore(s0);
        InstallCore(EvictHead(s0), oc, v);
    }
  }

  /** The zero timestamp counts as inside every window, also inside one that ended before it. */
  predicate Back(s: Store, oc: Occurrence)
    requires Sound(s)
  {
    && FateOf(s, oc).Absorbed? && oc.ts == ZERO_TIME
    && s.objs[FateOf(s, oc).id].ts + s.window < ZERO_TIME
  }

  /** The window's part of the invariant survives an occurrence exactly unless that happens. */
  lemma ApplyInv(s: Store, oc: Occurrence)
    requires Inv(s) && Sound(s)
    ensures Inv(Apply(s, oc)) <==> !Back(s, oc)
    ensures Back(s, oc) ==> !Tight(Apply(s, oc))
  {
    hide Core, Complete, Spaced, Tight, KeyOfDet, KeyOfOcc, DetOK, FoldDet, NewDet, WithinWindow, Policy.Decide,
         Policy.MatchSuppress;
    ApplyCore(s, oc);
    var v := s.pol.Decide(oc.cls, oc.score, oc.disagreement);
    var s0 := s.(stats := s.stats.(observed := s.stats.observed + 1));
    WindowedIgnoresStats(s, s0.stats);
    match FateOf(s, oc) {
      case Ignored =>
      case Below =>
        WindowedIgnoresStats(s0, Apply(s, oc).stats);
      case Ruled(i) =>
        WindowedIgnoresStats(s0, Apply(s, oc).stats);
        var s1 := s0.(stats := Apply(s, oc).stats);
        WindowedIgnoresPolicy(s1, s.pol, s0.hits[i := s0.hits[i] + 1]);
      case Absorbed(id) =>
        AbsorbWindowed(s, oc, v, id);
      case Opened =>
        OpenWindowed(s, oc, v);
    }
  }

  lemma AbsorbWindowed(s: Store, oc: Occurrence, v: Verdict, id: nat)
    requires Inv(s) && Sound(s) && FateOf(s, oc) == Absorbed(id)
    requires v == s.pol.Decide(oc.cls, oc.score, oc.disagreement)
    ensures var s' := Apply(s, oc);
            Complete(s') && Spaced(s') && (Tight(s') <==> !Back(s, oc))
  {
    hide Core, KeyOfDet, KeyOfOcc, DetOK, FoldDet, Policy.Decide, Policy.MatchSuppress;
    var d := FoldDet(s.objs[id], oc, v);
    CoreDet(s, id);
    TightDet(s, id);
    FoldOK(s.objs[id], oc, v);
    UpdateWindowed(s, id, d);
    hide Complete, Spaced, Tight;
    PartsIgnoreStats(s.(objs := s.objs[id := d]), Apply(s, oc).stats);
  }

  lemma PartsIgnoreStats(s: Store, st: Counters)
    ensures var s' := s.(stats := st);
            (Complete(s') <==> Complete(s)) && (Spaced(s') <==> Spaced(s)) && (Tight(s') <==> Tight(s))
  {}

  lemma OpenWindowed(s: Store, oc: Occurrence, v: Verdict)
    requires Inv(s) && Sound(s) && FateOf(s, oc).Opened? && v == s.pol.Decide(oc.cls, oc.score, oc.disagreement)
    ensures Windowed(Apply(s, oc))
  {
    hide Shape, Windowed, KeyOfDet, KeyOfOcc, NewDet, WithinWindow, Policy.Decide, Policy.MatchSuppress;
    var s0 := s.(stats := s.stats.(observed := s.stats.observed + 1));
    CoreIgnoresStats(s, s0.stats);
    WindowedIgnoresStats(s, s0.stats);
    EvictHeadCore(s0);
    EvictHeadWindowed(s0);
    EvictFrame(s0);
    if KeyOfOcc(oc) in s.active {
      NotWithin(s, oc);
    }
    InstallWindowed(EvictHead(s0), oc, v);
  }

  lemma CoreDet(s: Store, id: nat)
    requires Core(s) && id in s.objs
    ensures DetOK(s.objs[id]) && s.objs[id].id == id
  {}

  lemma TightDet(s: Store, id: nat)
    requires Windowed(s) && id in s.objs
    ensures s.objs[id].lastTS <= s.objs[id].ts + s.window
  {}

  /** What an eviction leaves alone. */
  lemma EvictFrame(s: Store)
    requires s.head < |s.ring| && (s.ring[s.head] != 0 ==> s.ring[s.head] in s.objs)
    ensures var s' := EvictHead(s);
            && s'.objs == s.objs && s'.window == s.window && s'.head == s.head && |s'.ring| == |s.ring|
            && s'.nextID == s.nextID && s'.stats == s.stats.(evicted := s'.stats.evicted)
            && forall k :: k in s'.active ==> k in s.active && s'.active[k] == s.active[k]
  {}

  lemma NotWithin(s: Store, oc: Occurrence)
    requires Sound(s) && FateOf(s, oc).Opened? && KeyOfOcc(oc) in s.active
    ensures oc.ts > s.objs[s.active[KeyOfOcc(oc)]].ts + s.window
  {}

  // ---- purging ----

  /** The IDs that a sweep of slots 0..n takes out. */
  function Swept(s: Store, before: Time, n: nat): set<nat>
    requires n <= |s.ring|
  {
    set i | 0 <= i < n && Stale(s, i, before) :: s.ring[i]
  }

  /** A partial sweep in closed form. In between the active index may lead nowhere for a key that
      still has an older detection in a later slot; only the finished sweep mends that. */
  function AfterSweep(s: Store, before: Time, n: nat): Store
    requires n <= |s.ring|
  {
    s.(ring := seq(|s.ring|, i requires 0 <= i < |s.ring| => if i < n && Stale(s, i, before) then 0 else s.ring[i]),
    byID := s.byID - Swept(s, before, n),
    active := Leading(s.active, Swept(s, before, n)),
    stats := s.stats.(expired := s.stats.expired + |Swept(s, before, n)|))
  }

  /** The entries that do not lead to one of the IDs gone. */
  function Leading(active: map<DKey, nat>, gone: set<nat>): map<DKey, nat> {
    map k | k in active && active[k] !in gone :: active[k]
  }

  /** Every active entry leads to an object of its own key. */
  ghost predicate Leads(s: Store) {
    forall k :: k in s.active ==> s.active[k] in s.objs && KeyOfDet(s.objs[s.active[k]]) == k
  }

  lemma {:induction false} PurgeToEffect(s: Store, before: Time, n: nat)
    requires Ring(s) && Leads(s) && n <= |s.ring|
    ensures PurgeTo(s, before, n) == AfterSweep(s, before, n)
  {
    hide Remove, Stale, Swept, Ring, Leads;
    if n == 0 {
      SweepNone(s, before);
    } else {
      PurgeToEffect(s, before, n - 1);
      SweepStep(s, before, n);
    }
  }

  lemma SweepNone(s: Store, before: Time)
    ensures AfterSweep(s, before, 0) == s
  {
    assert Swept(s, before, 0) == {};
  }

  lemma SweepStep(s: Store, before: Time, n: nat)
    requires Ring(s) && Leads(s) && 0 < n <= |s.ring|
    ensures var s1 := AfterSweep(s, before, n - 1);
            && Stale(s1, n - 1, before) == Stale(s, n - 1, before)
            && AfterSweep(s, before, n) ==
               if Stale(s1, n - 1, before) then
                 Remove(s1, n - 1).(stats := s1.stats.(expired := s1.stats.expired + 1))
               else s1
  {
    hide KeyOfDet, Swept;
    var s1 := AfterSweep(s, before, n - 1);
    assert s1.ring[n - 1] == s.ring[n - 1];
    if Stale(s, n - 1, before) {
      SweptGrows(s, before, n);
      var id := s.ring[n - 1];
      assert s1.ring[n - 1 := 0] == AfterSweep(s, before, n).ring;
      hide Ring, Stale, Leading;
      DropActive(s.active, Swept(s, before, n - 1), id, KeyOfDet(s.objs[id]));
      assert s.byID - Swept(s, before, n) == s1.byID - {id};
    } else {
      SweptStays(s, before, n);
    }
  }

  /** Dropping what leads to one more ID drops at most that ID's own key. */
  lemma DropActive(active: map<DKey, nat>, gone: set<nat>, id: nat, k: DKey)
    requires forall j :: j in active && active[j] == id ==> j == k
    ensures var kept := Leading(active, gone);
            Leading(active, gone + {id}) == if k in kept && kept[k] == id then kept - {k} else kept
  {}

  lemma SweptStays(s: Store, before: Time, n: nat)
    requires 0 < n <= |s.ring| && !Stale(s, n - 1, before)
    ensures Swept(s, before, n) == Swept(s, before, n - 1)
  {}

  lemma SweptGrows(s: Store, before: Time, n: nat)
    requires Ring(s) && 0 < n <= |s.ring| && Stale(s, n - 1, before)
    ensures Swept(s, before, n) == Swept(s, before, n - 1) + {s.ring[n - 1]}
    ensures s.ring[n - 1] !in Swept(s, before, n - 1)
  {}

  /** A purge keeps exactly the detections active at or after the bound. */
  lemma SweptIsStale(s: Store, before: Time)
    requires Objects(s) && Ring(s) && Indexed(s)
    ensures Swept(s, before, |s.ring|) == set id | id in s.byID && id in s.objs && s.objs[id].lastTS < before
  {
    forall id | id in s.byID && id in s.objs && s.objs[id].lastTS < before
      ensures id in Swept(s, before, |s.ring|)
    {
      var i :| 0 <= i < |s.ring| && s.ring[i] == id;
      assert Stale(s, i, before);
    }
  }

  lemma PurgeCore(s: Store, before: Time)
    requires Core(s)
    ensures Core(Purge(s, before))
    ensures Purge(s, before).byID == set id | id in s.byID && id in s.objs && s.objs[id].lastTS >= before
  {
    hide KeyOfDet, PurgeTo, DetOK, Swept, Ring, Anchored, Indexed, Objects, Dets;
    var s', gone := Purge(s, before), Swept(s, before, |s.ring|);
    AnchoredLeads(s);
    PurgeToEffect(s, before, |s.ring|);
    SweptIsStale(s, before);
    IndexedObjects(s);
    assert s.byID == gone + s'.byID;
    assert |gone| + |s'.byID| == |s.byID|;
    PurgeObjects(s, before);
    PurgeRing(s, before);
    PurgeAnchored(s, before);
  }

  lemma AnchoredLeads(s: Store)
    requires Anchored(s)
    ensures Leads(s)
  {}

  lemma PurgeObjects(s: Store, before: Time)
    requires Objects(s) && Dets(s) && Ring(s) && Anchored(s)
    ensures Objects(Purge(s, before)) && Dets(Purge(s, before))
  {
    hide KeyOfDet, PurgeTo, DetOK, Swept, Ring;
    AnchoredLeads(s);
    PurgeToEffect(s, before, |s.ring|);
  }

  lemma PurgeRing(s: Store, before: Time)
    requires Objects(s) && Ring(s) && Indexed(s) && Anchored(s)
    ensures Ring(Purge(s, before)) && Indexed(Purge(s, before))
  {
    hide KeyOfDet, PurgeTo, Swept;
    var s' := Purge(s, before);
    AnchoredLeads(s);
    PurgeToEffect(s, before, |s.ring|);
    SweptIsStale(s, before);
    IndexedObjects(s);
    forall id | id in s'.byID ensures id in s'.ring {
      var i :| 0 <= i < |s.ring| && s.ring[i] == id;
      assert s'.ring[i] == id;
    }
  }

  lemma PurgeAnchored(s: Store, before: Time)
    requires Ring(s) && Anchored(s)
    ensures Anchored(Purge(s, before))
  {
    hide KeyOfDet, PurgeTo, Swept, Ring;
    AnchoredLeads(s);
    PurgeToEffect(s, before, |s.ring|);
  }

  lemma PurgeInv(s: Store, before: Time)
    requires Inv(s)
    ensures Inv(Purge(s, before))
  {
    hide Objects, Ring, Indexed, Anchored, Dets, Complete, Spaced, Tight, Balanced, Purge;
    PurgeCore(s, before);
    PurgeComplete(s, before);
    PurgeSpaced(s, before);
  }

  lemma PurgeSpaced(s: Store, before: Time)
    requires Ring(s) && Anchored(s) && Spaced(s) && Tight(s)
    ensures Spaced(Purge(s, before)) && Tight(Purge(s, before))
  {
    hide KeyOfDet, PurgeTo, Swept, Ring;
    AnchoredLeads(s);
    PurgeToEffect(s, before, |s.ring|);
  }

  /** A stale detection leaves no older one of its key behind: that one is stale, too. */
  lemma PurgeComplete(s: Store, before: Time)
    requires Objects(s) && Ring(s) && Indexed(s) && Anchored(s) && Dets(s) && Complete(s) && Spaced(s) && Tight(s)
    ensures Complete(Purge(s, before))
  {
    hide PurgeTo, Swept, Ring, Indexed, KeyOfDet, Purge, AfterSweep, Leads;
    AnchoredLeads(s);
    PurgedIs(s, before);
    var s' := Purge(s, before);
    forall id | id in s'.byID && id in s'.objs
      ensures KeyOfDet(s'.objs[id]) in s'.active && id <= s'.active[KeyOfDet(s'.objs[id])]
    {
      NewestKept(s, before, id);
    }
  }

  lemma PurgedIs(s: Store, before: Time)
    requires Objects(s) && Ring(s) && Indexed(s) && Leads(s)
    ensures var s', gone := Purge(s, before), (set id | id in s.byID && id in s.objs && s.objs[id].lastTS < before);
            s'.objs == s.objs && s'.byID == s.byID - gone && s'.active == Leading(s.active, gone)
  {
    hide PurgeTo, Swept, Ring, Indexed, Objects, Leads;
    PurgeToEffect(s, before, |s.ring|);
    SweptIsStale(s, before);
  }

  lemma NewestKept(s: Store, before: Time, id: nat)
    requires Dets(s) && Complete(s) && Spaced(s) && Tight(s) && Anchored(s)
    requires id in s.byID && id in s.objs && s.objs[id].lastTS >= before
    ensures var k := KeyOfDet(s.objs[id]);
            k in s.active && id <= s.active[k] && s.active[k] in s.objs && s.objs[s.active[k]].lastTS >= before
  {
    hide KeyOfDet;
    var a := s.active[KeyOfDet(s.objs[id])];
    if id < a {
      assert s.objs[a].ts > s.objs[id].ts + s.window;
      assert DetOK(s.objs[a]);
    }
  }

  // ---- every run ----

  lemma StepCore(s: Store, it: Item)
    requires Core(s) && Sound(s)
    ensures Core(Step(s, it)) && Sound(Step(s, it))
  {
    hide Core, Apply, Purge, Sound;
    match it {
      case Occur(oc) => ApplyCore(s, oc);
      case Swap(pol) => CoreIgnoresPolicy(s, pol, seq(|pol.suppress|, _ => 0));
      case Retain(before) =>
        if before != ZERO_TIME {
          PurgeCore(s, before);
        }
    }
    CoreSound(Step(s, it));
  }

  predicate GoesBack(s: Store, it: Item)
    requires Sound(s)
  {
    it.Occur? && Back(s, it.oc)
  }

  /** One item keeps the invariant exactly unless it is such an occurrence. */
  lemma StepInv(s: Store, it: Item)
    requires Inv(s) && Sound(s)
    ensures Inv(Step(s, it)) <==> !GoesBack(s, it)
    ensures GoesBack(s, it) ==> !Tight(Step(s, it))
  {
    hide Core, Windowed, Tight, Apply, Purge, Sound, Back;
    StepCore(s, it);
    match it {
      case Occur(oc) => ApplyInv(s, oc);
      case Swap(pol) => WindowedIgnoresPolicy(s, pol, seq(|pol.suppress|, _ => 0));
      case Retain(before) =>
        if before != ZERO_TIME {
          PurgeInv(s, before);
        }
    }
  }

  ghost function Run(start: Store, its: seq<Item>): (s: Store)
    requires Core(start)
    ensures Core(s) && Sound(s)
  {
    if its == [] then CoreSound(start); start
    else
      var s := Run(start, its[..|its| - 1]);
      StepCore(s, its[|its| - 1]);
      Step(s, its[|its| - 1])
  }

  /** No occurrence of the run comes without a timestamp to a detection whose window ended before the zero time. */
  ghost predicate NeverBack(start: Store, its: seq<Item>)
    requires Core(start)
  {
    its == [] ||
    (NeverBack(start, its[..|its| - 1]) && !GoesBack(Run(start, its[..|its| - 1]), its[|its| - 1]))
  }

  /** What an occurrence does to the objects. */
  lemma ApplyObjects(s: Store, oc: Occurrence)
    requires Core(s) && Sound(s)
    ensures var s' := Apply(s, oc);
            && s'.window == s.window
            && match FateOf(s, oc)
               case Absorbed(id) =>
                 && id in s.objs && id in s'.objs && s'.objs == s.objs[id := s'.objs[id]]
                 && s'.objs[id].ts == s.objs[id].ts && s'.objs[id].lastTS >= s.objs[id].lastTS
               case Opened =>
                 var id := s.nextID + 1;
                 id !in s.objs && id in s'.objs && s'.objs == s.objs[id := s'.objs[id]] && s'.objs[id].ts == oc.ts
               case _ => s'.objs == s.objs
  {
    hide Ring, Indexed, Anchored, DetOK, Balanced, KeyOfDet, KeyOfOcc, FoldDet, NewDet, WithinWindow, Policy.Decide,
         Policy.MatchSuppress, EvictHead;
    var v := s.pol.Decide(oc.cls, oc.score, oc.disagreement);
    match FateOf(s, oc) {
      case Absorbed(a) =>
        FoldOK(s.objs[a], oc, v);
      case Opened =>
        NewDetFacts(s.nextID + 1, oc, v);
        EvictFrame(s.(stats := s.stats.(observed := s.stats.observed + 1)));
      case _ =>
    }
  }

  /** A detection that was active beyond its window stays so. */
  lemma StepLoose(s: Store, it: Item)
    requires Core(s) && Sound(s) && !Tight(s)
    ensures !Tight(Step(s, it))
  {
    hide Core, Apply, Sound, FateOf;
    var id :| id in s.objs && s.objs[id].lastTS > s.objs[id].ts + s.window;
    match it {
      case Occur(oc) =>
        ApplyObjects(s, oc);
        var s' := Apply(s, oc);
        assert id in s'.objs && s'.objs[id].lastTS > s'.objs[id].ts + s'.window;
      case Swap(pol) =>
      case Retain(before) => PurgeFrame(s, before, |s.ring|);
    }
  }

  lemma {:induction false} PurgeFrame(s: Store, before: Time, n: nat)
    requires n <= |s.ring|
    ensures PurgeTo(s, before, n).objs == s.objs && PurgeTo(s, before, n).window == s.window
  {
    hide Stale;
    if n > 0 {
      PurgeFrame(s, before, n - 1);
    }
  }

  /** Exactly the runs in which that never happens keep the whole invariant. */
  lemma {:induction false} RunInvIff(start: Store, its: seq<Item>)
    requires Inv(start)
    ensures Inv(Run(start, its)) <==> NeverBack(start, its)
    ensures !NeverBack(start, its) ==> !Tight(Run(start, its))
  {
    hide Core, Complete, Spaced, Tight, Step, GoesBack;
    if its != [] {
      var init, it := its[..|its| - 1], its[|its| - 1];
      RunInvIff(start, init);
      var s := Run(start, init);
      if NeverBack(start, init) {
        StepInv(s, it);
      } else {
        StepLoose(s, it);
      }
    }
  }

  /** Occurrences without a timestamp or none before the zero time: either is enough. */
  lemma {:induction false} NeverBackIf(start: Store, its: seq<Item>)
    requires Inv(start) && start.objs == map[]
    requires || (forall i :: 0 <= i < |its| && its[i].Occur? ==> its[i].oc.ts >= ZERO_TIME)
             || (forall i :: 0 <= i < |its| && its[i].Occur? ==> its[i].oc.ts != ZERO_TIME)
    ensures NeverBack(start, its)
    ensures (forall i :: 0 <= i < |its| && its[i].Occur? ==> its[i].oc.ts >= ZERO_TIME) ==>
              forall id :: id in Run(start, its).objs ==> Run(start, its).objs[id].ts >= ZERO_TIME
  {
    hide Core, Windowed, Step, GoesBack;
    if its != [] {
      var init, it := its[..|its| - 1], its[|its| - 1];
      NeverBackIf(start, init);
      StepTimes(Run(start, init), it);
      NotBack(Run(start, init), it);
    }
  }

  lemma StepTimes(s: Store, it: Item)
    requires Core(s) && Sound(s)
    ensures var s' := Step(s, it);
            forall id :: id in s'.objs ==> (id in s.objs && s'.objs[id].ts == s.objs[id].ts) ||
                                           (it.Occur? && s'.objs[id].ts == it.oc.ts)
  {
    hide Core, Apply, Sound, FateOf, PurgeTo;
    match it {
      case Occur(oc) => ApplyObjects(s, oc);
      case Swap(pol) =>
      case Retain(before) => PurgeFrame(s, before, |s.ring|);
    }
  }

  lemma NotBack(s: Store, it: Item)
    requires Core(s) && Sound(s)
    requires it.Occur? ==> it.oc.ts != ZERO_TIME || forall id :: id in s.objs ==> s.objs[id].ts >= ZERO_TIME
    ensures !GoesBack(s, it)
  {
    hide Objects, Ring, Indexed, Anchored, Dets, Balanced;
  }

  // ---- a run that goes back ----

  predicate Alerts(s: Store, oc: Occurrence) {
    s.pol.Decide(oc.cls, oc.score, oc.disagreement).alert && s.pol.suppress == []
  }

  /** An alert that no active detection covers, with the head slot free. */
  lemma OpensInHead(s: Store, oc: Occurrence)
    requires Sound(s) && Alerts(s, oc) && s.ring[s.head] == 0
    requires KeyOfOcc(oc) in s.active ==> !WithinWindow(s.window, s.objs[s.active[KeyOfOcc(oc)]], oc.ts)
    ensures var s', id := Apply(s, oc), s.nextID + 1;
            && s'.nextID == id && s'.head == NextSlot(s.head, |s.ring|) && s'.ring == s.ring[s.head := id]
            && s'.byID == s.byID + {id} && s'.active == s.active[KeyOfOcc(oc) := id]
            && id in s'.objs && s'.objs == s.objs[id := s'.objs[id]] && s'.pol == s.pol && s'.window == s.window
            && s'.objs[id].ts == s'.objs[id].lastTS == oc.ts && KeyOfDet(s'.objs[id]) == KeyOfOcc(oc)
  {
    hide Policy.Decide, KeyOfDet, KeyOfOcc, NewDet, WithinWindow;
    NewDetFacts(s.nextID + 1, oc, s.pol.Decide(oc.cls, oc.score, oc.disagreement));
  }

  /** An alert without a timestamp, with an active detection of its key. */
  lemma ZeroAbsorbed(s: Store, oc: Occurrence)
    requires Core(s) && Sound(s) && Alerts(s, oc) && oc.ts == ZERO_TIME && KeyOfOcc(oc) in s.active
    ensures var s', id := Apply(s, oc), s.active[KeyOfOcc(oc)];
            && FateOf(s, oc) == Absorbed(id) && id in s.objs && id in s'.objs
            && s' == s.(objs := s.objs[id := s'.objs[id]], stats := s'.stats)
            && s'.objs[id].ts == s.objs[id].ts && s'.objs[id].lastTS >= ZERO_TIME
            && KeyOfDet(s'.objs[id]) == KeyOfDet(s.objs[id])
  {
    hide Core, Policy.Decide, KeyOfDet, KeyOfOcc, FoldDet, DetOK;
    var id := s.active[KeyOfOcc(oc)];
    CoreDet(s, id);
    FoldOK(s.objs[id], oc, s.pol.Decide(oc.cls, oc.score, oc.disagreement));
  }

  lemma RunSnoc(start: Store, its: seq<Item>, it: Item)
    requires Core(start)
    ensures Run(start, its + [it]) == Step(Run(start, its), it)
    ensures NeverBack(start, its + [it]) <==> NeverBack(start, its) && !GoesBack(Run(start, its), it)
  {
    hide Core, Step, GoesBack;
    assert (its + [it])[..|its|] == its;
  }

  /** Two detections of one key, of which the older was active last. */
  ghost predicate Crossed(s: Store, k: DKey) {
    && s.byID == {1, 2} && s.active == map[k := 2] && 1 in s.objs && 2 in s.objs
    && KeyOfDet(s.objs[1]) == k && s.objs[1].lastTS >= ZERO_TIME && s.objs[2].lastTS == -39 * SECOND
  }

  lemma CrossedPurge(s: Store, k: DKey)
    requires Core(s) && Crossed(s, k)
    ensures var s' := Purge(s, -10 * SECOND);
            1 in s'.byID && 1 in s'.objs && KeyOfDet(s'.objs[1]) == k && k !in s'.active
  {
    hide Core, KeyOfDet, Purge, Objects, Ring, Indexed, Leads;
    CoreIndexed(s);
    PurgedIs(s, -10 * SECOND);
  }

  /** After the first occurrence. */
  ghost predicate FirstOpen(s: Store, k: DKey) {
    && s.nextID == 1 && s.byID == {1} && s.active == map[k := 1] && s.head == 1 && s.ring == [1, 0, 0, 0]
    && 1 in s.objs && KeyOfDet(s.objs[1]) == k && s.objs[1].ts == -100 * SECOND && s.window == 60 * SECOND
  }

  lemma FirstOpens(pol: Policy, oc: Occurrence)
    requires Alerts(New(pol, 60 * SECOND, 4), oc) && oc.ts == -100 * SECOND && Sound(New(pol, 60 * SECOND, 4))
    ensures var s := Apply(New(pol, 60 * SECOND, 4), oc);
            FirstOpen(s, KeyOfOcc(oc)) && s.pol == pol
  {
    hide Policy.Decide, KeyOfOcc, KeyOfDet, Apply, Sound;
    OpensInHead(New(pol, 60 * SECOND, 4), oc);
    assert NextSlot(0, 4) == 1;
  }

  lemma ZeroKeeps(s: Store, oc: Occurrence)
    requires Core(s) && Sound(s) && Alerts(s, oc) && FirstOpen(s, KeyOfOcc(oc)) && oc.ts == ZERO_TIME
    ensures var s' := Apply(s, oc);
            && GoesBack(s, Occur(oc)) && Core(s') && Sound(s')
            && FirstOpen(s', KeyOfOcc(oc)) && s'.objs[1].lastTS >= ZERO_TIME && s'.pol == s.pol
  {
    hide Core, Policy.Decide, KeyOfOcc, KeyOfDet, Apply, FateOf, Sound;
    ZeroAbsorbed(s, oc);
    ApplyCore(s, oc);
    CoreSound(Apply(s, oc));
  }

  lemma SecondOpens(s: Store, oc: Occurrence)
    requires Core(s) && Sound(s) && Alerts(s, oc) && FirstOpen(s, KeyOfOcc(oc)) && oc.ts == -39 * SECOND
    requires s.objs[1].lastTS >= ZERO_TIME
    ensures Crossed(Apply(s, oc), KeyOfOcc(oc))
  {
    hide Core, Policy.Decide, KeyOfOcc, KeyOfDet, Apply, Sound;
    OpensInHead(s, oc);
  }

  /** The second to fourth items of the run. */
  lemma ThenOutlives(s: Store, o1: Occurrence, o2: Occurrence, k: DKey)
    requires Core(s) && Sound(s) && FirstOpen(s, k) && KeyOfOcc(o1) == KeyOfOcc(o2) == k
    requires Alerts(s, o1) && Alerts(s, o2) && o1.ts == ZERO_TIME && o2.ts == -39 * SECOND
    ensures GoesBack(s, Occur(o1)) && Sound(Apply(s, o1)) && Sound(Apply(Apply(s, o1), o2))
    ensures var s' := Purge(Apply(Apply(s, o1), o2), -10 * SECOND);
            1 in s'.byID && 1 in s'.objs && KeyOfDet(s'.objs[1]) == k && k !in s'.active
  {
    hide Core, Policy.Decide, KeyOfOcc, KeyOfDet, Apply, GoesBack, Sound, Purge, Crossed, FirstOpen;
    ZeroKeeps(s, o1);
    SecondOpens(Apply(s, o1), o2);
    ApplyCore(Apply(s, o1), o2);
    CoreSound(Apply(Apply(s, o1), o2));
    CrossedPurge(Apply(Apply(s, o1), o2), k);
  }

  /** A detection that an occurrence without a timestamp kept active beyond its window outlives a newer one of its key,
      and that key is no longer active. */
  lemma ZeroOutlives(pol: Policy, o0: Occurrence, o1: Occurrence, o2: Occurrence)
    requires KeyOfOcc(o0) == KeyOfOcc(o1) == KeyOfOcc(o2) && pol.suppress == []
    requires forall o :: o in [o0, o1, o2] ==> pol.Decide(o.cls, o.score, o.disagreement).alert
    requires o0.ts == -100 * SECOND && o1.ts == ZERO_TIME && o2.ts == -39 * SECOND
    ensures var start, its := New(pol, 60 * SECOND, 4), [Occur(o0), Occur(o1), Occur(o2), Retain(-10 * SECOND)];
            && Inv(start) && !NeverBack(start, its)
            && var s := Run(start, its);
               1 in s.byID && 1 in s.objs && KeyOfDet(s.objs[1]) == KeyOfOcc(o0) && KeyOfOcc(o0) !in s.active
  {
    var start := New(pol, 60 * SECOND, 4);
    NewInv(pol, 60 * SECOND, 4);
    CoreSound(start);
    FirstOpens(pol, o0);
    RunFour(start, Occur(o0), Occur(o1), Occur(o2), Retain(-10 * SECOND));
    hide Core, Windowed, Policy.Decide, KeyOfOcc, KeyOfDet, Apply, GoesBack, Sound, Purge, Run, NeverBack, New,
         FirstOpen;
    ThenOutlives(Run(start, [Occur(o0)]), o1, o2, KeyOfOcc(o0));
  }

  lemma RunFour(start: Store, a: Item, b: Item, c: Item, d: Item)
    requires Core(start) && Sound(start)
    ensures Run(start, [a]) == Step(start, a) && Run(start, [a, b]) == Step(Run(start, [a]), b)
    ensures Run(start, [a, b, c]) == Step(Run(start, [a, b]), c)
    ensures Run(start, [a, b, c, d]) == Step(Run(start, [a, b, c]), d)
    ensures NeverBack(start, [a, b, c, d]) ==> !GoesBack(Run(start, [a]), b)
  {
    hide Core, Sound, Step, GoesBack, Run, NeverBack;
    RunNone(start);
    RunSnoc(start, [], a);
    RunSnoc(start, [a], b);
    RunSnoc(start, [a, b], c);
    RunSnoc(start, [a, b, c], d);
    assert [] + [a] == [a] && [a] + [b] == [a, b] && [a, b] + [c] == [a, b, c] && [a, b, c] + [d] == [a, b, c, d];
  }

  lemma RunNone(start: Store)
    requires Core(start)
    ensures Run(start, []) == start
  {}

  lemma CoreIndexed(s: Store)
    requires Core(s)
    ensures Objects(s) && Ring(s) && Indexed(s) && Leads(s)
  {
    AnchoredLeads(s);
  }

  lemma NewInv(pol: Policy, window: int, maxRecent: nat)
    requires window >= 0 && maxRecent > 0
    ensures Inv(New(pol, window, maxRecent))
  {}
}
