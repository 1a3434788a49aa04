/** When a sweep reports or closes a flow, in timestamps: snapshots of a flow come an interval after its first packet
    and after each other, as soon as a sweep allows, and it is closed by the first sweep that finds a timer run out. */
module FlowSnapshots {
  import opened Common
  import opened Flow
  import opened FlowSpec
  import opened FlowLife
  import opened FlowBatch
  import opened FlowEmission
  import opened FlowOrigins

  // ---- distinct IDs, in every run ----

  /** Live flows have distinct IDs, handed out before, and no record carries another one. */
  ghost predicate Distinct(s: State) {
    Identified(s) && forall i :: 0 <= i < |s.out| ==> s.out[i].id <= s.nextID
  }

  lemma CloseDistinct(s: State, k: Key, e: Entry, reason: Reason)
    requires Distinct(s) && e.rec.id <= s.nextID
    ensures Distinct(Close(s, k, e, reason))
  {}

  lemma DeliverDistinct(s: State, k: Key, e: Entry, p: Packet)
    requires Distinct(s) && e.rec.id <= s.nextID && (k in s.flows ==> s.flows[k] == e)
    ensures Distinct(Deliver(s, k, e, p))
  {
    hide Account;
    AccountIdentity(e, p);
  }

  lemma OpenDistinct(opt: Options, s: State, p: Packet, victim: Key)
    requires Distinct(s) && Legal(opt, s, Arrive(p, victim)) && Opens(s, p)
    ensures var s', k := Open(opt, s, p, victim), KeyOf(p).0;
            Distinct(s') && s'.nextID == s.nextID + 1 &&
            (k in s'.flows ==> s'.flows[k] == NewEntry(opt, s.nextID + 1, k, p))
  {
    hide KeyOf, NewEntry, Absorbed, Distinct;
    InsertDistinct(opt, s, p);
    if Overflows(opt, s, p) {
      EvictDistinct(Insert(opt, s, p), victim);
    }
  }

  lemma InsertDistinct(opt: Options, s: State, p: Packet)
    requires Distinct(s)
    ensures Distinct(Insert(opt, s, p))
  {
    hide KeyOf, NewEntry;
  }

  lemma EvictDistinct(s: State, victim: Key)
    requires Distinct(s) && victim in s.flows
    ensures Distinct(Evict(s, victim))
  {
    CloseDistinct(s, victim, s.flows[victim], Evicted);
  }

  lemma ObserveDistinct(opt: Options, s: State, p: Packet, victim: Key)
    requires Distinct(s) && Legal(opt, s, Arrive(p, victim))
    ensures Distinct(Observe(opt, s, p, victim))
  {
    hide KeyOf, NewEntry, Deliver, Open, Absorbed;
    var k := KeyOf(p).0;
    if k in s.flows {
      DeliverDistinct(s, k, s.flows[k], p);
    } else if !Absorbed(s, p) {
      OpenDistinct(opt, s, p, victim);
      DeliverDistinct(Open(opt, s, p, victim), k, NewEntry(opt, s.nextID + 1, k, p), p);
    }
  }

  lemma TickKeyDistinct(opt: Options, s: State, now: Time, k: Key)
    requires Distinct(s)
    ensures Distinct(TickKey(opt, s, now, k))
  {}

  lemma {:induction false} TickKeysDistinct(opt: Options, s: State, now: Time, order: seq<Key>)
    requires Distinct(s)
    ensures Distinct(TickKeys(opt, s, now, order))
  {
    hide Distinct, TickKey;
    if order != [] {
      TickKeysDistinct(opt, s, now, order[..|order| - 1]);
      TickKeyDistinct(opt, TickKeys(opt, s, now, order[..|order| - 1]), now, order[|order| - 1]);
    }
  }

  lemma {:induction false} FlushDistinct(s: State, order: seq<Key>)
    requires Distinct(s)
    ensures Distinct(Flush(s, order))
  {
    if order != [] {
      FlushDistinct(s, order[..|order| - 1]);
    }
  }

  lemma StepDistinct(opt: Options, s: State, ev: Event)
    requires Distinct(s) && Legal(opt, s, ev)
    ensures Distinct(Step(opt, s, ev))
  {
    hide Observe, TickKeys, Flush;
    match ev
    case Arrive(p, victim) => ObserveDistinct(opt, s, p, victim);
    case Sweep(now, order) => TickKeysDistinct(opt, s.(recentDown := Forget(s.recentDown, now)), now, order);
    case Drain(order) => FlushDistinct(s, order);
  }

  lemma {:induction false} EveryRunDistinct(opt: Options, evs: seq<Event>)
    requires LegalRun(opt, evs)
    ensures Distinct(Run(opt, evs))
  {
    if evs != [] {
      hide Distinct, Step;
      EveryRunDistinct(opt, evs[..|evs| - 1]);
      StepDistinct(opt, Run(opt, evs[..|evs| - 1]), evs[|evs| - 1]);
    } else {
      assert Distinct(EMPTY);
    }
  }

  // ---- one sweep ----

  /** A flow first seen at that time has outlived the lifetime limit. */
  predicate TooOld(opt: Options, firstSeen: Time, now: Time) {
    opt.maxLifetime > 0 && now >= firstSeen + opt.maxLifetime
  }

  predicate TooQuiet(opt: Options, lastSeen: Time, now: Time) {
    opt.idleTimeout > 0 && now >= lastSeen + opt.idleTimeout
  }

  /** A flow last reported (or first seen) at mark is to be reported again; a due time that is the zero time is none. */
  predicate ToReport(opt: Options, mark: Time, now: Time) {
    opt.snapshotInterval > 0 && mark + opt.snapshotInterval != ZERO_TIME && now >= mark + opt.snapshotInterval
  }

  /** What a sweep leaves of one entry, and what it tells of it: its last record, for its age if both timers have run
      out; or a snapshot with the next number, which is due again an interval later; or nothing. */
  ghost predicate Swept(opt: Options, e: Entry, mark: Time, now: Time, e': Option<Entry>, told: seq<Record>) {
    var r := e.rec;
    if TooOld(opt, r.firstSeen, now) then e' == None && told == [r.(reason := MaxLife)]
    else if TooQuiet(opt, r.lastSeen, now) then e' == None && told == [r.(reason := Idle)]
    else if ToReport(opt, mark, now) then
      var r' := r.(snapshotIndex := r.snapshotIndex + 1);
      e' == Some(e.(rec := r', nextSnapshotAt := now + opt.snapshotInterval)) && told == [r'.(reason := Snapshot)]
    else e' == Some(e) && told == []
  }

  function EntryOf(s: State, k: Key): Option<Entry> { if k in s.flows then Some(s.flows[k]) else None }

  /** An entry whose next snapshot is an interval after mark. */
  predicate Marked(opt: Options, e: Entry, mark: Time) {
    opt.snapshotInterval > 0 ==> e.nextSnapshotAt == mark + opt.snapshotInterval
  }

  lemma TickKeySwept(opt: Options, s: State, now: Time, k: Key, mark: Time)
    requires k in s.flows && Marked(opt, s.flows[k], mark)
    ensures var s' := TickKey(opt, s, now, k);
            && s.out <= s'.out && (forall j :: j != k ==> EntryOf(s', j) == EntryOf(s, j))
            && Swept(opt, s.flows[k], mark, now, EntryOf(s', k), s'.out[|s.out|..])
            && forall i :: |s.out| <= i < |s'.out| ==> s'.out[i].id == s.flows[k].rec.id
  {}

  lemma {:induction false} LifeSplit(out: seq<Record>, more: seq<Record>, id: nat)
    ensures LifeOf(out + more, id) == LifeOf(out, id) + LifeOf(more, id)
  {
    if more == [] {
      assert out + more == out;
    } else {
      var init, r := more[..|more| - 1], more[|more| - 1];
      LifeSplit(out, init, id);
      assert out + more == out + init + [r];
      LifeSnoc(out + init, r, id);
    }
  }

  lemma {:induction false} LifeOfOne(more: seq<Record>, id: nat, other: nat)
    requires forall i :: 0 <= i < |more| ==> more[i].id == id
    ensures LifeOf(more, other) == if other == id then more else []
  {
    if more != [] {
      var init, r := more[..|more| - 1], more[|more| - 1];
      LifeOfOne(init, id, other);
      assert more == init + [r];
    }
  }

  ghost predicate AllMarked(opt: Options, s: State, marks: map<Key, Time>) {
    forall k :: k in s.flows ==> k in marks && Marked(opt, s.flows[k], marks[k])
  }

  /** The keys of order swept: each flow once, the others left alone. */
  ghost predicate SweptKeys(opt: Options, s: State, marks: map<Key, Time>, now: Time, order: seq<Key>, s': State)
    requires AllMarked(opt, s, marks)
  {
    && s.out <= s'.out
    && (forall k :: k !in s.flows ==> k !in s'.flows)
    && (forall k :: k in s.flows ==>
          var e, told := s.flows[k], LifeOf(s'.out[|s.out|..], s.flows[k].rec.id);
          if k in order then Swept(opt, e, marks[k], now, EntryOf(s', k), told)
          else EntryOf(s', k) == Some(e) && told == [])
    && (forall id: nat ::
          (forall k :: k in s.flows ==> s.flows[k].rec.id != id) ==> LifeOf(s'.out[|s.out|..], id) == [])
  }

  lemma {:induction false} TickKeysSwept(
    opt: Options, s: State, marks: map<Key, Time>, now: Time, order: seq<Key>)
    requires Identified(s) && AllMarked(opt, s, marks)
    requires forall i, j :: 0 <= i < j < |order| ==> order[i] != order[j]
    ensures SweptKeys(opt, s, marks, now, order, TickKeys(opt, s, now, order))
  {
    hide TickKey, Swept, Marked;
    if order != [] {
      var init, k := order[..|order| - 1], order[|order| - 1];
      TickKeysSwept(opt, s, marks, now, init);
      LastSwept(opt, s, marks, now, init, k, TickKeys(opt, s, now, init));
      assert init + [k] == order;
    }
  }

  lemma LastSwept(opt: Options, s: State, marks: map<Key, Time>, now: Time, init: seq<Key>, k: Key, s1: State)
    requires Identified(s) && AllMarked(opt, s, marks) && k !in init && SweptKeys(opt, s, marks, now, init, s1)
    ensures SweptKeys(opt, s, marks, now, init + [k], TickKey(opt, s1, now, k))
  {
    hide TickKey, Swept, Marked, LifeOf;
    var s' := TickKey(opt, s1, now, k);
    if k in s.flows {
      assert EntryOf(s1, k) == Some(s.flows[k]);
      TickKeySwept(opt, s1, now, k, marks[k]);
      var told, more := s1.out[|s.out|..], s'.out[|s1.out|..];
      assert s'.out[|s.out|..] == told + more;
      var mine := s.flows[k].rec.id;
      assert LifeOf(told, mine) == [];
      forall id: nat ensures LifeOf(s'.out[|s.out|..], id) == if id == mine then more else LifeOf(told, id) {
        LifeSplit(told, more, id);
        LifeOfOne(more, mine, id);
      }
      forall j | j in s.flows && j != k ensures s.flows[j].rec.id != mine && EntryOf(s', j) == EntryOf(s1, j) {}
      forall j ensures j in init + [k] <==> j in init || j == k {
        InMore(init, k, j);
      }
      assert s.out <= s'.out;
      forall j | j !in s.flows ensures j !in s'.flows {
        assert EntryOf(s', j) == EntryOf(s1, j) == None;
      }
      forall j | j in s.flows
        ensures var e, told := s.flows[j], LifeOf(s'.out[|s.out|..], s.flows[j].rec.id);
                if j in init + [k] then Swept(opt, e, marks[j], now, EntryOf(s', j), told)
                else EntryOf(s', j) == Some(e) && told == []
      {
        if j == k {
          assert s1.flows[k] == s.flows[k];
        }
      }
    } else {
      assert s' == s1 by { TickNobody(opt, s1, now, k); }
    }
  }

  lemma InMore(order: seq<Key>, k: Key, j: Key)
    ensures j in order + [k] <==> j in order || j == k
  {}

  lemma TickNobody(opt: Options, s: State, now: Time, k: Key)
    requires k !in s.flows
    ensures TickKey(opt, s, now, k) == s
  {}

  // ---- over a run ----

  /** The records that the last step of the run emitted. */
  ghost function News(opt: Options, evs: seq<Event>): seq<Record>
    requires LegalRun(opt, evs) && evs != []
  {
    var before, after := Run(opt, evs[..|evs| - 1]).out, Run(opt, evs).out;
    if |before| <= |after| then after[|before|..] else []
  }

  function Snaps(out: seq<Record>, id: nat): nat {
    if out == [] then 0
    else
      var r := out[|out| - 1];
      Snaps(out[..|out| - 1], id) + if r.id == id && r.reason == Snapshot then 1 else 0
  }

  /** The time at which an event happens. */
  function TimeOf(ev: Event): Time {
    match ev
    case Arrive(p, _) => p.ts
    case Sweep(now, _) => now
    case Drain(_) => ZERO_TIME
  }

  /** The times of the snapshots of flow id, one for each. */
  ghost function SnapTimes(opt: Options, evs: seq<Event>, id: nat): seq<Time>
    requires LegalRun(opt, evs)
  {
    if evs == [] then []
    else
      var ev := evs[|evs| - 1];
      SnapTimes(opt, evs[..|evs| - 1], id) + seq(Snaps(News(opt, evs), id), _ => TimeOf(ev))
  }

  lemma SnapsOne(out: seq<Record>, r: Record, id: nat)
    ensures Snaps(out + [r], id) == Snaps(out, id) + if r.id == id && r.reason == Snapshot then 1 else 0
  {
    assert (out + [r])[..|out|] == out;
  }

  lemma {:induction false} SnapsSplit(out: seq<Record>, more: seq<Record>, id: nat)
    ensures Snaps(out + more, id) == Snaps(out, id) + Snaps(more, id)
  {
    if more == [] {
      assert out + more == out;
    } else {
      var init := more[..|more| - 1];
      SnapsSplit(out, init, id);
      assert out + more == out + init + [more[|more| - 1]];
      SnapsOne(out + init, more[|more| - 1], id);
    }
  }

  lemma {:induction false} SnapsOfLife(out: seq<Record>, id: nat)
    ensures Snaps(out, id) == Snaps(LifeOf(out, id), id)
  {
    if out != [] {
      var init, r := out[..|out| - 1], out[|out| - 1];
      SnapsOfLife(init, id);
      assert init + [r] == out;
      LifeSnoc(init, r, id);
      if r.id == id {
        SnapsOne(LifeOf(init, id), r, id);
      }
    }
  }

  lemma {:induction false} NoSnaps(out: seq<Record>, id: nat)
    requires forall i :: 0 <= i < |out| ==> out[i].Terminal()
    ensures Snaps(out, id) == 0
  {
    if out != [] {
      NoSnaps(out[..|out| - 1], id);
    }
  }

  lemma NewsAre(opt: Options, evs: seq<Event>)
    requires LegalRun(opt, evs) && evs != []
    ensures var s, s', ev := Run(opt, evs[..|evs| - 1]), Run(opt, evs), evs[|evs| - 1];
            && Legal(opt, s, ev) && s' == Step(opt, s, ev) && s'.out == s.out + News(opt, evs)
            && (!ev.Sweep? ==> forall id :: Snaps(News(opt, evs), id) == 0)
  {
    hide Step, Legal, Run, Grows;
    var s, ev := Run(opt, evs[..|evs| - 1]), evs[|evs| - 1];
    LastStep(opt, evs);
    StepGrows(opt, s, ev);
    assert s.out <= Run(opt, evs).out && (!ev.Sweep? ==> forall i :: 0 <= i < |News(opt, evs)| ==>
      News(opt, evs)[i].Terminal()) by { NewsTerminal(s, Run(opt, evs), ev.Sweep?); }
    if !ev.Sweep? {
      forall id ensures Snaps(News(opt, evs), id) == 0 {
        NoSnaps(News(opt, evs), id);
      }
    }
  }

  lemma NewsTerminal(s: State, s': State, snapshots: bool)
    requires Grows(s, s', snapshots)
    ensures s.out <= s'.out && (!snapshots ==> forall i :: |s.out| <= i < |s'.out| ==> s'.out[i].Terminal())
  {}

  /** There are as many times as snapshots: only sweeps emit any. */
  lemma {:induction false} TimesCount(opt: Options, evs: seq<Event>, id: nat)
    requires LegalRun(opt, evs)
    ensures |SnapTimes(opt, evs, id)| == Snaps(Run(opt, evs).out, id)
  {
    if evs != [] {
      hide Run, LegalRun, News, Step, Legal;
      TimesCount(opt, evs[..|evs| - 1], id);
      NewsAre(opt, evs);
      SnapsSplit(Run(opt, evs[..|evs| - 1]).out, News(opt, evs), id);
    } else {
      assert Run(opt, evs).out == [];
    }
  }

  /** When a flow was last reported, or else first seen. */
  ghost function LastReport(opt: Options, evs: seq<Event>, id: nat, firstSeen: Time): Time
    requires LegalRun(opt, evs)
  {
    var ts := SnapTimes(opt, evs, id);
    if ts == [] then firstSeen else ts[|ts| - 1]
  }

  /** The schedule: each live flow is due an interval after it was last reported or first seen. */
  ghost predicate Scheduled(opt: Options, evs: seq<Event>)
    requires LegalRun(opt, evs)
  {
    && (forall k :: k in Run(opt, evs).flows ==>
          var e := Run(opt, evs).flows[k]; Marked(opt, e, LastReport(opt, evs, e.rec.id, e.rec.firstSeen)))
    && (forall id :: id > Run(opt, evs).nextID ==> SnapTimes(opt, evs, id) == [])
  }

  /** What an arrival does not change of an entry, unless it is new. */
  ghost predicate Arrived(opt: Options, s: State, p: Packet, e': Entry, k: Key) {
    || (k in s.flows && e'.nextSnapshotAt == s.flows[k].nextSnapshotAt &&
        e'.rec.id == s.flows[k].rec.id && e'.rec.firstSeen == s.flows[k].rec.firstSeen)
    || (e'.rec.id == s.nextID + 1 && Marked(opt, e', e'.rec.firstSeen))
  }

  lemma AccountSchedule(e: Entry, p: Packet)
    ensures var e' := Account(e, p);
            e'.nextSnapshotAt == e.nextSnapshotAt && e'.rec.id == e.rec.id && e'.rec.firstSeen == e.rec.firstSeen
  {
    hide FoldSize, FoldGap, FoldDirection, FoldTCP, KeyOf, IsForward;
  }

  lemma NewSchedule(opt: Options, id: nat, k: Key, p: Packet)
    ensures var e := NewEntry(opt, id, k, p); e.rec.id == id && Marked(opt, e, e.rec.firstSeen)
  {}

  lemma ArriveSchedule(opt: Options, s: State, p: Packet, victim: Key)
    requires Legal(opt, s, Arrive(p, victim))
    ensures var s' := Observe(opt, s, p, victim);
            (forall k :: k in s'.flows ==> Arrived(opt, s, p, s'.flows[k], k)) && s.nextID <= s'.nextID
  {
    hide KeyOf, NewEntry, Account, Absorbed, Marked;
    var k := KeyOf(p).0;
    var e := NewEntry(opt, s.nextID + 1, k, p);
    NewSchedule(opt, s.nextID + 1, k, p);
    AccountSchedule(e, p);
    assert Marked(opt, Account(e, p), e.rec.firstSeen) by {
      MarkedSame(opt, e, Account(e, p));
    }
    if k in s.flows {
      AccountSchedule(s.flows[k], p);
    }
  }

  lemma MarkedSame(opt: Options, e: Entry, e': Entry)
    requires Marked(opt, e, e.rec.firstSeen) && e'.nextSnapshotAt == e.nextSnapshotAt
    ensures Marked(opt, e', e.rec.firstSeen)
  {}

  /** A sweep, in every run: each live flow is closed for its age, closed for being idle, reported because an interval
      has passed since it was last reported or first seen, or left alone, as the timestamps say. */
  lemma SweepTells(opt: Options, evs: seq<Event>, k: Key)
    requires LegalRun(opt, evs) && evs != [] && evs[|evs| - 1].Sweep? && Scheduled(opt, evs[..|evs| - 1])
    ensures var init, now := evs[..|evs| - 1], evs[|evs| - 1].now;
            var s, s' := Run(opt, init), Run(opt, evs);
            if k in s.flows then
              var e := s.flows[k];
              Swept(opt, e, LastReport(opt, init, e.rec.id, e.rec.firstSeen), now, EntryOf(s', k),
                    LifeOf(News(opt, evs), e.rec.id))
            else k !in s'.flows
  {
    var init, ev := evs[..|evs| - 1], evs[|evs| - 1];
    var s := Run(opt, init);
    hide Run, LegalRun, Swept, Marked, TickKeys, SnapTimes, LastReport, News;
    NewsAre(opt, evs);
    EveryRunDistinct(opt, init);
    var mark := if k in s.flows then LastReport(opt, init, s.flows[k].rec.id, s.flows[k].rec.firstSeen) else ZERO_TIME;
    SweepOne(opt, s, ev.now, ev.order, k, mark);
    assert Run(opt, evs) == Tick(opt, s, ev.now, ev.order);
    assert Run(opt, evs).out[|s.out|..] == News(opt, evs);
  }

  lemma SweepOne(opt: Options, s: State, now: Time, order: seq<Key>, k: Key, mark: Time)
    requires Legal(opt, s, Sweep(now, order)) && Identified(s) && (k in s.flows ==> Marked(opt, s.flows[k], mark))
    ensures var s' := Tick(opt, s, now, order);
            && s.out <= s'.out
            && if k in s.flows then
                 Swept(opt, s.flows[k], mark, now, EntryOf(s', k), LifeOf(s'.out[|s.out|..], s.flows[k].rec.id))
               else k !in s'.flows
  {
    hide Swept, TickKeys;
    var s1 := s.(recentDown := Forget(s.recentDown, now));
    var marks := map j | j in s1.flows :: if j == k then mark else s1.flows[j].nextSnapshotAt - opt.snapshotInterval;
    TickKeysSwept(opt, s1, marks, now, order);
  }

  /** How the snapshot times of one flow grow with a step. */
  lemma TimesGrow(opt: Options, evs: seq<Event>, id: nat)
    requires LegalRun(opt, evs) && evs != []
    ensures var n := Snaps(News(opt, evs), id);
            SnapTimes(opt, evs, id) == SnapTimes(opt, evs[..|evs| - 1], id) + seq(n, _ => TimeOf(evs[|evs| - 1]))
  {
    hide Run, LegalRun, News, Step, Legal;
  }

  lemma QuietTimes(opt: Options, evs: seq<Event>, id: nat)
    requires LegalRun(opt, evs) && evs != [] && Snaps(News(opt, evs), id) == 0
    ensures SnapTimes(opt, evs, id) == SnapTimes(opt, evs[..|evs| - 1], id)
  {
    hide Run, LegalRun, News, Step, Legal, SnapTimes;
    TimesGrow(opt, evs, id);
  }

  lemma OneTime(opt: Options, evs: seq<Event>, id: nat)
    requires LegalRun(opt, evs) && evs != [] && Snaps(News(opt, evs), id) == 1
    ensures SnapTimes(opt, evs, id) == SnapTimes(opt, evs[..|evs| - 1], id) + [TimeOf(evs[|evs| - 1])]
  {
    hide Run, LegalRun, News, Step, Legal, SnapTimes;
    TimesGrow(opt, evs, id);
    assert seq(1, _ => TimeOf(evs[|evs| - 1])) == [TimeOf(evs[|evs| - 1])];
  }

  /** What a sweep tells of a flow, counted. */
  lemma SweptTimes(opt: Options, evs: seq<Event>, k: Key)
    requires LegalRun(opt, evs) && evs != [] && evs[|evs| - 1].Sweep? && Scheduled(opt, evs[..|evs| - 1])
    requires k in Run(opt, evs[..|evs| - 1]).flows
    ensures var init, now := evs[..|evs| - 1], evs[|evs| - 1].now;
            var r := Run(opt, init).flows[k].rec;
            var reported := !TooOld(opt, r.firstSeen, now) && !TooQuiet(opt, r.lastSeen, now) &&
                            ToReport(opt, LastReport(opt, init, r.id, r.firstSeen), now);
            && SnapTimes(opt, evs, r.id) == SnapTimes(opt, init, r.id) + (if reported then [now] else [])
            && (k in Run(opt, evs).flows <==> !TooOld(opt, r.firstSeen, now) && !TooQuiet(opt, r.lastSeen, now))
            && (k in Run(opt, evs).flows ==>
                  var e, e' := Run(opt, init).flows[k], Run(opt, evs).flows[k];
                  && e'.rec.id == r.id && e'.rec.firstSeen == r.firstSeen
                  && (reported ==> Marked(opt, e', now)) && (!reported ==> e' == e))
  {
    var init, now := evs[..|evs| - 1], evs[|evs| - 1].now;
    var r := Run(opt, init).flows[k].rec;
    SweepTells(opt, evs, k);
    hide Run, LegalRun, SnapTimes, LastReport, News, TooOld, TooQuiet, ToReport, LifeOf;
    SnapsOfLife(News(opt, evs), r.id);
    var told := LifeOf(News(opt, evs), r.id);
    if told != [] {
      assert told == [told[0]] && told[..0] == [];
    }
    var n := Snaps(told, r.id);
    if n == 0 {
      QuietTimes(opt, evs, r.id);
    } else {
      OneTime(opt, evs, r.id);
    }
  }

  lemma SweepScheduled(opt: Options, evs: seq<Event>)
    requires LegalRun(opt, evs) && evs != [] && evs[|evs| - 1].Sweep? && Scheduled(opt, evs[..|evs| - 1])
    ensures Scheduled(opt, evs)
  {
    hide TooOld, TooQuiet, ToReport, News, SnapTimes, Marked, Step, Legal, Identified;
    var init := evs[..|evs| - 1];
    forall k | k in Run(opt, evs).flows
      ensures var e := Run(opt, evs).flows[k]; Marked(opt, e, LastReport(opt, evs, e.rec.id, e.rec.firstSeen))
    {
      SweepTells(opt, evs, k);
      SweptTimes(opt, evs, k);
    }
    NewsAre(opt, evs);
    EveryRunDistinct(opt, evs);
    forall id | id > Run(opt, evs).nextID ensures SnapTimes(opt, evs, id) == [] {
      SweepKeepsID(opt, Run(opt, init), evs[|evs| - 1]);
      NoneOf(Run(opt, evs).out, Run(opt, init).out, News(opt, evs), id);
      QuietTimes(opt, evs, id);
    }
  }

  lemma SweepKeepsID(opt: Options, s: State, ev: Event)
    requires Legal(opt, s, ev) && !ev.Arrive?
    ensures Step(opt, s, ev).nextID == s.nextID
  {
    hide TickKeys, Flush;
    match ev
    case Sweep(now, order) => TickKeysID(opt, s.(recentDown := Forget(s.recentDown, now)), now, order);
    case Drain(order) => FlushID(s, order);
  }

  lemma {:induction false} TickKeysID(opt: Options, s: State, now: Time, order: seq<Key>)
    ensures TickKeys(opt, s, now, order).nextID == s.nextID
  {
    if order != [] {
      TickKeysID(opt, s, now, order[..|order| - 1]);
    }
  }

  lemma {:induction false} FlushID(s: State, order: seq<Key>)
    ensures Flush(s, order).nextID == s.nextID
    ensures forall k :: k in Flush(s, order).flows ==> k in s.flows && Flush(s, order).flows[k] == s.flows[k]
  {
    if order != [] {
      FlushID(s, order[..|order| - 1]);
    }
  }

  lemma NoneOf(all: seq<Record>, out: seq<Record>, more: seq<Record>, id: nat)
    requires all == out + more && forall i :: 0 <= i < |all| ==> all[i].id != id
    ensures Snaps(more, id) == 0
  {
    assert forall i :: 0 <= i < |more| ==> more[i] == all[|out| + i];
    NoneCounted(more, id);
  }

  lemma {:induction false} NoneCounted(more: seq<Record>, id: nat)
    requires forall i :: 0 <= i < |more| ==> more[i].id != id
    ensures Snaps(more, id) == 0
  {
    if more != [] {
      NoneCounted(more[..|more| - 1], id);
    }
  }

  lemma OtherScheduled(opt: Options, evs: seq<Event>)
    requires LegalRun(opt, evs) && evs != [] && !evs[|evs| - 1].Sweep? && Scheduled(opt, evs[..|evs| - 1])
    ensures Scheduled(opt, evs)
  {
    hide News, SnapTimes, Marked, Observe, Flush;
    var init, ev := evs[..|evs| - 1], evs[|evs| - 1];
    var s, s' := Run(opt, init), Run(opt, evs);
    NewsAre(opt, evs);
    forall id: nat ensures SnapTimes(opt, evs, id) == SnapTimes(opt, init, id) {
      QuietTimes(opt, evs, id);
    }
    match ev
    case Arrive(p, victim) =>
      ArriveSchedule(opt, s, p, victim);
      forall k | k in s'.flows
        ensures var e := s'.flows[k]; Marked(opt, e, LastReport(opt, evs, e.rec.id, e.rec.firstSeen))
      {
        assert Arrived(opt, s, p, s'.flows[k], k);
        if k in s.flows && s'.flows[k].nextSnapshotAt == s.flows[k].nextSnapshotAt {
          MarkedAs(opt, s.flows[k], s'.flows[k]);
        }
      }
    case Drain(order) => FlushID(s, order);
  }

  lemma MarkedAs(opt: Options, e: Entry, e': Entry)
    requires e'.nextSnapshotAt == e.nextSnapshotAt
    ensures forall mark :: Marked(opt, e, mark) == Marked(opt, e', mark)
  {}

  lemma {:induction false} EveryRunScheduled(opt: Options, evs: seq<Event>)
    requires LegalRun(opt, evs)
    ensures Scheduled(opt, evs)
  {
    if evs != [] {
      var init := evs[..|evs| - 1];
      EveryRunScheduled(opt, init);
      hide Scheduled, Run, LegalRun;
      if evs[|evs| - 1].Sweep? {
        SweepScheduled(opt, evs);
      } else {
        OtherScheduled(opt, evs);
      }
    }
  }

  lemma StrangersUntold(opt: Options, s: State, now: Time, order: seq<Key>, id: nat)
    requires Legal(opt, s, Sweep(now, order)) && Identified(s)
    requires forall k :: k in s.flows ==> s.flows[k].rec.id != id
    ensures var s' := Tick(opt, s, now, order); s.out <= s'.out && LifeOf(s'.out[|s.out|..], id) == []
  {
    hide Swept, TickKeys;
    var s1 := s.(recentDown := Forget(s.recentDown, now));
    TickKeysSwept(opt, s1, map j | j in s1.flows :: s1.flows[j].nextSnapshotAt - opt.snapshotInterval, now, order);
  }

  // ---- what that means ----

  /** A sweep, in every run, as SweepTells says. */
  lemma SweepOutcome(opt: Options, evs: seq<Event>, k: Key)
    requires LegalRun(opt, evs) && evs != [] && evs[|evs| - 1].Sweep?
    ensures var init, now := evs[..|evs| - 1], evs[|evs| - 1].now;
            var s, s' := Run(opt, init), Run(opt, evs);
            if k in s.flows then
              var e := s.flows[k];
              Swept(opt, e, LastReport(opt, init, e.rec.id, e.rec.firstSeen), now, EntryOf(s', k),
                    LifeOf(News(opt, evs), e.rec.id))
            else k !in s'.flows
  {
    EveryRunScheduled(opt, evs[..|evs| - 1]);
    hide Run, LegalRun, Scheduled, Swept, News;
    SweepTells(opt, evs, k);
  }

  predicate Apart(ts: seq<Time>, interval: int) {
    forall i :: 0 < i < |ts| ==> ts[i] >= ts[i - 1] + interval
  }

  /** The first snapshot comes an interval after the flow's first packet or later, and so does each one after the one
      before it. */
  ghost predicate Spread(opt: Options, ts: seq<Time>, t: map<nat, seq<Packet>>, id: nat) {
    && Apart(ts, opt.snapshotInterval)
    && (ts != [] ==> opt.snapshotInterval > 0 && id in t && t[id] != [] && ts[0] >= t[id][0].ts + opt.snapshotInterval)
  }

  lemma NoFlowNoSnaps(opt: Options, evs: seq<Event>, id: nat)
    requires LegalRun(opt, evs) && evs != [] && evs[|evs| - 1].Sweep?
    requires var s := Run(opt, evs[..|evs| - 1]); forall k :: k in s.flows ==> s.flows[k].rec.id != id
    ensures Snaps(News(opt, evs), id) == 0
  {
    var init, ev := evs[..|evs| - 1], evs[|evs| - 1];
    var s := Run(opt, init);
    NewsAre(opt, evs);
    EveryRunDistinct(opt, init);
    StrangersUntold(opt, s, ev.now, ev.order, id);
    hide Run, LegalRun, TickKeys, News;
    assert Run(opt, evs).out[|s.out|..] == News(opt, evs);
    SnapsOfLife(News(opt, evs), id);
  }

  /** A longer trace keeps the first packet of each flow. */
  lemma TraceKeepsFirst(s: State, t: map<nat, seq<Packet>>, ev: Event, id: nat)
    requires AllBegun(s, t) && id in t
    ensures var t' := TraceStep(s, t, ev); id in t' && t'[id] != [] && t'[id][0] == t[id][0]
  {
    hide KeyOf, Absorbed, Begun;
  }

  /** A sweep that finds a flow an interval after its mark adds one more time. */
  lemma SpreadGrows(opt: Options, ts: seq<Time>, t: map<nat, seq<Packet>>, id: nat, firstSeen: Time, now: Time)
    requires Spread(opt, ts, t, id) && id in t && t[id] != [] && firstSeen == t[id][0].ts
    requires ToReport(opt, if ts == [] then firstSeen else ts[|ts| - 1], now)
    ensures Spread(opt, ts + [now], t, id)
  {}

  lemma SpreadLater(opt: Options, ts: seq<Time>, t: map<nat, seq<Packet>>, t': map<nat, seq<Packet>>, id: nat)
    requires Spread(opt, ts, t, id)
    requires id in t && t[id] != [] ==> id in t' && t'[id] != [] && t'[id][0] == t[id][0]
    ensures Spread(opt, ts, t', id)
  {}

  lemma SweepSpreads(opt: Options, evs: seq<Event>, id: nat)
    requires LegalRun(opt, evs) && evs != [] && evs[|evs| - 1].Sweep?
    requires Spread(opt, SnapTimes(opt, evs[..|evs| - 1], id), Trace(opt, evs[..|evs| - 1]), id)
    ensures Spread(opt, SnapTimes(opt, evs, id), Trace(opt, evs[..|evs| - 1]), id)
  {
    var init, now := evs[..|evs| - 1], evs[|evs| - 1].now;
    var s, t := Run(opt, init), Trace(opt, init);
    EveryFlowBegun(opt, init);
    EveryRunScheduled(opt, init);
    hide Run, LegalRun, News, SnapTimes, Scheduled, Trace, Spread, ToReport, AllBegun;
    if k :| k in s.flows && s.flows[k].rec.id == id {
      SweptTimes(opt, evs, k);
      FirstSeenIs(s, t, k);
      if SnapTimes(opt, evs, id) != SnapTimes(opt, init, id) {
        SpreadGrows(opt, SnapTimes(opt, init, id), t, id, s.flows[k].rec.firstSeen, now);
      }
    } else {
      NoFlowNoSnaps(opt, evs, id);
      QuietTimes(opt, evs, id);
    }
  }

  /** In every run the snapshots of a flow are spread like that. */
  lemma {:induction false} SnapshotsSpread(opt: Options, evs: seq<Event>, id: nat)
    requires LegalRun(opt, evs)
    ensures Spread(opt, SnapTimes(opt, evs, id), Trace(opt, evs), id)
    ensures |SnapTimes(opt, evs, id)| == Snaps(Run(opt, evs).out, id)
  {
    TimesCount(opt, evs, id);
    if evs != [] {
      var init, ev := evs[..|evs| - 1], evs[|evs| - 1];
      var s, t := Run(opt, init), Trace(opt, init);
      SnapshotsSpread(opt, init, id);
      EveryFlowBegun(opt, init);
      NewsAre(opt, evs);
      assert Trace(opt, evs) == TraceStep(s, t, ev);
      hide Run, LegalRun, News, SnapTimes, TraceStep, Legal, Step, Trace, Spread, AllBegun;
      if ev.Sweep? {
        SweepSpreads(opt, evs, id);
      } else {
        QuietTimes(opt, evs, id);
      }
      if id in t {
        TraceKeepsFirst(s, t, ev, id);
      }
      SpreadLater(opt, SnapTimes(opt, evs, id), t, Trace(opt, evs), id);
    }
  }

  lemma FirstSeenIs(s: State, t: map<nat, seq<Packet>>, k: Key)
    requires AllBegun(s, t) && k in s.flows
    ensures var r := s.flows[k].rec; r.id in t && t[r.id] != [] && r.firstSeen == t[r.id][0].ts
  {
    assert Begun(s.flows[k].rec, t);
  }
}
