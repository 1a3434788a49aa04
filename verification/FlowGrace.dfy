/** Which packets a table ignores, in every run: the trailing ones of a flow that TCP has ended less than three seconds
    before. */
module FlowGrace {
  import opened Common
  import opened Flow
  import opened FlowSpec

  // ---- seen from outside ----

  ghost predicate Emitted(s: State, s': State, reason: Reason) {
    exists i :: |s.out| <= i < |s'.out| && s'.out[i].reason == reason
  }

  /** The last event is a packet that ended the flow of k: a record said so. */
  ghost predicate Ends(opt: Options, evs: seq<Event>, k: Key)
    requires LegalRun(opt, evs)
  {
    evs != [] && evs[|evs| - 1].Arrive? && KeyOf(evs[|evs| - 1].p).0 == k &&
    Emitted(Run(opt, evs[..|evs| - 1]), Run(opt, evs), FinRst)
  }

  /** The last event is a packet that started a flow of k. */
  ghost predicate Starts(opt: Options, evs: seq<Event>, k: Key)
    requires LegalRun(opt, evs)
  {
    evs != [] && evs[|evs| - 1].Arrive? && KeyOf(evs[|evs| - 1].p).0 == k &&
    Run(opt, evs).nextID > Run(opt, evs[..|evs| - 1]).nextID
  }

  /** The last event is a sweep three seconds or more after then. */
  predicate SweepsAfter(evs: seq<Event>, from: Time) {
    evs != [] && evs[|evs| - 1].Sweep? && evs[|evs| - 1].now >= from + 3_000_000_000
  }

  /** The packet before evs[m] ended the flow of k at that time; since then no other flow of k has started or ended, and
      no sweep has come three seconds later. */
  ghost predicate EndedAt(opt: Options, evs: seq<Event>, m: nat, k: Key, at: Time) {
    && 0 < m <= |evs| && evs[m - 1].Arrive? && evs[m - 1].p.ts == at
    && LegalRun(opt, evs[..m]) && Ends(opt, evs[..m], k)
    && forall j :: m < j <= |evs| ==> Since(opt, evs[..j], k, at)
  }

  ghost predicate Since(opt: Options, evs: seq<Event>, k: Key, at: Time) {
    LegalRun(opt, evs) && !Ends(opt, evs, k) && !Starts(opt, evs, k) && !SweepsAfter(evs, at)
  }

  // ---- seen from inside ----

  predicate Remembers(s: State, k: Key, at: Time) { k in s.recentDown && s.recentDown[k] == at }

  /** A packet folded into an entry: s is the table before, s1 after a new flow was opened for it, if one was. */
  lemma DeliverRemembers(s: State, s1: State, e: Entry, p: Packet, k: Key, at: Time)
    requires s.out <= s1.out && !Emitted(s, s1, FinRst)
    ensures var k0 := KeyOf(p).0; var s' := Deliver(s1, k0, e, p);
            && s'.nextID == s1.nextID
            && (Remembers(s', k, at) <==>
                if k == k0 && Emitted(s, s', FinRst) then at == p.ts else Remembers(s1, k, at))
  {
    hide KeyOf, Account, TornDown;
    var s' := Deliver(s1, KeyOf(p).0, e, p);
    if TornDown(Account(e, p), p) {
      assert s'.out[|s1.out|].reason == FinRst;
    }
  }

  lemma OpenRemembers(opt: Options, s: State, p: Packet, victim: Key, k: Key, at: Time)
    requires Legal(opt, s, Arrive(p, victim)) && Opens(s, p)
    ensures var s1 := Open(opt, s, p, victim);
            && s.out <= s1.out && !Emitted(s, s1, FinRst) && s1.nextID > s.nextID
            && (Remembers(s1, k, at) <==> Remembers(s, k, at) && k != KeyOf(p).0)
  {
    hide KeyOf, NewEntry, Absorbed;
  }

  /** What one packet does to the grace set. */
  lemma ArrivalRemembers(opt: Options, s: State, p: Packet, victim: Key, k: Key, at: Time)
    requires Legal(opt, s, Arrive(p, victim))
    ensures var s' := Observe(opt, s, p, victim);
            Remembers(s', k, at) <==>
            if k == KeyOf(p).0 && Emitted(s, s', FinRst) then at == p.ts
            else Remembers(s, k, at) && !(k == KeyOf(p).0 && s'.nextID > s.nextID)
  {
    hide KeyOf, NewEntry, Absorbed, Deliver, Open, Remembers;
    var k0 := KeyOf(p).0;
    if k0 in s.flows {
      DeliverRemembers(s, s, s.flows[k0], p, k, at);
    } else if !Absorbed(s, p) {
      OpenRemembers(opt, s, p, victim, k, at);
      DeliverRemembers(s, Open(opt, s, p, victim), NewEntry(opt, s.nextID + 1, k0, p), p, k, at);
    }
  }

  lemma {:induction false} TickKeysRemember(opt: Options, s: State, now: Time, order: seq<Key>)
    ensures TickKeys(opt, s, now, order).recentDown == s.recentDown
  {
    if order != [] {
      TickKeysRemember(opt, s, now, order[..|order| - 1]);
    }
  }

  lemma {:induction false} FlushRemembers(s: State, order: seq<Key>)
    ensures Flush(s, order).recentDown == s.recentDown
  {
    if order != [] {
      FlushRemembers(s, order[..|order| - 1]);
    }
  }

  lemma LastRemembers(opt: Options, evs: seq<Event>, k: Key, at: Time)
    requires LegalRun(opt, evs) && evs != []
    ensures Remembers(Run(opt, evs), k, at) <==>
            if Ends(opt, evs, k) then at == evs[|evs| - 1].p.ts
            else Remembers(Run(opt, evs[..|evs| - 1]), k, at) && Since(opt, evs, k, at)
  {
    var s, ev := Run(opt, evs[..|evs| - 1]), evs[|evs| - 1];
    assert Legal(opt, s, ev) && Run(opt, evs) == Step(opt, s, ev);
    hide Observe, TickKeys, Flush, KeyOf, Run, LegalRun, Legal, Emitted;
    match ev
    case Arrive(p, victim) => ArrivalRemembers(opt, s, p, victim, k, at);
    case Sweep(now, order) => TickKeysRemember(opt, s.(recentDown := Forget(s.recentDown, now)), now, order);
    case Drain(order) => FlushRemembers(s, order);
  }

  lemma EndedNow(opt: Options, evs: seq<Event>, k: Key, at: Time)
    requires LegalRun(opt, evs) && evs != []
    ensures EndedAt(opt, evs, |evs|, k, at) <==> Ends(opt, evs, k) && at == evs[|evs| - 1].p.ts
  {
    assert evs[..|evs|] == evs;
  }

  lemma EndedBefore(opt: Options, evs: seq<Event>, m: nat, k: Key, at: Time)
    requires LegalRun(opt, evs) && m < |evs|
    ensures EndedAt(opt, evs, m, k, at) <==> EndedAt(opt, evs[..|evs| - 1], m, k, at) && Since(opt, evs, k, at)
  {
    hide Since, Ends, LegalRun;
    var init := evs[..|evs| - 1];
    assert evs[..|evs|] == evs;
    assert forall j :: 0 <= j <= |init| ==> init[..j] == evs[..j];
  }

  /** The grace set, from outside. */
  lemma {:induction false} RemembersIff(opt: Options, evs: seq<Event>, k: Key, at: Time)
    requires LegalRun(opt, evs)
    ensures Remembers(Run(opt, evs), k, at) <==> exists m: nat :: EndedAt(opt, evs, m, k, at)
  {
    if evs != [] {
      var init := evs[..|evs| - 1];
      RemembersIff(opt, init, k, at);
      hide Run, LegalRun, Remembers, Ends, Since, EndedAt;
      LastRemembers(opt, evs, k, at);
      EndedNow(opt, evs, k, at);
      if Remembers(Run(opt, init), k, at) {
        var m: nat :| EndedAt(opt, init, m, k, at);
        assert m <= |init| by { EndedInside(opt, init, m, k, at); }
        EndedBefore(opt, evs, m, k, at);
      }
      forall m: nat | EndedAt(opt, evs, m, k, at)
        ensures m == |evs| || (EndedAt(opt, init, m, k, at) && Since(opt, evs, k, at))
      {
        EndedInside(opt, evs, m, k, at);
        if m < |evs| {
          EndedBefore(opt, evs, m, k, at);
        }
      }
      if Ends(opt, evs, k) && Since(opt, evs, k, at) {
        assert false by { NotBoth(opt, evs, k, at); }
      }
    }
  }

  lemma EndedInside(opt: Options, evs: seq<Event>, m: nat, k: Key, at: Time)
    requires EndedAt(opt, evs, m, k, at)
    ensures m <= |evs|
  {}

  lemma NotBoth(opt: Options, evs: seq<Event>, k: Key, at: Time)
    requires LegalRun(opt, evs)
    ensures !(Ends(opt, evs, k) && Since(opt, evs, k, at))
  {}

  // ---- what is ignored ----

  lemma AccountChanges(e: Entry, p: Packet)
    ensures Account(e, p) != e
  {
    hide FoldSize, FoldGap, FoldTCP, KeyOf, IsForward;
  }

  lemma ObserveChanges(opt: Options, s: State, p: Packet, victim: Key)
    requires Legal(opt, s, Arrive(p, victim))
    ensures Observe(opt, s, p, victim) == s <==> Absorbed(s, p)
  {
    hide KeyOf, Account, NewEnds;
    var k := KeyOf(p).0;
    if k in s.flows {
      AccountChanges(s.flows[k], p);
    }
  }

  /** Less than three seconds before ts a packet ended the last flow of k. */
  ghost predicate JustEnded(opt: Options, evs: seq<Event>, k: Key, ts: Time) {
    exists m: nat, at: Time :: EndedAt(opt, evs, m, k, at) && ts < at + 3_000_000_000
  }

  lemma JustEndedIff(opt: Options, evs: seq<Event>, k: Key, ts: Time)
    requires LegalRun(opt, evs)
    ensures JustEnded(opt, evs, k, ts) <==>
            var down := Run(opt, evs).recentDown; k in down && ts - down[k] < GRACE_WINDOW
  {
    hide Run, LegalRun, EndedAt;
    var s := Run(opt, evs);
    if k in s.recentDown && ts - s.recentDown[k] < GRACE_WINDOW {
      RemembersIff(opt, evs, k, s.recentDown[k]);
      assert Remembers(s, k, s.recentDown[k]);
      var m: nat :| EndedAt(opt, evs, m, k, s.recentDown[k]);
      assert EndedAt(opt, evs, m, k, s.recentDown[k]) && ts < s.recentDown[k] + 3_000_000_000;
    }
    if JustEnded(opt, evs, k, ts) {
      var m: nat, at: Time :| EndedAt(opt, evs, m, k, at) && ts < at + 3_000_000_000;
      RemembersIff(opt, evs, k, at);
      assert Remembers(s, k, at);
    }
  }

  /** In every run: a packet changes nothing exactly when its flow is not live, it is no TCP SYN, and it comes less than
      three seconds after a packet that ended the last flow of its key, with no sweep three seconds after that one. */
  lemma IgnoredIff(opt: Options, evs: seq<Event>, p: Packet, victim: Key)
    requires LegalRun(opt, evs) && Legal(opt, Run(opt, evs), Arrive(p, victim))
    ensures Step(opt, Run(opt, evs), Arrive(p, victim)) == Run(opt, evs) <==>
            && KeyOf(p).0 !in Run(opt, evs).flows && !(p.proto == 6 && p.flags.syn)
            && JustEnded(opt, evs, KeyOf(p).0, p.ts)
  {
    hide Run, LegalRun, KeyOf, JustEnded, Observe, Legal;
    ObserveChanges(opt, Run(opt, evs), p, victim);
    JustEndedIff(opt, evs, KeyOf(p).0, p.ts);
  }
}
