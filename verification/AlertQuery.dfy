/** Reading the detection store: what a page of detections is, whatever the ring looks like. */
module AlertQuery {
  import opened Division
  import opened Common
  import opened AlertSpec
  import opened AlertInvariant

  /** An empty filter field matches everything; a limit of zero or less means no limit. */
  datatype Query = Query(limit: int, cls: string, severity: Option<Severity>, minConfidence: Option<real>, since: Time)

  predicate Matches(q: Query, d: Det) {
    && (q.cls == "" || d.cls == q.cls)
    && (q.severity.Some? ==> d.severity == q.severity.value)
    && (q.minConfidence.Some? ==> d.confidence >= q.minConfidence.value)
    && (q.since == ZERO_TIME || d.lastTS >= q.since)
  }

  /** Most recently active first, ties broken by descending ID. */
  predicate Sooner(a: Det, b: Det) {
    a.lastTS > b.lastTS || (a.lastTS == b.lastTS && a.id > b.id)
  }

  predicate Ordered(ds: seq<Det>) {
    forall i, j :: 0 <= i < j < |ds| ==> Sooner(ds[i], ds[j])
  }

  ghost predicate Matching(s: Store, q: Query, d: Det) {
    exists id :: id in s.byID && id in s.objs && s.objs[id] == d && Matches(q, d)
  }

  /** The whole answer to q: the matching retained detections and nothing else, in order. */
  ghost predicate IsAnswer(all: seq<Det>, s: Store, q: Query) {
    Ordered(all) && forall d :: d in all <==> Matching(s, q, d)
  }

  ghost predicate IsPage(out: seq<Det>, total: nat, s: Store, q: Query) {
    exists all :: IsAnswer(all, s, q) && total == |all| &&
                  out == if q.limit > 0 && |all| > q.limit then all[..q.limit] else all
  }

  lemma PageOf(out: seq<Det>, total: nat, s: Store, q: Query)
    requires exists all :: IsAnswer(all, s, q) && total == |all| &&
                           out == if q.limit > 0 && |all| > q.limit then all[..q.limit] else all
    ensures IsPage(out, total, s, q)
  {}

  /** There is only one ordered answer, so ring layout, holes and wrap-around do not show. */
  lemma {:induction false} AnswerUnique(a: seq<Det>, b: seq<Det>)
    requires Ordered(a) && Ordered(b) && forall d :: d in a <==> d in b
    ensures a == b
    decreases |a|
  {
    if a == [] {
      assert forall i :: 0 <= i < |b| ==> b[i] in b;
    } else {
      assert a[0] in a && a[0] in b;
      assert b[0] in b && b[0] in a;
      var i :| 0 <= i < |a| && a[i] == b[0];
      var j :| 0 <= j < |b| && b[j] == a[0];
      assert a[0] == b[0];
      TailSame(a, b);
      AnswerUnique(a[1..], b[1..]);
      assert a == [a[0]] + a[1..] && b == [b[0]] + b[1..];
    }
  }

  lemma TailSame(a: seq<Det>, b: seq<Det>)
    requires Ordered(a) && Ordered(b) && a != [] && b != [] && a[0] == b[0] && forall d :: d in a <==> d in b
    ensures Ordered(a[1..]) && Ordered(b[1..]) && forall d :: d in a[1..] <==> d in b[1..]
  {
    hide Sooner;
    forall d ensures d in a[1..] <==> d in a && d != a[0] { TailIsRest(a, d); }
    forall d ensures d in b[1..] <==> d in b && d != b[0] { TailIsRest(b, d); }
  }

  lemma TailIsRest(a: seq<Det>, d: Det)
    requires Ordered(a) && a != []
    ensures d in a[1..] <==> d in a && d != a[0]
  {
    assert a == [a[0]] + a[1..];
    if d in a[1..] {
      var i :| 0 <= i < |a[1..]| && a[1..][i] == d;
      assert Sooner(a[0], a[i + 1]);
    }
  }

  // ---- what the fields of a query ask for ----

  const EVERYTHING := Query(0, "", None, None, ZERO_TIME)

  ghost predicate Retained(s: Store, d: Det) { exists id :: id in s.byID && id in s.objs && s.objs[id] == d }

  /** Each field that is set narrows the answer: to a class, to a severity, to a confidence or more, to what was active
      at some time or later. With none set, everything retained is an answer. */
  lemma Narrowed(s: Store, q: Query, d: Det)
    ensures Matching(s, EVERYTHING, d) <==> Retained(s, d)
    ensures q.cls != "" ==> (Matching(s, q, d) <==> Matching(s, q.(cls := ""), d) && d.cls == q.cls)
    ensures q.severity.Some? ==>
              (Matching(s, q, d) <==> Matching(s, q.(severity := None), d) && d.severity == q.severity.value)
    ensures q.minConfidence.Some? ==>
              (Matching(s, q, d) <==>
               Matching(s, q.(minConfidence := None), d) && !(d.confidence < q.minConfidence.value))
    ensures q.since != ZERO_TIME ==>
              (Matching(s, q, d) <==> Matching(s, q.(since := ZERO_TIME), d) && !(d.lastTS < q.since))
  {
    if id :| id in s.byID && id in s.objs && s.objs[id] == d {
      assert Matches(q, d) ==> Matching(s, q, d);
    }
  }

  /** How many of them were active at t or later. */
  function Reaching(ds: seq<Det>, t: Time): (k: nat)
    ensures k <= |ds|
  {
    if ds == [] || ds[0].lastTS < t then 0 else 1 + Reaching(ds[1..], t)
  }

  lemma {:induction false} ReachingSplits(ds: seq<Det>, t: Time)
    requires Ordered(ds)
    ensures var k := Reaching(ds, t);
            && (forall i :: 0 <= i < k ==> ds[i].lastTS >= t) && (forall i :: k <= i < |ds| ==> ds[i].lastTS < t)
  {
    if ds != [] && ds[0].lastTS >= t {
      ReachingSplits(ds[1..], t);
      assert forall i :: 1 <= i < |ds| ==> ds[i] == ds[1..][i - 1];
    } else if ds != [] {
      assert forall i :: 1 <= i < |ds| ==> Sooner(ds[0], ds[i]);
    }
  }

  /** Since the newest come first, asking for what was active since t cuts the answer off after the last of those. */
  lemma SinceCuts(all: seq<Det>, s: Store, q: Query, t: Time)
    requires IsAnswer(all, s, q.(since := ZERO_TIME)) && t != ZERO_TIME
    ensures IsAnswer(all[..Reaching(all, t)], s, q.(since := t))
  {
    hide Matching, Sooner;
    var k := Reaching(all, t);
    ReachingSplits(all, t);
    forall d ensures d in all[..k] <==> Matching(s, q.(since := t), d) {
      Narrowed(s, q.(since := t), d);
      assert q.(since := t).(since := ZERO_TIME) == q.(since := ZERO_TIME);
      if d in all && d.lastTS >= t {
        var i :| 0 <= i < |all| && all[i] == d;
        assert all[..k][i] == d;
      }
    }
  }

  // ---- walking the ring backwards from the head ----

  /** The slot visited in step i. */
  function Visit(head: nat, n: nat, i: nat): int {
    if i < head then head - 1 - i else head - 1 - i + n
  }

  lemma IndexOfVisit(head: nat, n: nat, i: nat)
    requires head < n && i < n
    ensures (head - 1 - i + n) % n == Visit(head, n, i) && 0 <= Visit(head, n, i) < n
  {
    if i < head {
      DivUnique(head - 1 - i + n, n, 1, head - 1 - i);
    } else {
      DivUnique(head - 1 - i + n, n, 0, head - 1 - i + n);
    }
  }

  /** How many steps until slot j is visited. */
  function Turn(head: nat, n: nat, j: nat): int {
    if j < head then head - 1 - j else head - 1 - j + n
  }

  predicate Hit(s: Store, q: Query, j: int) {
    0 <= j < |s.ring| && s.ring[j] != 0 && s.ring[j] in s.objs && Matches(q, s.objs[s.ring[j]])
  }

  /** Slot j is visited in the first i steps and holds d, which matches. */
  predicate Held(d: Det, s: Store, q: Query, i: nat, j: int) {
    Hit(s, q, j) && Turn(s.head, |s.ring|, j) < i && d == s.objs[s.ring[j]]
  }

  ghost predicate Seen(d: Det, s: Store, q: Query, i: nat) {
    exists j :: Held(d, s, q, i, j)
  }

  /** out holds the matching detections of the slots visited in the first i steps, each once. */
  ghost predicate Collected(out: seq<Det>, s: Store, q: Query, i: nat) {
    && (forall a, b :: 0 <= a < b < |out| ==> out[a].id != out[b].id)
    && (forall d :: d in out <==> Seen(d, s, q, i))
  }

  /** What the walk needs to know of a store. */
  ghost predicate Queryable(s: Store) {
    && s.head < |s.ring| && Ring(s) && Indexed(s) && Objects(s)
  }

  lemma CoreQueryable(s: Store)
    requires Core(s)
    ensures Queryable(s) && forall q :: Collected([], s, q, 0)
  {
    forall q ensures Collected([], s, q, 0) {
      forall d ensures !Seen(d, s, q, 0) {
        forall j ensures !Held(d, s, q, 0, j) {}
      }
    }
  }

  lemma SeenStep(d: Det, s: Store, q: Query, i: nat)
    requires s.head < |s.ring| && i < |s.ring|
    ensures var j := Visit(s.head, |s.ring|, i);
            Seen(d, s, q, i + 1) <==> Seen(d, s, q, i) || (Hit(s, q, j) && d == s.objs[s.ring[j]])
  {
    hide Matches;
    var j := Visit(s.head, |s.ring|, i);
    if Seen(d, s, q, i + 1) {
      var j' :| Held(d, s, q, i + 1, j');
      if j' != j {
        assert Held(d, s, q, i, j');
      }
    }
    if Seen(d, s, q, i) {
      var j' :| Held(d, s, q, i, j');
      assert Held(d, s, q, i + 1, j');
    }
    if Hit(s, q, j) && d == s.objs[s.ring[j]] {
      assert Held(d, s, q, i + 1, j);
    }
  }

  lemma CollectOne(out: seq<Det>, s: Store, q: Query, i: nat)
    requires Queryable(s) && Collected(out, s, q, i) && i < |s.ring| && Hit(s, q, Visit(s.head, |s.ring|, i))
    ensures Collected(out + [s.objs[s.ring[Visit(s.head, |s.ring|, i)]]], s, q, i + 1)
  {
    hide Matches, Seen;
    var j := Visit(s.head, |s.ring|, i);
    var d := s.objs[s.ring[j]];
    forall x ensures x in out + [d] <==> Seen(x, s, q, i + 1) {
      SeenStep(x, s, q, i);
    }
    forall a | 0 <= a < |out| ensures out[a].id != d.id {
      assert out[a] in out;
      OtherSlot(out[a], s, q, i);
    }
  }

  lemma OtherSlot(d: Det, s: Store, q: Query, i: nat)
    requires Queryable(s) && Seen(d, s, q, i) && i < |s.ring| && Hit(s, q, Visit(s.head, |s.ring|, i))
    ensures d.id != s.objs[s.ring[Visit(s.head, |s.ring|, i)]].id
  {
    hide Matches;
    var j := Visit(s.head, |s.ring|, i);
    var j' :| Held(d, s, q, i, j');
    if d.id == s.objs[s.ring[j]].id {
      SlotsDistinct(s, j, j');
    }
  }

  lemma SkipOne(out: seq<Det>, s: Store, q: Query, i: nat)
    requires Queryable(s) && Collected(out, s, q, i) && i < |s.ring| && !Hit(s, q, Visit(s.head, |s.ring|, i))
    ensures Collected(out, s, q, i + 1)
  {
    hide Seen, Hit;
    forall x ensures x in out <==> Seen(x, s, q, i + 1) {
      SeenStep(x, s, q, i);
    }
  }

  /** The walk reaches every slot that can hold a detection, also before the ring has filled up. */
  lemma AllCollected(out: seq<Det>, s: Store, q: Query, n: nat)
    requires Queryable(s) && Collected(out, s, q, n) && n == if s.full then |s.ring| else s.head
    ensures forall d :: d in out <==> Matching(s, q, d)
  {
    hide Matches;
    forall d | d in out ensures Matching(s, q, d) {
      assert Seen(d, s, q, n);
      var j :| Held(d, s, q, n, j);
    }
    forall d | Matching(s, q, d) ensures d in out {
      var id :| id in s.byID && id in s.objs && s.objs[id] == d && Matches(q, d);
      var j :| 0 <= j < |s.ring| && s.ring[j] == id;
      if !s.full {
        DivUnique(s.nextID, |s.ring|, 0, s.nextID);
        DivUnique(id - 1, |s.ring|, 0, id - 1);
      }
      assert Held(d, s, q, n, j);
    }
  }

  // ---- sort.SliceStable ----

  /** Insertion sort stands in for the library sort: any sort gives the same result, since the
      order is strict on distinct IDs. */
  method SortRecent(ds: seq<Det>) returns (out: seq<Det>)
    requires forall a, b :: 0 <= a < b < |ds| ==> ds[a].id != ds[b].id
    ensures Ordered(out) && (forall d :: d in out <==> d in ds)
  {
    out := [];
    for i := 0 to |ds|
      invariant Ordered(out) && forall d :: d in out <==> d in ds[..i]
    {
      forall d | d in out ensures d.id != ds[i].id {
        var a :| 0 <= a < i && ds[..i][a] == d;
      }
      out := Insert(out, ds[i]);
      assert ds[..i + 1] == ds[..i] + [ds[i]];
    }
    assert ds[..|ds|] == ds;
  }

  method Insert(ds: seq<Det>, d: Det) returns (out: seq<Det>)
    requires Ordered(ds) && forall x :: x in ds ==> x.id != d.id
    ensures Ordered(out) && forall x :: x in out <==> x in ds || x == d
  {
    var i := 0;
    while i < |ds| && Sooner(ds[i], d)
      invariant i <= |ds| && forall j :: 0 <= j < i ==> Sooner(ds[j], d)
    {
      i := i + 1;
    }
    out := ds[..i] + [d] + ds[i..];
    assert ds == ds[..i] + ds[i..];
    InsertOrdered(ds, d, i);
  }

  lemma InsertOrdered(ds: seq<Det>, d: Det, i: nat)
    requires Ordered(ds) && i <= |ds| && (forall x :: x in ds ==> x.id != d.id)
    requires (forall j :: 0 <= j < i ==> Sooner(ds[j], d)) && (i < |ds| ==> !Sooner(ds[i], d))
    ensures Ordered(ds[..i] + [d] + ds[i..])
  {
    var out := ds[..i] + [d] + ds[i..];
    forall a, b | 0 <= a < b < |out| ensures Sooner(out[a], out[b]) {
      if a == i {
        assert out[b] == ds[b - 1];
        assert ds[i] in ds && Sooner(d, ds[i]);
      }
    }
  }
}
