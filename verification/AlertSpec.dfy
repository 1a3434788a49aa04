/** The detection store of internal/alert as a state machine over values. Detections are shared,
    mutable objects in the source; here an object is its ID, and `objs` is what the objects hold,
    including those the store has let go of. */
module AlertSpec {
  import opened Common

  const MAX_FLOW_IDS := 20

  datatype Severity = Low | Medium | High | Critical

  datatype ModelVerdict = ModelVerdict(modelID: string, role: string, cls: string, confidence: real)

  /** The operator-facing sentence, as its ingredients. */
  datatype Reason = NoReason | AboveThreshold(cls: string, score: real, threshold: real)
                  | Disagreement(cls: string, score: real, threshold: real)

  datatype Verdict = Verdict(alert: bool, severity: Severity, reason: Reason)

  datatype Occurrence = Occurrence(
    flowID: nat, ts: Time, cls: string, score: real, disagreement: bool,
    src: string, dst: string, srcPort: nat, dstPort: nat, proto: string, models: seq<ModelVerdict>)

  datatype Det = Det(
    id: nat, ts: Time, lastTS: Time, count: nat, cls: string, severity: Severity, confidence: real,
    flowID: nat, flowIDs: seq<nat>, src: string, dst: string, srcPort: nat, dstPort: nat, proto: string,
    disagreement: bool, reason: Reason, models: seq<ModelVerdict>)

  datatype DKey = DKey(src: string, dst: string, cls: string)

  /** A suppression rule is whatever it matches. */
  datatype Policy = Policy(
    enabled: bool, minConfidence: real, perClass: map<string, real>, alertOnDisagreement: bool,
    suppress: seq<Occurrence -> bool>)
  {
    function Threshold(cls: string): real {
      if cls in perClass then perClass[cls] else minConfidence
    }

    predicate Alertable(cls: string) {
      enabled && SeverityOf(cls).Some?
    }

    function Decide(cls: string, score: real, disagreement: bool): Verdict {
      if !enabled || SeverityOf(cls).None? then NO_VERDICT
      else
        var sev, th := SeverityOf(cls).value, Threshold(cls);
        if score >= th then Verdict(true, sev, AboveThreshold(cls, score, th))
        else if disagreement && alertOnDisagreement then Verdict(true, sev, Disagreement(cls, score, th))
        else NO_VERDICT
    }

    /** The first rule from index i on that covers oc. */
    function MatchSuppress(oc: Occurrence, i: nat): (idx: Option<nat>)
      requires i <= |suppress|
      ensures idx.Some? ==> i <= idx.value < |suppress| && suppress[idx.value](oc)
      ensures forall j :: i <= j < |suppress| && suppress[j](oc) ==> idx.Some? && idx.value <= j
      decreases |suppress| - i
    {
      if i == |suppress| then None
      else if suppress[i](oc) then Some(i)
      else MatchSuppress(oc, i + 1)
    }
  }

  const NO_VERDICT := Verdict(false, Low, NoReason)

  function SeverityOf(cls: string): Option<Severity> {
    if cls == "suspicious" then Some(Low)
    else if cls == "scan" then Some(Medium)
    else if cls == "brute_force" || cls == "web_attack" then Some(High)
    else if cls == "dos_ddos" || cls == "botnet_c2" then Some(Critical)
    else None
  }

  datatype Counters = Counters(
    observed: nat, suppressed: nat, suppressedByRule: nat, created: nat, deduped: nat, evicted: nat, expired: nat)

  /** ring[i] is the ID of the object in slot i, 0 for nil. */
  datatype Store = Store(
    pol: Policy, window: int, ring: seq<nat>, head: nat, full: bool,
    byID: set<nat>, active: map<DKey, nat>, nextID: nat, objs: map<nat, Det>,
    hits: seq<nat>, stats: Counters)

  function New(pol: Policy, window: int, maxRecent: nat): Store {
    Store(pol, window, seq(maxRecent, _ => 0), 0, false, {}, map[], 0, map[],
          seq(|pol.suppress|, _ => 0), Counters(0, 0, 0, 0, 0, 0, 0))
  }

  function KeyOfDet(d: Det): DKey { DKey(d.src, d.dst, d.cls) }
  function KeyOfOcc(oc: Occurrence): DKey { DKey(oc.src, oc.dst, oc.cls) }

  predicate WithinWindow(window: int, d: Det, ts: Time) {
    ts == ZERO_TIME || ts <= d.ts + window
  }

  /** The flow list after one more flow: a known flow stays where it is, a new one goes last and
      pushes the first one out of a full list. */
  function AddFlow(ids: seq<nat>, id: nat): seq<nat> {
    if id in ids then ids
    else if |ids| >= MAX_FLOW_IDS then ids[1..MAX_FLOW_IDS] + [id]
    else ids + [id]
  }

  function FoldDet(d: Det, oc: Occurrence, v: Verdict): Det {
    d.(count := d.count + 1,
    lastTS := if oc.ts > d.lastTS then oc.ts else d.lastTS,
    disagreement := d.disagreement || oc.disagreement,
    confidence := if oc.score > d.confidence then oc.score else d.confidence,
    reason := if oc.score > d.confidence then v.reason else d.reason,
    models := if oc.score > d.confidence then oc.models else d.models,
    flowIDs := AddFlow(d.flowIDs, oc.flowID))
  }

  function NewDet(id: nat, oc: Occurrence, v: Verdict): Det {
    Det(id, oc.ts, oc.ts, 1, oc.cls, v.severity, oc.score, oc.flowID, [oc.flowID], oc.src, oc.dst,
        oc.srcPort, oc.dstPort, oc.proto, oc.disagreement, v.reason, oc.models)
  }

  /** Takes the object in slot i out of the ring and both indexes. */
  function Remove(s: Store, i: nat): Store
    requires i < |s.ring| && s.ring[i] in s.objs
  {
    var id := s.ring[i];
    var k := KeyOfDet(s.objs[id]);
    s.(ring := s.ring[i := 0], byID := s.byID - {id},
    active := if k in s.active && s.active[k] == id then s.active - {k} else s.active)
  }

  function EvictHead(s: Store): Store
    requires s.head < |s.ring| && (s.ring[s.head] != 0 ==> s.ring[s.head] in s.objs)
  {
    if s.ring[s.head] == 0 then s
    else Remove(s, s.head).(stats := s.stats.(evicted := s.stats.evicted + 1))
  }

  function NextSlot(head: nat, n: nat): nat
    requires n > 0
  {
    (head + 1) % n
  }

  function Install(s: Store, oc: Occurrence, v: Verdict): Store
    requires s.head < |s.ring|
  {
    var id := s.nextID + 1;
    var head := NextSlot(s.head, |s.ring|);
    s.(nextID := id, objs := s.objs[id := NewDet(id, oc, v)], ring := s.ring[s.head := id], head := head,
    full := s.full || head == 0, byID := s.byID + {id}, active := s.active[KeyOfOcc(oc) := id],
    stats := s.stats.(created := s.stats.created + 1))
  }

  /** Every pointer the store follows leads to an object. */
  predicate Sound(s: Store) {
    && s.head < |s.ring|
    && (forall i :: 0 <= i < |s.ring| && s.ring[i] != 0 ==> s.ring[i] in s.objs)
    && (forall k :: k in s.active ==> s.active[k] in s.objs)
    && |s.hits| == |s.pol.suppress|
  }

  /** What becomes of an occurrence. */
  datatype Fate = Ignored | Below | Ruled(rule: nat) | Absorbed(id: nat) | Opened

  function FateOf(s: Store, oc: Occurrence): Fate
    requires Sound(s)
  {
    var v := s.pol.Decide(oc.cls, oc.score, oc.disagreement);
    var rule := s.pol.MatchSuppress(oc, 0);
    var k := KeyOfOcc(oc);
    if !v.alert then if s.pol.Alertable(oc.cls) then Below else Ignored
    else if rule.Some? then Ruled(rule.value)
    else if k in s.active && WithinWindow(s.window, s.objs[s.active[k]], oc.ts) then Absorbed(s.active[k])
    else Opened
  }

  function Apply(s: Store, oc: Occurrence): Store
    requires Sound(s)
  {
    var v := s.pol.Decide(oc.cls, oc.score, oc.disagreement);
    var s0 := s.(stats := s.stats.(observed := s.stats.observed + 1));
    match FateOf(s, oc)
    case Ignored => s0
    case Below => s0.(stats := s0.stats.(suppressed := s0.stats.suppressed + 1))
    case Ruled(i) =>
      s0.(stats := s0.stats.(suppressedByRule := s0.stats.suppressedByRule + 1), hits := s0.hits[i := s0.hits[i] + 1])
    case Absorbed(id) =>
      s0.(objs := s0.objs[id := FoldDet(s0.objs[id], oc, v)], stats := s0.stats.(deduped := s0.stats.deduped + 1))
    case Opened => Install(EvictHead(s0), oc, v)
  }

  predicate Stale(s: Store, i: nat, before: Time)
    requires i < |s.ring|
  {
    s.ring[i] in s.objs && s.ring[i] != 0 && s.objs[s.ring[i]].lastTS < before
  }

  /** Slots 0..n swept. */
  function PurgeTo(s: Store, before: Time, n: nat): (s': Store)
    requires n <= |s.ring|
    ensures |s'.ring| == |s.ring| && s'.objs == s.objs
  {
    if n == 0 then s
    else
      var s1 := PurgeTo(s, before, n - 1);
      if Stale(s1, n - 1, before) then Remove(s1, n - 1).(stats := s1.stats.(expired := s1.stats.expired + 1)) else s1
  }

  function Purge(s: Store, before: Time): Store {
    PurgeTo(s, before, |s.ring|)
  }

  function SetPolicy(s: Store, pol: Policy): Store {
    s.(pol := pol, hits := seq(|pol.suppress|, _ => 0))
  }

  /** What the aggregator takes from its queue. */
  datatype Item = Occur(oc: Occurrence) | Swap(pol: Policy) | Retain(before: Time)

  function Step(s: Store, it: Item): Store
    requires Sound(s)
  {
    match it
    case Occur(oc) => Apply(s, oc)
    case Swap(pol) => SetPolicy(s, pol)
    case Retain(before) => if before == ZERO_TIME then s else Purge(s, before)
  }
}
