/** Batch statistics of a list of packets, the proof that the running sums of a record are exactly
    those, and the laws that records emitted by a table therefore obey. */
module FlowSummary {
  import opened Common
  import opened Flow
  import opened FlowSpec
  import opened FlowLedger
  import opened FlowBatch
  import opened FlowEmission
  import opened Moments

  datatype Trait = Small | Large | Syn | Ack | Fin | Rst | Psh | Urg | Segment

  predicate Has(p: Packet, t: Trait) {
    var tcp := p.proto == PROTO_TCP;
    match t
    case Small => p.totalLen <= 100
    case Large => p.totalLen >= 1000
    case Syn => tcp && p.flags.syn
    case Ack => tcp && p.flags.ack
    case Fin => tcp && p.flags.fin
    case Rst => tcp && p.flags.rst
    case Psh => tcp && p.flags.psh
    case Urg => tcp && p.flags.urg
    case Segment => tcp
  }

  function Count(ps: seq<Packet>, t: Trait): nat {
    if ps == [] then 0 else Count(ps[..|ps| - 1], t) + One(Has(ps[|ps| - 1], t))
  }

  function TotalOf(ps: seq<Packet>, m: Measure): nat {
    if ps == [] then 0 else TotalOf(ps[..|ps| - 1], m) + OfPacket(m, ps[|ps| - 1])
  }

  function Lengths(ps: seq<Packet>): (xs: seq<real>)
    ensures |xs| == |ps|
  {
    seq(|ps|, i requires 0 <= i < |ps| => ps[i].totalLen as real)
  }

  function Windows(ps: seq<Packet>): seq<real> {
    seq(|ps|, i requires 0 <= i < |ps| => if ps[i].proto == PROTO_TCP then ps[i].window as real else 0.0)
  }

  /** The latest timestamp, which packets out of order do not lower. */
  function Latest(ps: seq<Packet>): Time
    requires ps != []
  {
    var last := ps[|ps| - 1].ts;
    if |ps| == 1 then last
    else if last > Latest(ps[..|ps| - 1]) then last
    else Latest(ps[..|ps| - 1])
  }

  /** The inter-arrival gaps: how far each packet that moves the latest timestamp moves it. */
  function GapsOf(ps: seq<Packet>): seq<real> {
    if |ps| <= 1 then []
    else
      var init, last := ps[..|ps| - 1], ps[|ps| - 1].ts;
      if Latest(init) != ZERO_TIME && last > Latest(init)
      then GapsOf(init) + [Seconds(last - Latest(init))]
      else GapsOf(init)
  }

  /** Does the packet come from the flow's initiator? */
  predicate FromInitiator(ends: Ends, p: Packet) {
    (p.srcIP, p.srcPort) == (ends.initIP, ends.initPort)
  }

  /** The packets of one direction. */
  function Going(ends: Ends, ps: seq<Packet>, forward: bool): seq<Packet> {
    if ps == [] then []
    else
      var p := ps[|ps| - 1];
      if FromInitiator(ends, p) == forward
      then Going(ends, ps[..|ps| - 1], forward) + [p]
      else Going(ends, ps[..|ps| - 1], forward)
  }

  function LastTS(qs: seq<Packet>): Time {
    if qs == [] then ZERO_TIME else qs[|qs| - 1].ts
  }

  /** The forward steps in time between consecutive packets of one direction. */
  function StepsOf(qs: seq<Packet>): seq<real> {
    if |qs| <= 1 then []
    else
      var prev, last := qs[|qs| - 2].ts, qs[|qs| - 1].ts;
      if prev != ZERO_TIME && last > prev
      then StepsOf(qs[..|qs| - 1]) + [Seconds(last - prev)]
      else StepsOf(qs[..|qs| - 1])
  }

  function DirectionOf(qs: seq<Packet>): Direction {
    Direction(|qs|, TotalOf(qs, Bytes), TotalOf(qs, Payload), Sum(Lengths(qs)), Sum(StepsOf(qs)), |StepsOf(qs)|)
  }

  predicate SummarisesSizes(z: Sizes, ps: seq<Packet>) {
    && z.sum == Sum(Lengths(ps)) && z.sumSq == SumSq(Lengths(ps))
    && z.small == Count(ps, Small) && z.large == Count(ps, Large)
    && (forall i :: 0 <= i < |ps| ==> z.min <= ps[i].totalLen <= z.max)
    && (exists i :: 0 <= i < |ps| && ps[i].totalLen == z.min)
    && (exists i :: 0 <= i < |ps| && ps[i].totalLen == z.max)
  }

  predicate SummarisesGaps(g: Gaps, xs: seq<real>) {
    && g.sum == Sum(xs) && g.sumSq == SumSq(xs) && g.count == |xs|
    && (forall i :: 0 <= i < |xs| ==> 0.0 < xs[i] && g.min <= xs[i] <= g.max)
    && (if xs == [] then g.min == 0.0 && g.max == 0.0 else g.min in xs && g.max in xs)
  }

  function TcpOf(ps: seq<Packet>): Tcp
    requires ps != []
  {
    Tcp(Count(ps, Syn), Count(ps, Ack), Count(ps, Fin), Count(ps, Rst), Count(ps, Psh), Count(ps, Urg),
        if ps[0].proto == PROTO_TCP then ps[0].window else 0, Sum(Windows(ps)), Count(ps, Segment))
  }

  /** e is what the list ps amounts to. */
  predicate Summarises(e: Entry, ps: seq<Packet>)
    requires ps != []
  {
    var r := e.rec;
    var fwd, bwd := Going(r.ends, ps, true), Going(r.ends, ps, false);
    && r.key == KeyOf(ps[0]).0 && r.ends == NewEnds(ps[0])
    && r.firstSeen == ps[0].ts && r.lastSeen == Latest(ps)
    && SummarisesSizes(r.size, ps)
    && SummarisesGaps(r.iat, GapsOf(ps))
    && r.fwd == DirectionOf(fwd) && r.bwd == DirectionOf(bwd)
    && e.lastFwdTS == LastTS(fwd) && e.lastBwdTS == LastTS(bwd)
    && r.tcp == TcpOf(ps)
    && (e.rst <==> Count(ps, Rst) > 0)
    && (e.finFromInit <==> Count(fwd, Fin) > 0) && (e.finFromResp <==> Count(bwd, Fin) > 0)
  }

  // ---- orientation ----

  /** Every packet of a flow comes from one of its two ends, so the fallback to the key's own
      orientation is never taken and the direction is that of the source endpoint. */
  lemma FallbackUnreachable(r: Record, p0: Packet, p: Packet, fwdFromA: bool)
    requires r.ends == NewEnds(p0) && KeyOf(p).0 == KeyOf(p0).0
    ensures IsForward(r, p, fwdFromA) == FromInitiator(r.ends, p)
    ensures FromInitiator(r.ends, p) || (p.srcIP, p.srcPort) == (r.ends.respIP, r.ends.respPort)
  {
    KeyIdentifiesUnorderedPair(p.srcIP, p.srcPort, p.dstIP, p.dstPort, p.proto,
                               p0.srcIP, p0.srcPort, p0.dstIP, p0.dstPort, p0.proto);
    assert (p.srcIP, p.srcPort) in multiset{(p.srcIP, p.srcPort), (p.dstIP, p.dstPort)};
  }

  lemma NewEndsKey(p: Packet)
    ensures var n := NewEnds(p);
            KeyOfEndpoints(n.initIP, n.initPort, n.respIP, n.respPort, n.proto).0.(sensor := p.sensor) == KeyOf(p).0
  {}

  // ---- one more packet ----

  lemma SizesGrow(z: Sizes, ps: seq<Packet>, p: Packet)
    requires SummarisesSizes(z, ps)
    ensures SummarisesSizes(FoldSize(z, p), ps + [p])
  {
    hide Lengths, Count, Sum;
    var ps' := ps + [p];
    LengthsSnoc(ps, p);
    CountSnoc(ps, p, Small);
    CountSnoc(ps, p, Large);
    var i, j :| 0 <= i < |ps| && ps[i].totalLen == z.min && 0 <= j < |ps| && ps[j].totalLen == z.max;
    assert ps'[i].totalLen == z.min && ps'[j].totalLen == z.max && ps'[|ps|] == p;
  }

  lemma FirstSize(p: Packet)
    ensures SummarisesSizes(FoldSize(Sizes(p.totalLen, p.totalLen, 0.0, 0.0, 0, 0), p), [p])
  {
    var ps := [p];
    assert ps[0].totalLen == p.totalLen && ps[..0] == [];
    assert Lengths(ps) == [] + [p.totalLen as real];
    SumSnoc([], p.totalLen as real);
  }

  lemma GapsGrow(g: Gaps, xs: seq<real>, x: real)
    requires SummarisesGaps(g, xs) && x > 0.0
    ensures SummarisesGaps(AddGap(g, x), xs + [x])
  {
    SumSnoc(xs, x);
    assert (xs + [x])[|xs|] == x;
  }

  lemma GapsSnoc(ps: seq<Packet>, p: Packet)
    requires ps != []
    ensures Latest(ps + [p]) == if p.ts > Latest(ps) then p.ts else Latest(ps)
    ensures GapsOf(ps + [p]) ==
            if Latest(ps) != ZERO_TIME && p.ts > Latest(ps) then GapsOf(ps) + [Seconds(p.ts - Latest(ps))]
            else GapsOf(ps)
  {
    assert (ps + [p])[..|ps|] == ps;
  }

  lemma SecondsAdditive(a: int, b: int)
    ensures Seconds(a) + Seconds(b) == Seconds(a + b)
    ensures b > 0 ==> Seconds(b) > 0.0
  {}

  lemma FoldGapGrows(g: Gaps, ps: seq<Packet>, p: Packet)
    requires ps != [] && SummarisesGaps(g, GapsOf(ps))
    ensures SummarisesGaps(FoldGap(g, Latest(ps), p.ts), GapsOf(ps + [p]))
  {
    hide GapsOf, Latest, SummarisesGaps, Seconds;
    GapsSnoc(ps, p);
    if Latest(ps) != ZERO_TIME && p.ts > Latest(ps) {
      SecondsAdditive(0, p.ts - Latest(ps));
      GapsGrow(g, GapsOf(ps), Seconds(p.ts - Latest(ps)));
    }
  }

  lemma StepsSnoc(qs: seq<Packet>, p: Packet)
    ensures StepsOf(qs + [p]) ==
            if LastTS(qs) != ZERO_TIME && p.ts > LastTS(qs) then StepsOf(qs) + [Seconds(p.ts - LastTS(qs))]
            else StepsOf(qs)
  {
    hide Seconds;
    assert (qs + [p])[..|qs|] == qs;
  }

  lemma TotalSnoc(qs: seq<Packet>, p: Packet, m: Measure)
    ensures TotalOf(qs + [p], m) == TotalOf(qs, m) + OfPacket(m, p)
  {
    assert (qs + [p])[..|qs|] == qs;
  }

  lemma LengthsSnoc(qs: seq<Packet>, p: Packet)
    ensures Sum(Lengths(qs + [p])) == Sum(Lengths(qs)) + p.totalLen as real
    ensures SumSq(Lengths(qs + [p])) == SumSq(Lengths(qs)) + p.totalLen as real * p.totalLen as real
  {
    assert Lengths(qs + [p]) == Lengths(qs) + [p.totalLen as real];
    SumSnoc(Lengths(qs), p.totalLen as real);
  }

  lemma DirectionGrows(qs: seq<Packet>, p: Packet)
    ensures FoldDirection(DirectionOf(qs), LastTS(qs), p) == DirectionOf(qs + [p])
  {
    hide StepsOf, LastTS, TotalOf, Lengths, Sum, Seconds;
    TotalSnoc(qs, p, Bytes);
    TotalSnoc(qs, p, Payload);
    LengthsSnoc(qs, p);
    StepsSnoc(qs, p);
    if LastTS(qs) != ZERO_TIME && p.ts > LastTS(qs) {
      SumSnoc(StepsOf(qs), Seconds(p.ts - LastTS(qs)));
    }
  }

  lemma CountSnoc(ps: seq<Packet>, p: Packet, t: Trait)
    ensures Count(ps + [p], t) == Count(ps, t) + One(Has(p, t))
  {
    assert (ps + [p])[..|ps|] == ps;
  }

  lemma TcpGrows(ps: seq<Packet>, p: Packet)
    requires ps != []
    ensures FoldTCP(TcpOf(ps), p) == TcpOf(ps + [p])
  {
    hide Count;
    CountSnoc(ps, p, Syn);
    CountSnoc(ps, p, Ack);
    CountSnoc(ps, p, Fin);
    CountSnoc(ps, p, Rst);
    CountSnoc(ps, p, Psh);
    CountSnoc(ps, p, Urg);
    CountSnoc(ps, p, Segment);
    var w := if p.proto == PROTO_TCP then p.window as real else 0.0;
    assert Windows(ps + [p]) == Windows(ps) + [w];
    SumSnoc(Windows(ps), w);
  }

  lemma LastSnoc(qs: seq<Packet>, p: Packet)
    ensures LastTS(qs + [p]) == p.ts
  {}

  lemma GoingSnoc(ends: Ends, ps: seq<Packet>, p: Packet, forward: bool)
    ensures Going(ends, ps + [p], forward) ==
            if FromInitiator(ends, p) == forward then Going(ends, ps, forward) + [p] else Going(ends, ps, forward)
  {
    assert (ps + [p])[..|ps|] == ps;
  }

  lemma AccountGrows(e: Entry, ps: seq<Packet>, p: Packet)
    requires ps != [] && Summarises(e, ps) && KeyOf(p).0 == KeyOf(ps[0]).0
    ensures Summarises(Account(e, p), ps + [p])
  {
    hide SummarisesSizes, SummarisesGaps, DirectionOf, TcpOf, Count, FoldSize, FoldGap, FoldDirection, FoldTCP,
         GapsOf, KeyOf, IsForward, Going, FromInitiator, Latest, LastTS;
    GapsSnoc(ps, p);
    LastSnoc(Going(e.rec.ends, ps, true), p);
    LastSnoc(Going(e.rec.ends, ps, false), p);
    var ends := e.rec.ends;
    var fwd, bwd := Going(ends, ps, true), Going(ends, ps, false);
    FallbackUnreachable(e.rec, ps[0], p, KeyOf(p).1);
    SizesGrow(e.rec.size, ps, p);
    FoldGapGrows(e.rec.iat, ps, p);
    TcpGrows(ps, p);
    GoingSnoc(ends, ps, p, true);
    GoingSnoc(ends, ps, p, false);
    DirectionGrows(fwd, p);
    DirectionGrows(bwd, p);
    CountSnoc(ps, p, Rst);
    CountSnoc(fwd, p, Fin);
    CountSnoc(bwd, p, Fin);
    assert (ps + [p])[..|ps|] == ps && (ps + [p])[0] == ps[0];
  }

  lemma FirstPacket(opt: Options, id: nat, p: Packet)
    ensures Summarises(Account(NewEntry(opt, id, KeyOf(p).0, p), p), [p])
  {
    hide SummarisesSizes, SummarisesGaps, KeyOf, IsForward, FromInitiator, NewEnds, FoldSize, FoldGap, FoldDirection,
         FoldTCP, DirectionOf, Going, TcpOf, Count, LastTS, Latest, GapsOf, Sum;
    var r := NewEntry(opt, id, KeyOf(p).0, p).rec;
    FirstGaps(p);
    FirstSize(p);
    FirstTcp(p);
    FirstGoing(r.ends, p);
    FirstDirection(p);
    FirstCounts(p);
    FallbackUnreachable(r, p, p, KeyOf(p).1);
    if FromInitiator(r.ends, p) {
    } else {
    }
  }

  lemma FirstDirection(p: Packet)
    ensures DirectionOf([]) == NO_PACKETS && LastTS([]) == ZERO_TIME && LastTS([p]) == p.ts
    ensures FoldDirection(NO_PACKETS, ZERO_TIME, p) == DirectionOf([p])
  {
    EmptyDirection();
    DirectionGrows([], p);
    assert [] + [p] == [p];
  }

  lemma FirstCounts(p: Packet)
    ensures Count([], Fin) == 0 && (Count([p], Rst) > 0 <==> p.proto == PROTO_TCP && p.flags.rst)
    ensures Count([p], Fin) > 0 <==> p.proto == PROTO_TCP && p.flags.fin
  {
    assert [p][..0] == [];
  }

  lemma FirstGaps(p: Packet)
    ensures Latest([p]) == p.ts
    ensures SummarisesGaps(FoldGap(Gaps(0.0, 0.0, 0.0, 0.0, 0), p.ts, p.ts), GapsOf([p]))
  {}

  lemma FirstGoing(ends: Ends, p: Packet)
    ensures Going(ends, [p], FromInitiator(ends, p)) == [p] && Going(ends, [p], !FromInitiator(ends, p)) == []
  {
    assert [p][..0] == [];
  }

  lemma EmptyDirection()
    ensures DirectionOf([]) == NO_PACKETS && LastTS([]) == ZERO_TIME
  {}

  lemma FirstTcp(p: Packet)
    ensures FoldTCP(Tcp(0, 0, 0, 0, 0, 0, if p.proto == PROTO_TCP then p.window else 0, 0.0, 0), p) == TcpOf([p])
  {
    hide Count, Sum;
    CountOne(p, Syn);
    CountOne(p, Ack);
    CountOne(p, Fin);
    CountOne(p, Rst);
    CountOne(p, Psh);
    CountOne(p, Urg);
    CountOne(p, Segment);
    SumOfOne(Windows([p])[0]);
    assert Windows([p]) == [Windows([p])[0]];
  }

  lemma CountOne(p: Packet, t: Trait)
    ensures Count([p], t) == One(Has(p, t))
  {
    assert [p][..0] == [];
  }

  lemma SumOfOne(x: real)
    ensures Sum([x]) == x
  {
    assert [x][..0] == [];
  }

  lemma EmptySum()
    ensures Sum([]) == 0.0
  {}

  /** The running state of a flow is the batch summary of its packets. */
  lemma {:induction false} ReplaySummarises(opt: Options, id: nat, ps: seq<Packet>)
    requires ps != [] && OfKey(ps, KeyOf(ps[0]).0)
    ensures Summarises(Replay(opt, id, ps), ps)
  {
    hide KeyOf, Account, Summarises;
    var p := ps[|ps| - 1];
    if |ps| == 1 {
      assert ps == [p];
      FirstPacket(opt, id, p);
    } else {
      var init := ps[..|ps| - 1];
      ReplaySummarises(opt, id, init);
      AccountGrows(Replay(opt, id, init), init, p);
      assert init + [p] == ps;
    }
  }

  // ---- laws of the lists ----

  /** No packet with the zero timestamp is ever the latest while later ones follow. */
  predicate NoZeroStep(ps: seq<Packet>) {
    |ps| <= 1 ||
    (NoZeroStep(ps[..|ps| - 1]) &&
     !(Latest(ps[..|ps| - 1]) == ZERO_TIME && ps[|ps| - 1].ts > ZERO_TIME))
  }

  /** The gaps add up to the flow's duration, whatever the order of the timestamps, exactly when
      none of them starts at the zero time. */
  lemma {:induction false} GapsTelescope(ps: seq<Packet>)
    requires ps != []
    ensures Latest(ps) >= ps[0].ts
    ensures Sum(GapsOf(ps)) <= Seconds(Latest(ps) - ps[0].ts)
    ensures Sum(GapsOf(ps)) == Seconds(Latest(ps) - ps[0].ts) <==> NoZeroStep(ps)
  {
    hide Seconds, Sum;
    if |ps| > 1 {
      var init, p := ps[..|ps| - 1], ps[|ps| - 1];
      GapsTelescope(init);
      assert init + [p] == ps;
      GapsSnoc(init, p);
      if p.ts > Latest(init) {
        var step := p.ts - Latest(init);
        SecondsAdditive(Latest(init) - ps[0].ts, step);
        assert Latest(init) - ps[0].ts + step == Latest(ps) - ps[0].ts;
        SumSnoc(GapsOf(init), Seconds(step));
      }
    } else {
      EmptySum();
      SecondsAdditive(0, 0);
    }
  }

  lemma {:induction false} NonZeroTelescopes(ps: seq<Packet>)
    requires ps != [] && forall i :: 0 <= i < |ps| ==> ps[i].ts != ZERO_TIME
    ensures NoZeroStep(ps) && Latest(ps) != ZERO_TIME
  {
    if |ps| > 1 {
      NonZeroTelescopes(ps[..|ps| - 1]);
    }
  }

  lemma {:induction false} DirectionsPartition(ends: Ends, ps: seq<Packet>)
    ensures var fwd, bwd := Going(ends, ps, true), Going(ends, ps, false);
            && |fwd| + |bwd| == |ps|
            && TotalOf(fwd, Bytes) + TotalOf(bwd, Bytes) == TotalOf(ps, Bytes)
            && TotalOf(fwd, Payload) + TotalOf(bwd, Payload) == TotalOf(ps, Payload)
            && Sum(Lengths(fwd)) + Sum(Lengths(bwd)) == Sum(Lengths(ps))
  {
    if ps != [] {
      hide Going, TotalOf, Lengths, Sum;
      var init, p := ps[..|ps| - 1], ps[|ps| - 1];
      DirectionsPartition(ends, init);
      assert init + [p] == ps;
      GoingSnoc(ends, init, p, true);
      GoingSnoc(ends, init, p, false);
      var qs := Going(ends, init, FromInitiator(ends, p));
      TotalSnoc(qs, p, Bytes);
      TotalSnoc(qs, p, Payload);
      LengthsSnoc(qs, p);
      TotalSnoc(init, p, Bytes);
      TotalSnoc(init, p, Payload);
      LengthsSnoc(init, p);
    } else {
      assert Lengths([]) == [];
    }
  }

  lemma {:induction false} SmallOrLarge(ps: seq<Packet>)
    ensures Count(ps, Small) + Count(ps, Large) <= |ps|
  {
    if ps != [] {
      SmallOrLarge(ps[..|ps| - 1]);
    }
  }

  // ---- laws of records ----

  predicate LawfulSizes(z: Sizes, n: nat) {
    && z.min as real * n as real <= z.sum <= z.max as real * n as real
    && z.sum * z.sum <= z.sumSq * n as real
    && z.small + z.large <= n
  }

  predicate LawfulGaps(g: Gaps) {
    && g.min >= 0.0
    && g.min * g.count as real <= g.sum <= g.max * g.count as real
    && g.sum * g.sum <= g.sumSq * g.count as real
    && (g.count == 0 ==> g.min == g.max == g.sum == 0.0)
  }

  /** The statistics of a record are those of real packets: nothing the feature layer guards
      against (a negative variance, a mean outside its bounds, an empty flow) can happen. */
  ghost predicate Lawful(r: Record) {
    && r.Packets() >= 1 && r.firstSeen <= r.lastSeen
    && r.WithDerivedKey() == r && r.WithAccumulators(r.Accumulators()) == r
    && LawfulSizes(r.size, r.Packets()) && LawfulGaps(r.iat)
    && r.fwd.sizeSum + r.bwd.sizeSum == r.size.sum
    && r.iat.sum <= Seconds(r.lastSeen - r.firstSeen)
  }

  /** The totals of r are those of ps, and its gaps cover its whole duration unless one of them
      started at the zero time. */
  predicate Measures(r: Record, ps: seq<Packet>) {
    && r.Packets() == |ps| && r.Bytes() == TotalOf(ps, Bytes) && r.Payload() == TotalOf(ps, Payload)
    && (r.iat.sum == Seconds(r.lastSeen - r.firstSeen) <==> NoZeroStep(ps))
  }

  lemma SizesLawful(z: Sizes, ps: seq<Packet>)
    requires SummarisesSizes(z, ps)
    ensures LawfulSizes(z, |ps|) && z.sum == Sum(Lengths(ps))
  {
    hide Sum, Dot, Count;
    SmallOrLarge(ps);
    var xs := Lengths(ps);
    SumBetween(xs, z.min as real, z.max as real);
    VarianceNonNegative(xs);
    hide Lengths, SumSq;
  }

  lemma GapsLawful(g: Gaps, xs: seq<real>)
    requires SummarisesGaps(g, xs)
    ensures LawfulGaps(g)
  {
    EmptySum();
    hide Sum;
    SumBetween(xs, g.min, g.max);
    VarianceNonNegative(xs);
  }

  lemma SummaryLawful(e: Entry, ps: seq<Packet>, r: Record)
    requires ps != [] && Summarises(e, ps) && SameFlow(r, e.rec)
    ensures Lawful(r)
    ensures Measures(r, ps)
  {
    hide KeyOf, NewEnds, Going, GapsOf, Latest, Count, TcpOf, SummarisesSizes, LawfulSizes, LawfulGaps, Sum, TotalOf,
         NoZeroStep, Seconds;
    assert r.size == e.rec.size && r.iat == e.rec.iat && r.fwd == e.rec.fwd && r.bwd == e.rec.bwd;
    NewEndsKey(ps[0]);
    SensorKept(ps[0]);
    DirectionsPartition(r.ends, ps);
    SizesLawful(r.size, ps);
    GapsLawful(r.iat, GapsOf(ps));
    GapsTelescope(ps);
  }

  lemma SensorKept(p: Packet)
    ensures KeyOf(p).0.sensor == p.sensor
  {}

  /** Every record that a table emits under the hypothesis is lawful, and counts exactly the packets that its flow had
      received by the end of the step that emitted it. */
  lemma EmittedRecordsLawful(opt: Options, evs: seq<Event>, i: nat) returns (ps: seq<Packet>)
    requires LegalRun(opt, evs) && SafeRun(opt, evs) && i < |Run(opt, evs).out|
    ensures var r, m := Run(opt, evs).out[i], EmittedBy(opt, evs, i);
            && Lawful(r) && Measures(r, ps)
            && LegalRun(opt, evs[..m + 1]) && r.id in Trace(opt, evs[..m + 1]) && ps == Trace(opt, evs[..m + 1])[r.id]
            && r.id in Trace(opt, evs) && ps <= Trace(opt, evs)[r.id]
            && (r.Terminal() ==> ps == Trace(opt, evs)[r.id])
  {
    hide Lawful, Measures, KeyOf, Run, Trace, SameFlow, Summarises, Replay, EmittedBy;
    var r, m := Run(opt, evs).out[i], EmittedBy(opt, evs, i);
    RecordAtEmission(opt, evs, i);
    ps := Trace(opt, evs[..m + 1])[r.id];
    assert ps[..|ps|] == ps;
    ReplaySummarises(opt, r.id, ps);
    SummaryLawful(Replay(opt, r.id, ps), ps, r);
    if r.Terminal() {
      RecordsAreReplays(opt, evs);
      assert Explained(opt, r, Trace(opt, evs));
      var n: nat :| TracedRecord(opt, r, Trace(opt, evs), n);
      var all := Trace(opt, evs)[r.id];
      assert all[..n] == all;
      ReplaySummarises(opt, r.id, all);
      SummaryLawful(Replay(opt, r.id, all), all, r);
      SameLength(r, ps, all);
    }
  }

  lemma SameLength(r: Record, ps: seq<Packet>, all: seq<Packet>)
    requires Measures(r, ps) && Measures(r, all) && ps <= all
    ensures ps == all
  {}
}
