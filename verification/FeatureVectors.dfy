/** What the feature vector of a record says about the packets of its flow: each of the 48 values, in terms of the
    packet list alone. */
module FeatureVectors {
  import opened Features
  import opened Flow
  import opened FlowBatch
  import opened FlowEmission
  import opened FlowLedger
  import opened FlowOrigins
  import opened FlowSpec
  import opened FlowSummary
  import opened Moments

  // ---- the vector read as statements ----

  /** q is sum divided by n, and 0 if there is nothing to divide by. */
  predicate Averages(q: real, sum: real, n: nat) { if n == 0 then q == 0.0 else q * n as real == sum }

  /** q is the deviation of xs: n times the sum of squares, less the square of the sum, is the square of n times q. */
  predicate Deviates(q: real, xs: seq<real>) {
    var n := |xs| as real;
    q >= 0.0 && if |xs| < 2 then q == 0.0 else (n * q) * (n * q) == n * SumSq(xs) - Sum(xs) * Sum(xs)
  }

  /** q is the share that part has of whole; an empty whole counts as one. */
  predicate Shares(q: real, part: nat, whole: nat) { q * (if whole == 0 then 1 else whole) as real == part as real }

  /** q is total per second; the total itself if no time passed, and no time shorter than a microsecond. */
  predicate PerSecond(q: real, total: nat, dur: real) {
    if dur == 0.0 then q == total as real
    else q * (if dur < 0.000001 then 0.000001 else dur) == total as real
  }

  predicate Marks(q: real, b: bool) { q == if b then 1.0 else 0.0 }

  ghost predicate TellsVolume(v: seq<real>, ps: seq<Packet>)
    requires |v| == SIZE && ps != []
  {
    var fwd, bwd := SentBy(ps, ps[0], true), SentBy(ps, ps[0], false);
    && v[0] == Seconds(Latest(ps) - ps[0].ts) >= 0.0
    && v[1] == |fwd| as real && v[2] == |bwd| as real
    && v[3] == TotalOf(fwd, Bytes) as real && v[4] == TotalOf(bwd, Bytes) as real
    && TellsSizes(v, ps)
    && Averages(v[9], Sum(Lengths(fwd)), |fwd|) && Averages(v[10], Sum(Lengths(bwd)), |bwd|)
    && PerSecond(v[11], |ps|, v[0]) && PerSecond(v[12], TotalOf(ps, Bytes), v[0])
    && PerSecond(v[13], |fwd|, v[0]) && PerSecond(v[14], |bwd|, v[0])
  }

  ghost predicate TellsSizes(v: seq<real>, ps: seq<Packet>)
    requires |v| == SIZE
  {
    && Averages(v[5], Sum(Lengths(ps)), |ps|) && Deviates(v[8], Lengths(ps))
    && v[6] in Lengths(ps) && v[7] in Lengths(ps)
    && (forall i :: 0 <= i < |ps| ==> v[6] <= Lengths(ps)[i] <= v[7])
  }

  ghost predicate TellsTiming(v: seq<real>, ps: seq<Packet>)
    requires |v| == SIZE && ps != []
  {
    var gaps := GapsOf(ps);
    var fwd, bwd := StepsOf(SentBy(ps, ps[0], true)), StepsOf(SentBy(ps, ps[0], false));
    && Averages(v[15], Sum(gaps), |gaps|) && Deviates(v[18], gaps)
    && (if gaps == [] then v[16] == 0.0 && v[17] == 0.0 else v[16] in gaps && v[17] in gaps)
    && (forall i :: 0 <= i < |gaps| ==> v[16] <= gaps[i] <= v[17])
    && Averages(v[19], Sum(fwd), |fwd|) && Averages(v[20], Sum(bwd), |bwd|)
  }

  ghost predicate TellsHeaders(v: seq<real>, ps: seq<Packet>)
    requires |v| == SIZE && ps != []
  {
    var p := ps[0];
    && (v[21], v[22]) == (if IsSynAck(p) then (p.dstPort as real, p.srcPort as real)
                          else (p.srcPort as real, p.dstPort as real))
    && Marks(v[23], p.proto == 6) && Marks(v[24], p.proto == 17) && Marks(v[25], p.proto == 1 || p.proto == 58)
    && v[26] == Count(ps, Syn) as real && v[27] == Count(ps, Ack) as real && v[28] == Count(ps, Fin) as real
    && v[29] == Count(ps, Rst) as real && v[30] == Count(ps, Psh) as real && v[31] == Count(ps, Urg) as real
  }

  ghost predicate TellsRatios(v: seq<real>, ps: seq<Packet>)
    requires |v| == SIZE && ps != []
  {
    var fwd, bwd := SentBy(ps, ps[0], true), SentBy(ps, ps[0], false);
    && Shares(v[32], Count(ps, Syn), Count(ps, Ack))
    && Shares(v[33], |fwd|, |ps|) && Shares(v[34], TotalOf(fwd, Bytes), TotalOf(ps, Bytes))
    && v[35] == (if ps[0].proto == 6 then ps[0].window as real else 0.0)
    && Averages(v[36], Sum(Windows(ps)), Count(ps, Segment))
    && Shares(v[37], TotalOf(bwd, Bytes), TotalOf(fwd, Bytes))
    && Shares(v[38], Count(ps, Small), |ps|) && Shares(v[39], Count(ps, Large), |ps|)
    && Shares(v[40], TotalOf(ps, Payload), |ps|) && Marks(v[41], fwd != [] && bwd != [])
  }

  ghost predicate TellsPlaces(v: seq<real>, ps: seq<Packet>, index: nat, internal: Addr -> bool)
    requires |v| == SIZE && ps != []
  {
    var p := ps[0];
    var init, resp := if IsSynAck(p) then p.dstIP else p.srcIP, if IsSynAck(p) then p.srcIP else p.dstIP;
    var port := if IsSynAck(p) then p.srcPort else p.dstPort;
    && Marks(v[42], internal(init) && internal(resp)) && Marks(v[43], internal(init) && !internal(resp))
    && Marks(v[44], !internal(init) && internal(resp)) && Marks(v[45], !internal(init) && !internal(resp))
    && Marks(v[46], 0 < port < 1024) && v[47] == index as real
  }

  /** All of it. */
  ghost predicate Tells(v: seq<real>, ps: seq<Packet>, index: nat, internal: Addr -> bool)
    requires |v| == SIZE && ps != []
  {
    && TellsVolume(v, ps) && TellsTiming(v, ps) && TellsHeaders(v, ps) && TellsRatios(v, ps)
    && TellsPlaces(v, ps, index, internal)
  }

  /** The vector of r tells about ps. */
  ghost predicate VectorTells(r: Record, ps: seq<Packet>, sqrt: real -> real, internal: Addr -> bool) {
    ps != [] && Tells(Values(r, sqrt, internal), ps, r.snapshotIndex, internal)
  }

  // ---- the record behind it ----

  /** r is what the list ps amounts to. */
  ghost predicate Summed(r: Record, ps: seq<Packet>)
    requires ps != []
  {
    && r.firstSeen == ps[0].ts && r.lastSeen == Latest(ps) && StartedBy(r.ends, ps[0])
    && SummarisesSizes(r.size, ps) && SummarisesGaps(r.iat, GapsOf(ps)) && r.tcp == TcpOf(ps)
    && r.fwd == DirectionOf(SentBy(ps, ps[0], true)) && r.bwd == DirectionOf(SentBy(ps, ps[0], false))
    && r.Packets() == |ps| && r.Bytes() == TotalOf(ps, Bytes) && r.Payload() == TotalOf(ps, Payload)
    && Latest(ps) >= ps[0].ts
  }

  lemma RecordSummed(e: Entry, ps: seq<Packet>, r: Record)
    requires ps != [] && Summarises(e, ps) && SameFlow(r, e.rec)
    ensures Summed(r, ps)
  {
    hide SummarisesSizes, SummarisesGaps, TcpOf, Count, Going, SentBy, KeyOf, NewEnds, GapsOf, Latest, Sum, Lengths,
         TotalOf, StepsOf, StartedBy, NoZeroStep, Seconds;
    StartedByFirst(ps[0]);
    DirectionsPartition(r.ends, ps);
    GoingIsSent(r.ends, ps, ps[0], true);
    GoingIsSent(r.ends, ps, ps[0], false);
    GapsTelescope(ps);
  }

  lemma StartedByFirst(p: Packet)
    ensures StartedBy(NewEnds(p), p)
  {}

  // ---- quotients ----

  lemma MeanAverages(sum: real, n: nat)
    ensures Averages(Mean(sum, n), sum, n)
  {}

  lemma RatioShares(part: nat, whole: nat)
    ensures Shares(Ratio(part as real, Max(whole as real, 1.0)), part, whole)
  {}

  lemma RatePerSecond(total: nat, dur: real)
    requires dur >= 0.0
    ensures PerSecond(Rate(total as real, dur), total, dur)
  {}

  lemma StdDevDeviates(sqrt: real -> real, xs: seq<real>)
    requires IsSqrt(sqrt)
    ensures Deviates(StdDev(sqrt, Sum(xs), SumSq(xs), |xs|), xs)
  {
    hide Sum, SumSq, Variance;
    VarianceNonNegative(xs);
    StdDevExact(sqrt, Sum(xs), SumSq(xs), |xs|);
    if |xs| >= 2 {
      SquareOfDeviation(StdDev(sqrt, Sum(xs), SumSq(xs), |xs|), Sum(xs), SumSq(xs), |xs|);
    }
  }

  lemma SquareOfDeviation(d: real, sum: real, sumSq: real, n: nat)
    requires n > 0 && d * d == Variance(sum, sumSq, n)
    ensures (n as real * d) * (n as real * d) == n as real * sumSq - sum * sum
  {
    var x := n as real;
    var a, b := sum / x, sumSq / x;
    assert a * x == sum && b * x == sumSq;
    assert (x * d) * (x * d) == x * x * (d * d);
    assert x * x * (b - a * a) == x * (b * x) - (a * x) * (a * x);
  }

  // ---- group by group ----

  lemma VolumeTells(r: Record, ps: seq<Packet>, sqrt: real -> real, internal: Addr -> bool)
    requires ps != [] && Summed(r, ps) && IsSqrt(sqrt)
    ensures TellsVolume(Values(r, sqrt, internal), ps)
  {
    hide Values, SummarisesSizes, SummarisesGaps, TcpOf, SentBy, GapsOf, Latest, Sum, Lengths, TotalOf, StepsOf, Mean,
         StdDev, Rate, Averages, Deviates, PerSecond, StartedBy, IsSqrt, TellsSizes;
    var v, dur := Values(r, sqrt, internal), Duration(r);
    var fwd, bwd := SentBy(ps, ps[0], true), SentBy(ps, ps[0], false);
    VolumeAt(r, sqrt, internal);
    MeansAt(r, sqrt, internal);
    SizesTell(r, ps, sqrt, internal);
    MeanAverages(Sum(Lengths(fwd)), |fwd|);
    MeanAverages(Sum(Lengths(bwd)), |bwd|);
    RatePerSecond(|ps|, dur);
    RatePerSecond(TotalOf(ps, Bytes), dur);
    RatePerSecond(|fwd|, dur);
    RatePerSecond(|bwd|, dur);
  }

  lemma MeansAt(r: Record, sqrt: real -> real, internal: Addr -> bool)
    ensures var v := Values(r, sqrt, internal);
            && v[9] == Mean(r.fwd.sizeSum, r.fwd.packets) && v[10] == Mean(r.bwd.sizeSum, r.bwd.packets)
            && v[19] == Mean(r.fwd.iatSum, r.fwd.iatCount) && v[20] == Mean(r.bwd.iatSum, r.bwd.iatCount)
  {
    hide Values, Duration, Mean, StdDev, Rate;
    Layout(r, sqrt, internal);
    var v := Values(r, sqrt, internal);
    assert v[9] == v[..15][9] && v[10] == v[..15][10] && v[19] == v[15..21][4] && v[20] == v[15..21][5];
  }

  lemma SizesTell(r: Record, ps: seq<Packet>, sqrt: real -> real, internal: Addr -> bool)
    requires ps != [] && Summed(r, ps) && IsSqrt(sqrt)
    ensures TellsSizes(Values(r, sqrt, internal), ps)
  {
    hide Values, SummarisesGaps, TcpOf, SentBy, GapsOf, Latest, Sum, SumSq, TotalOf, StepsOf, Mean, DirectionOf,
         StdDev, Rate, Averages, Deviates, StartedBy, IsSqrt, Count, Duration;
    VolumeAt(r, sqrt, internal);
    MeanAverages(Sum(Lengths(ps)), |ps|);
    StdDevDeviates(sqrt, Lengths(ps));
    var i :| 0 <= i < |ps| && ps[i].totalLen == r.size.min;
    var j :| 0 <= j < |ps| && ps[j].totalLen == r.size.max;
    assert Lengths(ps)[i] == r.size.min as real && Lengths(ps)[j] == r.size.max as real;
  }

  lemma TimingTells(r: Record, ps: seq<Packet>, sqrt: real -> real, internal: Addr -> bool)
    requires ps != [] && Summed(r, ps) && IsSqrt(sqrt)
    ensures TellsTiming(Values(r, sqrt, internal), ps)
  {
    hide Values, SummarisesSizes, TcpOf, SentBy, GapsOf, Latest, Sum, SumSq, Lengths, TotalOf, StepsOf, Mean,
         StdDev, Rate, Averages, Deviates, StartedBy, IsSqrt, Duration;
    var fwd, bwd := StepsOf(SentBy(ps, ps[0], true)), StepsOf(SentBy(ps, ps[0], false));
    TimingAt(r, sqrt, internal);
    MeansAt(r, sqrt, internal);
    MeanAverages(Sum(GapsOf(ps)), |GapsOf(ps)|);
    MeanAverages(Sum(fwd), |fwd|);
    MeanAverages(Sum(bwd), |bwd|);
    StdDevDeviates(sqrt, GapsOf(ps));
  }

  lemma HeadersTell(r: Record, ps: seq<Packet>, sqrt: real -> real, internal: Addr -> bool)
    requires ps != [] && Summed(r, ps)
    ensures TellsHeaders(Values(r, sqrt, internal), ps)
  {
    hide Values, SummarisesSizes, SummarisesGaps, SentBy, GapsOf, Latest, Sum, DirectionOf, TotalOf, Count, Windows,
         Volume, Timing, Ratios, Places;
    Layout(r, sqrt, internal);
    var v := Values(r, sqrt, internal);
    var g := v[21..32];
    assert v[21] == g[0] && v[22] == g[1] && v[23] == g[2] && v[24] == g[3] &&
           v[25] == g[4] && v[26] == g[5] && v[27] == g[6] && v[28] == g[7] &&
           v[29] == g[8] && v[30] == g[9] && v[31] == g[10];
  }

  lemma RatiosTell(r: Record, ps: seq<Packet>, sqrt: real -> real, internal: Addr -> bool)
    requires ps != [] && Summed(r, ps)
    ensures TellsRatios(Values(r, sqrt, internal), ps)
  {
    hide Values, SummarisesGaps, SentBy, GapsOf, Latest, Sum, Lengths, TotalOf, StepsOf, Count, Windows, StartedBy,
         Ratio, Max, Mean, Averages, Shares, Volume, Timing, Headers, Places;
    var fwd, bwd := SentBy(ps, ps[0], true), SentBy(ps, ps[0], false);
    Layout(r, sqrt, internal);
    var v := Values(r, sqrt, internal);
    var g := v[32..42];
    assert v[32] == g[0] && v[33] == g[1] && v[34] == g[2] && v[35] == g[3] &&
           v[36] == g[4] && v[37] == g[5] && v[38] == g[6] && v[39] == g[7] &&
           v[40] == g[8] && v[41] == g[9];
    RatioShares(Count(ps, Syn), Count(ps, Ack));
    RatioShares(|fwd|, |ps|);
    RatioShares(TotalOf(fwd, Bytes), TotalOf(ps, Bytes));
    MeanAverages(Sum(Windows(ps)), Count(ps, Segment));
    RatioShares(TotalOf(bwd, Bytes), TotalOf(fwd, Bytes));
    RatioShares(Count(ps, Small), |ps|);
    RatioShares(Count(ps, Large), |ps|);
    PayloadShares(TotalOf(ps, Payload), |ps|);
  }

  lemma PayloadShares(part: nat, whole: nat)
    requires whole > 0
    ensures Shares(part as real / whole as real, part, whole)
  {}

  lemma PlacesTell(r: Record, ps: seq<Packet>, sqrt: real -> real, internal: Addr -> bool)
    requires ps != [] && Summed(r, ps)
    ensures TellsPlaces(Values(r, sqrt, internal), ps, r.snapshotIndex, internal)
  {
    hide Values, SummarisesSizes, SummarisesGaps, SentBy, GapsOf, Latest, DirectionOf, TotalOf, TcpOf,
         Volume, Timing, Headers, Ratios;
    Layout(r, sqrt, internal);
    var v := Values(r, sqrt, internal);
    var g := v[42..];
    assert v[42] == g[0] && v[43] == g[1] && v[44] == g[2] && v[45] == g[3] &&
           v[46] == g[4] && v[47] == g[5];
  }

  // ---- every vector ----

  lemma SummedTells(r: Record, ps: seq<Packet>, sqrt: real -> real, internal: Addr -> bool)
    requires ps != [] && Summed(r, ps) && IsSqrt(sqrt)
    ensures VectorTells(r, ps, sqrt, internal)
  {
    hide Values, Summed, TellsVolume, TellsTiming, TellsHeaders, TellsRatios, TellsPlaces, IsSqrt;
    VolumeTells(r, ps, sqrt, internal);
    TimingTells(r, ps, sqrt, internal);
    HeadersTell(r, ps, sqrt, internal);
    RatiosTell(r, ps, sqrt, internal);
    PlacesTell(r, ps, sqrt, internal);
  }

  /** The vector of every record that a table emits, in every run in which no packet evicts its own flow: each of its 48
      values, in terms of the packets that the flow had received by the end of the step that emitted it. */
  lemma EmittedVectors(opt: Options, evs: seq<Event>, i: nat, sqrt: real -> real, internal: Addr -> bool)
    returns (ps: seq<Packet>)
    requires LegalRun(opt, evs) && SafeRun(opt, evs) && i < |Run(opt, evs).out| && IsSqrt(sqrt)
    ensures var r, m := Run(opt, evs).out[i], EmittedBy(opt, evs, i);
            && LegalRun(opt, evs[..m + 1]) && r.id in Trace(opt, evs[..m + 1]) && ps == Trace(opt, evs[..m + 1])[r.id]
            && VectorTells(r, ps, sqrt, internal)
  {
    hide Run, Trace, SameFlow, Summarises, Replay, EmittedBy, VectorTells, IsSqrt, Summed, KeyOf;
    var r, m := Run(opt, evs).out[i], EmittedBy(opt, evs, i);
    RecordAtEmission(opt, evs, i);
    ps := Trace(opt, evs[..m + 1])[r.id];
    assert ps[..|ps|] == ps;
    ReplaySummarises(opt, r.id, ps);
    RecordSummed(Replay(opt, r.id, ps), ps, r);
    SummedTells(r, ps, sqrt, internal);
  }
}
