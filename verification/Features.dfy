/** The flow-features-v1 vector of internal/features/features.go over exact arithmetic. */
module Features {
  import opened Division
  import opened Flow
  import opened FlowSummary
  import opened Moments

  const SIZE := 48
  const SEC_FLOOR := 0.000001
  const MAX_INT64 := 0x7FFF_FFFF_FFFF_FFFF
  const TWO63 := 0x8000_0000_0000_0000
  const TWO53 := 0x20_0000_0000_0000

  datatype Counts = Counts(durationSec: real, fwdPackets: nat, bwdPackets: nat, fwdBytes: nat, bwdBytes: nat)

  function Max(a: real, b: real): real { if a >= b then a else b }

  function Bool(b: bool): real { if b then 1.0 else 0.0 }

  function Ratio(a: real, b: real): real { if b == 0.0 then 0.0 else a / b }

  /** A mean over n values, 0 for none. */
  function Mean(sum: real, n: nat): real { if n == 0 then 0.0 else sum / n as real }

  function Variance(sum: real, sumSq: real, n: nat): real
    requires n > 0
  {
    var mean := sum / n as real;
    sumSq / n as real - mean * mean
  }

  function StdDev(sqrt: real -> real, sum: real, sumSq: real, n: nat): real {
    if n < 2 then 0.0
    else
      var v := Variance(sum, sumSq, n);
      sqrt(if v < 0.0 then 0.0 else v)
  }

  function Duration(r: Record): real {
    var d := Seconds(r.lastSeen - r.firstSeen);
    if d < 0.0 then 0.0 else d
  }

  function Rate(x: real, dur: real): real {
    if dur == 0.0 then x else x / if dur < SEC_FLOOR then SEC_FLOOR else dur
  }

  /** The one of the four internal/external contexts that holds, as 0/1 values. */
  function Context4(init: bool, resp: bool): (real, real, real, real) {
    if init && resp then (1.0, 0.0, 0.0, 0.0)
    else if init && !resp then (0.0, 1.0, 0.0, 0.0)
    else if !init && resp then (0.0, 0.0, 1.0, 0.0)
    else (0.0, 0.0, 0.0, 1.0)
  }

  // The 48 values in schema order, in five groups.

  /** 0..14: duration, counts, sizes and rates. */
  function Volume(r: Record, sqrt: real -> real): (v: seq<real>)
    ensures |v| == 15
  {
    var dur := Duration(r);
    [dur, r.fwd.packets as real, r.bwd.packets as real, r.fwd.bytes as real, r.bwd.bytes as real,
     Mean(r.size.sum, r.Packets()), r.size.min as real, r.size.max as real,
     StdDev(sqrt, r.size.sum, r.size.sumSq, r.Packets()),
     Mean(r.fwd.sizeSum, r.fwd.packets), Mean(r.bwd.sizeSum, r.bwd.packets),
     Rate(r.Packets() as real, dur), Rate(r.Bytes() as real, dur),
     Rate(r.fwd.packets as real, dur), Rate(r.bwd.packets as real, dur)]
  }

  /** 15..20: inter-arrival times. */
  function Timing(r: Record, sqrt: real -> real): (v: seq<real>)
    ensures |v| == 6
  {
    [Mean(r.iat.sum, r.iat.count), if r.iat.count == 0 then 0.0 else r.iat.min, r.iat.max,
     StdDev(sqrt, r.iat.sum, r.iat.sumSq, r.iat.count),
     Mean(r.fwd.iatSum, r.fwd.iatCount), Mean(r.bwd.iatSum, r.bwd.iatCount)]
  }

  /** 21..31: ports, protocol and TCP flags. */
  function Headers(r: Record): (v: seq<real>)
    ensures |v| == 11
  {
    [r.ends.initPort as real, r.ends.respPort as real,
     Bool(r.ends.proto == PROTO_TCP), Bool(r.ends.proto == PROTO_UDP),
     Bool(r.ends.proto == PROTO_ICMP || r.ends.proto == PROTO_ICMPV6),
     r.tcp.syn as real, r.tcp.ack as real, r.tcp.fin as real,
     r.tcp.rst as real, r.tcp.psh as real, r.tcp.urg as real]
  }

  /** 32..41: ratios. */
  function Ratios(r: Record): (v: seq<real>)
    ensures |v| == 10
  {
    var pkts, bytes := r.Packets() as real, r.Bytes() as real;
    [Ratio(r.tcp.syn as real, Max(r.tcp.ack as real, 1.0)),
     Ratio(r.fwd.packets as real, Max(pkts, 1.0)), Ratio(r.fwd.bytes as real, Max(bytes, 1.0)),
     r.tcp.initialWindow as real, Mean(r.tcp.windowSum, r.tcp.windowCount),
     Ratio(r.bwd.bytes as real, Max(r.fwd.bytes as real, 1.0)),
     Ratio(r.size.small as real, Max(pkts, 1.0)), Ratio(r.size.large as real, Max(pkts, 1.0)),
     if pkts == 0.0 then 0.0 else r.Payload() as real / pkts,
     Bool(r.fwd.packets > 0 && r.bwd.packets > 0)]
  }

  /** 42..47: context, port class and snapshot index. */
  function Places(r: Record, internal: Addr -> bool): (v: seq<real>)
    ensures |v| == 6
  {
    var ctx := Context4(internal(r.ends.initIP), internal(r.ends.respIP));
    [ctx.0, ctx.1, ctx.2, ctx.3, Bool(1 <= r.ends.respPort <= 1023), r.snapshotIndex as real]
  }

  function Values(r: Record, sqrt: real -> real, internal: Addr -> bool): (v: seq<real>)
    ensures |v| == SIZE
  {
    Volume(r, sqrt) + Timing(r, sqrt) + Headers(r) + Ratios(r) + Places(r, internal)
  }

  method Extract(r: Record, sqrt: real -> real, internal: Addr -> bool) returns (values: seq<real>)
    ensures values == Values(r, sqrt, internal)
  {
    hide Volume, Timing, Headers, Ratios, Places;
    var s := new real[SIZE](_ => 0.0);
    ExtractVolume(s, r, sqrt);
    ExtractTiming(s, r, sqrt);
    ExtractHeaders(s, r);
    ExtractRatios(s, r);
    ExtractPlaces(s, r, internal);
    values := s[..];
    assert values == s[..15] + s[15..21] + s[21..32] + s[32..42] + s[42..];
  }

  method ExtractVolume(s: array<real>, r: Record, sqrt: real -> real)
    requires s.Length == SIZE
    modifies s
    ensures s[..15] == Volume(r, sqrt)
  {
    hide Mean, StdDev, Rate, Seconds;
    var dur := Seconds(r.lastSeen - r.firstSeen);
    if dur < 0.0 {
      dur := 0.0;
    }
    s[0] := dur;
    s[1] := r.fwd.packets as real;
    s[2] := r.bwd.packets as real;
    s[3] := r.fwd.bytes as real;
    s[4] := r.bwd.bytes as real;
    s[5] := Mean(r.size.sum, r.Packets());
    s[6] := r.size.min as real;
    s[7] := r.size.max as real;
    s[8] := StdDev(sqrt, r.size.sum, r.size.sumSq, r.Packets());
    s[9] := Mean(r.fwd.sizeSum, r.fwd.packets);
    s[10] := Mean(r.bwd.sizeSum, r.bwd.packets);
    ghost var sizes := s[..11];
    ExtractRates(s, r, dur);
    assert s[..15] == s[..11] + s[11..15];
    assert s[..11] == sizes;
  }

  /** The rates, which a flow without duration replaces by its totals. */
  method ExtractRates(s: array<real>, r: Record, dur: real)
    requires s.Length == SIZE
    modifies s
    ensures s[..11] == old(s[..11])
    ensures s[11..15] == [Rate(r.Packets() as real, dur), Rate(r.Bytes() as real, dur),
                          Rate(r.fwd.packets as real, dur), Rate(r.bwd.packets as real, dur)]
  {
    var durNZ := dur;
    if durNZ < SEC_FLOOR {
      durNZ := SEC_FLOOR;
    }
    var totalPkts := (r.fwd.packets + r.bwd.packets) as real;
    var totalBytes := (r.fwd.bytes + r.bwd.bytes) as real;
    if dur == 0.0 {
      s[11] := totalPkts;
      s[12] := totalBytes;
      s[13] := r.fwd.packets as real;
      s[14] := r.bwd.packets as real;
    } else {
      s[11] := totalPkts / durNZ;
      s[12] := totalBytes / durNZ;
      s[13] := r.fwd.packets as real / durNZ;
      s[14] := r.bwd.packets as real / durNZ;
    }
  }

  method ExtractTiming(s: array<real>, r: Record, sqrt: real -> real)
    requires s.Length == SIZE
    modifies s
    ensures s[..15] == old(s[..15]) && s[15..21] == Timing(r, sqrt)
  {
    s[15] := Mean(r.iat.sum, r.iat.count);
    s[16] := if r.iat.count == 0 then 0.0 else r.iat.min;
    s[17] := r.iat.max;
    s[18] := StdDev(sqrt, r.iat.sum, r.iat.sumSq, r.iat.count);
    s[19] := Mean(r.fwd.iatSum, r.fwd.iatCount);
    s[20] := Mean(r.bwd.iatSum, r.bwd.iatCount);
  }

  method ExtractHeaders(s: array<real>, r: Record)
    requires s.Length == SIZE
    modifies s
    ensures s[..15] == old(s[..15]) && s[15..21] == old(s[15..21]) && s[21..32] == Headers(r)
  {
    hide Bool;
    s[21] := r.ends.initPort as real;
    s[22] := r.ends.respPort as real;
    s[23] := Bool(r.ends.proto == PROTO_TCP);
    s[24] := Bool(r.ends.proto == PROTO_UDP);
    s[25] := Bool(r.ends.proto == PROTO_ICMP || r.ends.proto == PROTO_ICMPV6);
    ghost var ends := s[21..26];
    assert ends == Headers(r)[..5];
    ExtractFlags(s, r);
    assert s[..15] == s[..26][..15] && s[15..21] == s[..26][15..21] && s[21..32] == s[..26][21..] + s[26..32];
  }

  method ExtractFlags(s: array<real>, r: Record)
    requires s.Length == SIZE
    modifies s
    ensures s[..26] == old(s[..26]) && s[26..32] == Headers(r)[5..]
  {
    hide Bool;
    s[26] := r.tcp.syn as real;
    s[27] := r.tcp.ack as real;
    s[28] := r.tcp.fin as real;
    s[29] := r.tcp.rst as real;
    s[30] := r.tcp.psh as real;
    s[31] := r.tcp.urg as real;
  }

  method ExtractRatios(s: array<real>, r: Record)
    requires s.Length == SIZE
    modifies s
    ensures s[..15] == old(s[..15]) && s[15..21] == old(s[15..21]) && s[21..32] == old(s[21..32])
    ensures s[32..42] == Ratios(r)
  {
    hide Ratio, Max, Mean;
    var totalPkts := (r.fwd.packets + r.bwd.packets) as real;
    var totalBytes := (r.fwd.bytes + r.bwd.bytes) as real;
    s[32] := Ratio(r.tcp.syn as real, Max(r.tcp.ack as real, 1.0));
    s[33] := Ratio(r.fwd.packets as real, Max(totalPkts, 1.0));
    s[34] := Ratio(r.fwd.bytes as real, Max(totalBytes, 1.0));
    s[35] := r.tcp.initialWindow as real;
    s[36] := Mean(r.tcp.windowSum, r.tcp.windowCount);
    s[37] := Ratio(r.bwd.bytes as real, Max(r.fwd.bytes as real, 1.0));
    s[38] := Ratio(r.size.small as real, Max(totalPkts, 1.0));
    s[39] := Ratio(r.size.large as real, Max(totalPkts, 1.0));
    s[40] := if totalPkts == 0.0 then 0.0 else r.Payload() as real / totalPkts;
    s[41] := Bool(r.fwd.packets > 0 && r.bwd.packets > 0);
  }

  method ExtractPlaces(s: array<real>, r: Record, internal: Addr -> bool)
    requires s.Length == SIZE
    modifies s
    ensures s[..15] == old(s[..15]) && s[15..21] == old(s[15..21]) && s[21..32] == old(s[21..32])
    ensures s[32..42] == old(s[32..42]) && s[42..] == Places(r, internal)
  {
    var (i2i, i2e, e2i, e2e) := Context4(internal(r.ends.initIP), internal(r.ends.respIP));
    s[42] := i2i;
    s[43] := i2e;
    s[44] := e2i;
    s[45] := e2e;
    s[46] := Bool(1 <= r.ends.respPort <= 1023);
    s[47] := r.snapshotIndex as real;
  }

  /** Where each group sits in the vector. */
  lemma Layout(r: Record, sqrt: real -> real, internal: Addr -> bool)
    ensures var v := Values(r, sqrt, internal);
            && v[..15] == Volume(r, sqrt) && v[15..21] == Timing(r, sqrt) && v[21..32] == Headers(r)
            && v[32..42] == Ratios(r) && v[42..] == Places(r, internal)
  {
    hide Volume, Timing, Headers, Ratios, Places;
  }

  // ---- counters as float64 values ----

  /** How far apart float64 values are around n: one below 2^53, then doubling. */
  function Spacing(n: nat): (u: nat)
    ensures u > 0
  {
    if n < TWO53 then 1 else 2 * Spacing(n / 2)
  }

  /** float64(n): the nearest multiple of the spacing, the even one of two. */
  function Float64(n: nat): nat {
    var u := Spacing(n);
    var q, rem := n / u, n % u;
    if 2 * rem < u || (2 * rem == u && q % 2 == 0) then q * u else (q + 1) * u
  }

  lemma Float64Near(n: nat)
    ensures 2 * Float64(n) <= 2 * n + Spacing(n) && 2 * n <= 2 * Float64(n) + Spacing(n)
  {
    hide Spacing;
    var u := Spacing(n);
    assert n == n / u * u + n % u && (n / u + 1) * u == n / u * u + u;
  }

  /** Halfway between two floats, the one whose significand is even. */
  lemma TiesToEven(n: nat)
    requires 2 * (n % Spacing(n)) == Spacing(n)
    ensures Float64(n) % (2 * Spacing(n)) == 0
  {
    hide Spacing;
    var u := Spacing(n);
    var q := if n / u % 2 == 0 then n / u else n / u + 1;
    var h := q / 2;
    assert q == 2 * h;
    assert q * u == h * (2 * u) by { assert 2 * h * u == h * (2 * u); }
    DivUnique(q * u, 2 * u, h, 0);
  }

  function Pow2(e: nat): (p: nat)
    ensures p > 0
  {
    if e == 0 then 1 else 2 * Pow2(e - 1)
  }

  /** n has a 53-bit significand. */
  ghost predicate Representable(n: nat) {
    exists m: nat, e: nat :: m < TWO53 && Scaled(m, e) == n
  }

  function Scaled(m: nat, e: nat): nat { m * Pow2(e) }

  lemma {:induction false} SpacingIsPower(n: nat) returns (e: nat)
    ensures Spacing(n) == Pow2(e) && n / Spacing(n) < TWO53
  {
    e := 0;
    if n >= TWO53 {
      var e' := SpacingIsPower(n / 2);
      e := e' + 1;
      Halves(n, Spacing(n / 2));
    }
  }

  lemma Halves(n: nat, u: nat)
    requires u > 0
    ensures n / (2 * u) == n / 2 / u
  {
    var h := n / 2;
    var q, r := h / u, h % u;
    assert h == q * u + r && n == 2 * h + n % 2;
    assert n == q * (2 * u) + (2 * r + n % 2) by { assert q * (2 * u) == 2 * (q * u); }
    DivUnique(n, 2 * u, q, 2 * r + n % 2);
  }

  lemma ScaledDoubles(m: nat, e: nat)
    ensures Scaled(m, e + 1) == 2 * Scaled(m, e)
  {
    assert m * (2 * Pow2(e)) == 2 * (m * Pow2(e));
  }

  lemma MultipleDoubles(n: nat, u: nat)
    requires u > 0 && n % u == 0
    ensures 2 * n % (2 * u) == 0
  {
    var q := n / u;
    assert n == q * u;
    assert q * (2 * u) == 2 * (q * u);
    DivUnique(2 * n, 2 * u, q, 0);
  }

  lemma SpacingDoubles(n: nat)
    requires 2 * n >= TWO53
    ensures Spacing(2 * n) == 2 * Spacing(n)
  {
    assert 2 * n / 2 == n;
  }

  /** What has a 53-bit significand is a multiple of the spacing. */
  lemma {:induction false} ScaledIsMultiple(m: nat, e: nat)
    requires m < TWO53
    ensures Scaled(m, e) % Spacing(Scaled(m, e)) == 0
    decreases e
  {
    hide Scaled, Spacing;
    if e == 0 || Scaled(m, e) < TWO53 {
      UnscaledIs(m);
      SpacingOfSmall(Scaled(m, e));
    } else {
      ScaledIsMultiple(m, e - 1);
      ScaledDoubles(m, e - 1);
      MultipleDoubles(Scaled(m, e - 1), Spacing(Scaled(m, e - 1)));
      SpacingDoubles(Scaled(m, e - 1));
    }
  }

  lemma SpacingOfSmall(n: nat)
    requires n < TWO53
    ensures Spacing(n) == 1
  {}

  lemma UnscaledIs(m: nat)
    ensures Scaled(m, 0) == m
  {}

  /** The conversion is exact for what has a 53-bit significand, and for nothing else. */
  lemma Float64Exact(n: nat)
    ensures Float64(n) == n <==> Representable(n)
    ensures n <= TWO53 ==> Representable(n)
  {
    hide Spacing, Pow2;
    var u := Spacing(n);
    var q, rem := n / u, n % u;
    assert n == q * u + rem;
    if rem == 0 {
      var e := SpacingIsPower(n);
      assert Scaled(q, e) == n;
    } else {
      assert (q + 1) * u == q * u + u;
      if m: nat, e: nat :| m < TWO53 && Scaled(m, e) == n {
        ScaledIsMultiple(m, e);
      }
    }
    if n == TWO53 {
      assert Pow2(1) == 2 by { Doubled(); }
      assert Scaled(TWO53 / 2, 1) == n;
    } else if n < TWO53 {
      assert Pow2(0) == 1 by { Doubled(); }
      assert Scaled(n, 0) == n;
    }
  }

  lemma Doubled()
    ensures Pow2(0) == 1 && Pow2(1) == 2
  {}

  /** Reads a counter back, refusing what cannot be one; the bound of the comparison, the largest int64, is rounded to
      a float64. */
  function NonNegU64(f: real): nat {
    if f <= 0.0 || f > Float64(MAX_INT64) as real then 0 else f.Floor
  }

  function CountsOf(values: seq<real>): Counts
    requires |values| == SIZE
  {
    Counts(values[0], NonNegU64(values[1]), NonNegU64(values[2]), NonNegU64(values[3]), NonNegU64(values[4]))
  }

  lemma BoundIsTwo63()
    ensures Float64(MAX_INT64) == TWO63
  {
    var m := MAX_INT64;
    SpacingOf(m);
    DivUnique(m, 1024, TWO53 - 1, 1023);
  }

  /** Ten halvings bring the bound below 2^53. */
  lemma SpacingOf(m: nat)
    requires m == MAX_INT64
    ensures Spacing(m) == 1024
  {
    assert Spacing(m / 1024) == 1;
    assert m / 512 / 2 == m / 1024 && m / 256 / 2 == m / 512 && m / 128 / 2 == m / 256 && m / 64 / 2 == m / 128;
    assert m / 32 / 2 == m / 64 && m / 16 / 2 == m / 32 && m / 8 / 2 == m / 16 && m / 4 / 2 == m / 8;
    assert Spacing(m / 512) == 2;
    assert Spacing(m / 256) == 4;
    assert Spacing(m / 128) == 8;
    assert Spacing(m / 64) == 16;
    assert Spacing(m / 32) == 32;
    assert Spacing(m / 16) == 64;
    assert Spacing(m / 8) == 128;
    assert Spacing(m / 4) == 256;
    assert Spacing(m / 2) == 512;
  }

  /** When a counter can be read back. */
  ghost predicate Recoverable(n: nat) { Representable(n) && n <= TWO63 }

  /** A counter survives the trip through a float64 exactly when it has a 53-bit significand and is at most 2^63. */
  lemma CounterRoundTrip(n: nat)
    ensures NonNegU64(Float64(n) as real) == n <==> Recoverable(n)
    ensures n <= TWO53 ==> Recoverable(n)
  {
    hide Float64, Representable;
    Float64Exact(n);
    Float64Exact(0);
    BoundIsTwo63();
    assert (Float64(n) as real).Floor == Float64(n);
  }

  /** The vector with its four counters as the float64 values they are stored as. */
  function Stored(r: Record, sqrt: real -> real, internal: Addr -> bool): (v: seq<real>)
    ensures |v| == SIZE
  {
    Values(r, sqrt, internal)[1 := Float64(r.fwd.packets) as real][2 := Float64(r.bwd.packets) as real]
      [3 := Float64(r.fwd.bytes) as real][4 := Float64(r.bwd.bytes) as real]
  }

  /** Counts gives back all four counters of a record exactly when each of them can be read back. */
  lemma CountsRecovered(r: Record, sqrt: real -> real, internal: Addr -> bool)
    ensures CountsOf(Stored(r, sqrt, internal)) ==
            Counts(Duration(r), r.fwd.packets, r.bwd.packets, r.fwd.bytes, r.bwd.bytes)
            <==> Recoverable(r.fwd.packets) && Recoverable(r.bwd.packets) &&
                 Recoverable(r.fwd.bytes) && Recoverable(r.bwd.bytes)
  {
    hide NonNegU64, Float64, Recoverable, Values, Duration, Mean, StdDev, Rate;
    VolumeAt(r, sqrt, internal);
    CounterRoundTrip(r.fwd.packets);
    CounterRoundTrip(r.bwd.packets);
    CounterRoundTrip(r.fwd.bytes);
    CounterRoundTrip(r.bwd.bytes);
  }

  lemma VolumeAt(r: Record, sqrt: real -> real, internal: Addr -> bool)
    ensures var v, dur := Values(r, sqrt, internal), Duration(r);
            && v[0] == dur && v[1] == r.fwd.packets as real && v[2] == r.bwd.packets as real
            && v[3] == r.fwd.bytes as real && v[4] == r.bwd.bytes as real
            && v[5] == Mean(r.size.sum, r.Packets()) && v[6] == r.size.min as real && v[7] == r.size.max as real
            && v[8] == StdDev(sqrt, r.size.sum, r.size.sumSq, r.Packets())
            && v[11] == Rate(r.Packets() as real, dur) && v[12] == Rate(r.Bytes() as real, dur)
            && v[13] == Rate(r.fwd.packets as real, dur) && v[14] == Rate(r.bwd.packets as real, dur)
  {
    hide Values, Duration, Mean, StdDev, Rate;
    Layout(r, sqrt, internal);
    var v := Values(r, sqrt, internal);
    assert forall i :: 0 <= i < 15 ==> v[i] == v[..15][i];
  }

  // ---- what a vector of a lawful record looks like ----

  lemma MeanBetween(lo: real, hi: real, sum: real, n: nat)
    requires n > 0 && lo * n as real <= sum <= hi * n as real
    ensures lo <= Mean(sum, n) <= hi && Mean(sum, n) * n as real == sum
  {
    QuotientBetween(lo, hi, sum, n as real);
  }

  lemma TimesPositive(x: real, y: real, w: real)
    requires x < y && w > 0.0
    ensures x * w < y * w
  {}

  lemma QuotientBetween(lo: real, hi: real, a: real, w: real)
    requires w > 0.0 && lo * w <= a <= hi * w
    ensures lo <= a / w <= hi && a / w * w == a
  {
    var q := a / w;
    assert q * w == a;
    if q < lo {
      TimesPositive(q, lo, w);
    }
    if q > hi {
      TimesPositive(hi, q, w);
    }
  }

  /** The negative-variance clamp never fires. */
  lemma VarianceClampIdle(sum: real, sumSq: real, n: nat)
    requires n > 0 && sum * sum <= sumSq * n as real
    ensures Variance(sum, sumSq, n) >= 0.0
  {
    var x := n as real;
    var mean := sum / x;
    assert mean * x == sum;
    assert mean * mean * (x * x) == sum * sum by { assert mean * mean * (x * x) == (mean * x) * (mean * x); }
    var v := sumSq / x - mean * mean;
    assert v * (x * x) == sumSq * x - sum * sum by {
      assert sumSq / x * (x * x) == sumSq * x by { assert sumSq / x * (x * x) == (sumSq / x * x) * x; }
      assert v * (x * x) == sumSq / x * (x * x) - mean * mean * (x * x);
    }
    if v < 0.0 {
      TimesPositive(v, 0.0, x * x);
    }
  }

  lemma StdDevExact(sqrt: real -> real, sum: real, sumSq: real, n: nat)
    requires IsSqrt(sqrt) && sum * sum <= sumSq * n as real
    ensures var d := StdDev(sqrt, sum, sumSq, n);
            d >= 0.0 && (n >= 2 ==> d * d == Variance(sum, sumSq, n))
  {
    hide Variance;
    if n >= 2 {
      VarianceClampIdle(sum, sumSq, n);
    }
  }

  lemma RatioInUnit(part: nat, whole: nat)
    requires part <= whole
    ensures 0.0 <= Ratio(part as real, Max(whole as real, 1.0)) <= 1.0
  {
    QuotientBetween(0.0, 1.0, part as real, Max(whole as real, 1.0));
  }

  lemma RatiosAdd(a: nat, b: nat, whole: nat)
    requires a + b <= whole
    ensures Ratio(a as real, Max(whole as real, 1.0)) + Ratio(b as real, Max(whole as real, 1.0)) <= 1.0
  {
    var w := Max(whole as real, 1.0);
    RatioInUnit(a + b, whole);
    assert a as real / w + b as real / w == (a + b) as real / w;
  }

  /** Sizes: min <= mean <= max, and the deviation is the true population deviation. */
  lemma SizeFeatures(r: Record, sqrt: real -> real, internal: Addr -> bool)
    requires Lawful(r) && IsSqrt(sqrt)
    ensures var v := Values(r, sqrt, internal);
            && v[6] <= v[5] <= v[7]
            && v[8] >= 0.0 && (r.Packets() >= 2 ==> v[8] * v[8] == Variance(r.size.sum, r.size.sumSq, r.Packets()))
  {
    hide Values, Mean, StdDev, Variance, Rate, Duration, IsSqrt, LawfulGaps;
    VolumeAt(r, sqrt, internal);
    MeanBetween(r.size.min as real, r.size.max as real, r.size.sum, r.Packets());
    StdDevExact(sqrt, r.size.sum, r.size.sumSq, r.Packets());
  }

  /** Gaps: min <= mean <= max, and together they never exceed the duration; all zero if there are none. */
  lemma GapFeatures(r: Record, sqrt: real -> real, internal: Addr -> bool)
    requires Lawful(r) && IsSqrt(sqrt)
    ensures var v := Values(r, sqrt, internal);
            && 0.0 <= v[16] <= v[15] <= v[17] && v[15] * r.iat.count as real <= v[0]
            && v[18] >= 0.0 && (r.iat.count >= 2 ==> v[18] * v[18] == Variance(r.iat.sum, r.iat.sumSq, r.iat.count))
  {
    hide Values, StdDev, Variance, Rate, Seconds, IsSqrt, LawfulSizes,
         Flow.Record.WithDerivedKey, Flow.Record.WithAccumulators;
    TimingAt(r, sqrt, internal);
    if r.iat.count > 0 {
      MeanBetween(r.iat.min, r.iat.max, r.iat.sum, r.iat.count);
    }
    StdDevExact(sqrt, r.iat.sum, r.iat.sumSq, r.iat.count);
  }

  /** Ratios lie in [0,1], small and large packets never overlap, exactly one context is set. */
  lemma RatioFeatures(r: Record, sqrt: real -> real, internal: Addr -> bool)
    requires Lawful(r)
    ensures var v := Values(r, sqrt, internal);
            && 0.0 <= v[33] <= 1.0 && 0.0 <= v[34] <= 1.0 && v[38] + v[39] <= 1.0
            && v[42] + v[43] + v[44] + v[45] == 1.0 && (forall i :: 42 <= i <= 45 ==> v[i] == 0.0 || v[i] == 1.0)
            && v[23] + v[24] + v[25] <= 1.0
  {
    hide Ratio, Max, Lawful, Values;
    RatiosAt(r, sqrt, internal);
    var ctx := Context4(internal(r.ends.initIP), internal(r.ends.respIP));
    RatioInUnit(r.fwd.packets, r.Packets());
    RatioInUnit(r.fwd.bytes, r.Bytes());
    assert LawfulSizes(r.size, r.Packets()) by { LawfulParts(r); }
    RatiosAdd(r.size.small, r.size.large, r.Packets());
  }

  lemma LawfulParts(r: Record)
    requires Lawful(r)
    ensures LawfulSizes(r.size, r.Packets())
  {}

  /** Rates: per-direction rates add up, and a rate times a measurable duration gives the total back. */
  lemma RateFeatures(r: Record, sqrt: real -> real, internal: Addr -> bool)
    ensures var v := Values(r, sqrt, internal);
            && v[13] + v[14] == v[11]
            && (v[0] == 0.0 ==> v[11] == v[1] + v[2] && v[12] == v[3] + v[4])
            && (v[0] >= SEC_FLOOR ==> v[11] * v[0] == v[1] + v[2] && v[12] * v[0] == v[3] + v[4])
  {
    hide Values, StdDev, Mean, Rate, Duration;
    VolumeAt(r, sqrt, internal);
    assert Duration(r) >= 0.0 by { DurationNonNegative(r); }
    var dur := Duration(r);
    RatesAdd(r.fwd.packets, r.bwd.packets, dur);
    RateInverts(r.Packets(), dur);
    RateInverts(r.Bytes(), dur);
  }

  lemma RatesAdd(a: nat, b: nat, dur: real)
    requires dur >= 0.0
    ensures Rate(a as real, dur) + Rate(b as real, dur) == Rate((a + b) as real, dur)
  {}

  lemma RateInverts(n: nat, dur: real)
    requires dur >= 0.0
    ensures dur == 0.0 ==> Rate(n as real, dur) == n as real
    ensures dur >= SEC_FLOOR ==> Rate(n as real, dur) * dur == n as real
  {}

  lemma DurationNonNegative(r: Record)
    ensures Duration(r) >= 0.0
  {}

  lemma TimingAt(r: Record, sqrt: real -> real, internal: Addr -> bool)
    ensures var v := Values(r, sqrt, internal);
            && v[0] == Duration(r) && v[15] == Mean(r.iat.sum, r.iat.count)
            && v[16] == (if r.iat.count == 0 then 0.0 else r.iat.min) && v[17] == r.iat.max
            && v[18] == StdDev(sqrt, r.iat.sum, r.iat.sumSq, r.iat.count)
  {
    hide Values, Duration, Mean, StdDev, Rate;
    Layout(r, sqrt, internal);
    VolumeAt(r, sqrt, internal);
    var v := Values(r, sqrt, internal);
    assert forall i :: 0 <= i < 6 ==> v[15 + i] == v[15..21][i];
  }

  lemma RatiosAt(r: Record, sqrt: real -> real, internal: Addr -> bool)
    ensures var v := Values(r, sqrt, internal);
            var ctx := Context4(internal(r.ends.initIP), internal(r.ends.respIP));
            && v[23] == Bool(r.ends.proto == PROTO_TCP) && v[24] == Bool(r.ends.proto == PROTO_UDP)
            && v[25] == Bool(r.ends.proto == PROTO_ICMP || r.ends.proto == PROTO_ICMPV6)
            && v[33] == Ratio(r.fwd.packets as real, Max(r.Packets() as real, 1.0))
            && v[34] == Ratio(r.fwd.bytes as real, Max(r.Bytes() as real, 1.0))
            && v[38] == Ratio(r.size.small as real, Max(r.Packets() as real, 1.0))
            && v[39] == Ratio(r.size.large as real, Max(r.Packets() as real, 1.0))
            && v[42] == ctx.0 && v[43] == ctx.1 && v[44] == ctx.2 && v[45] == ctx.3
  {
    hide Values, Volume, Timing, Ratio, Max, Mean, Bool, Context4;
    Layout(r, sqrt, internal);
    var v := Values(r, sqrt, internal);
    assert forall i :: 0 <= i < 11 ==> v[21 + i] == v[21..32][i];
    assert forall i :: 0 <= i < 10 ==> v[32 + i] == v[32..42][i];
    assert forall i :: 0 <= i < 6 ==> v[42 + i] == v[42..][i];
  }
}
