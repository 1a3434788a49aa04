/** The pcapng section reader (internal/capture/pcapng.go): values first, then the reader itself. */
module Pcapng {
  import opened Bytes
  import opened Common
  import opened Division

  const SECTION := 0x0A0D0D0A
  const INTERFACE := 1
  const SIMPLE := 3
  const ENHANCED := 6
  const BYTE_ORDER_MAGIC := 0x1A2B3C4D
  const OPT_END := 0
  const OPT_TSRESOL := 9
  const MAX_BLOCK_LEN := MAX_SNAP_LEN + 0x10000
  const MAX_INTERFACES := 256
  const LINK_ETHERNET := 1
  const LINK_RAW := 101
  const DEFAULT_UNITS := 1_000_000
  const TWO64 := 0x1_0000_0000_0000_0000

  datatype NgError =
    | NotPcap | BadMagic | SectionLength | SectionTruncated | SectionTrailer
    | HeaderTruncated | BlockLength | BlockTruncated | BlockTrailer | MultiSection
    | InterfaceTooShort | TooManyInterfaces | LinkUnsupported | ResolutionOutOfRange
    | PacketTooShort | CaptureTooLong | DataExceedsBlock | UndefinedInterface | NoInterface

  datatype Result<T> = Ok(value: T) | Err(error: NgError)

  datatype Iface = Iface(link: nat, unitsPerSec: nat)

  /** A packet block; a simple one carries no timestamp. */
  datatype Packet = Packet(data: seq<byte>, link: nat, ts: Option<Time>)

  // ---- timestamps ----

  lemma PowLimits()
    ensures Pow(10, 19) == 10_000_000_000_000_000_000 < TWO64 <= Pow(10, 20)
    ensures Pow(2, 63) < TWO64 == Pow(2, 64)
  {
    assert Pow(10, 4) == 10_000;
    assert Pow(10, 8) == 100_000_000;
    assert Pow(10, 12) == 1_000_000_000_000;
    assert Pow(10, 16) == 10_000_000_000_000_000;
    assert Pow(10, 18) == 1_000_000_000_000_000_000;
    PowersOfTwo(8);
    PowersOfTwo(16);
    PowersOfTwo(24);
    PowersOfTwo(32);
    PowersOfTwo(40);
    PowersOfTwo(48);
    PowersOfTwo(56);
    PowersOfTwo(64);
  }

  lemma PowersOfTwo(n: nat)
    requires n >= 8
    ensures Pow(2, n) == 256 * Pow(2, n - 8)
    ensures Pow(2, n) == 2 * Pow(2, n - 1)
  {
    assert Pow(2, n - 1) == 2 * Pow(2, n - 2);
    assert Pow(2, n - 2) == 2 * Pow(2, n - 3);
    assert Pow(2, n - 3) == 2 * Pow(2, n - 4);
    assert Pow(2, n - 4) == 2 * Pow(2, n - 5);
    assert Pow(2, n - 5) == 2 * Pow(2, n - 6);
    assert Pow(2, n - 6) == 2 * Pow(2, n - 7);
    assert Pow(2, n - 7) == 2 * Pow(2, n - 8);
  }

  /** if_tsresol: a power of ten, or of two when the high bit is set. */
  function Resolution(v: byte): nat {
    if (v as nat) < 128 then Pow(10, v as nat) else Pow(2, v as nat - 128)
  }

  /** The low seven bits are the exponent: each step is ten times finer, or twice when the high bit is set. */
  lemma ResolutionScale(v: byte)
    ensures v == 0 || v == 128 ==> Resolution(v) == 1
    ensures 0 < v < 128 ==> Resolution(v) == 10 * Resolution(v - 1)
    ensures v > 128 ==> Resolution(v) == 2 * Resolution(v - 1)
    ensures v == 6 ==> Resolution(v) == DEFAULT_UNITS == 1_000_000
  {
    assert Pow(10, 3) == 1000 && Pow(10, 6) == 1_000_000;
  }

  /** A uint64 holds the powers of ten up to the 19th and the powers of two up to the 63rd. */
  lemma ResolutionAccepted(v: byte)
    ensures Resolution(v) < TWO64 <==> v <= 19 || 128 <= v <= 191
  {
    hide Pow;
    PowLimits();
    if v < 128 {
      var n := v as nat;
      PowGrows(10, if n <= 19 then n else 20, if n <= 19 then 19 else n);
    } else {
      var n := v as nat - 128;
      PowGrows(2, if n <= 63 then n else 64, if n <= 63 then 63 else n);
    }
  }

  /** Ticks per second: accepted exactly when a uint64 can hold it. */
  method TsUnitsPerSec(v: byte) returns (r: Result<nat>)
    ensures r == if Resolution(v) < TWO64 then Ok(Resolution(v)) else Err(ResolutionOutOfRange)
  {
    PowLimits();
    var n := v as nat % 128;
    if v < 128 {
      if n > 19 {
        PowGrows(10, 20, n);
        return Err(ResolutionOutOfRange);
      }
      PowGrows(10, n, 19);
      var u := 1;
      for i := 0 to n
        invariant u == Pow(10, i)
      {
        u := u * 10;
      }
      return Ok(u);
    }
    if n > 63 {
      PowGrows(2, 64, n);
      return Err(ResolutionOutOfRange);
    }
    PowGrows(2, n, 63);
    r := Ok(Pow(2, n));
  }

  /** The 128-bit product of two uint64 values. */
  function Mul64(x: nat, y: nat): (nat, nat) { (x * y / TWO64, x * y % TWO64) }

  /** Division of a 128-bit value; the machine traps unless hi < y. */
  function Div64(hi: nat, lo: nat, y: nat): nat
    requires y > 0 && hi < y && lo < TWO64
  {
    (hi * TWO64 + lo) / y
  }

  function Units(unitsPerSec: nat): (u: nat)
    ensures u > 0
  {
    if unitsPerSec == 0 then DEFAULT_UNITS else unitsPerSec
  }

  /** The nanoseconds since the epoch of a tick count, rounded down. */
  function TickNanos(ticks: nat, unitsPerSec: nat): nat { ticks * SECOND / Units(unitsPerSec) }

  /** Never traps, and the split into seconds and nanoseconds is exact. */
  method ScaleNGTime(ticks: nat, unitsPerSec: nat) returns (secs: nat, nanos: nat)
    requires ticks < TWO64 && unitsPerSec < TWO64
    ensures nanos < SECOND && secs < TWO64 && secs * SECOND + nanos == TickNanos(ticks, unitsPerSec)
  {
    var units := unitsPerSec;
    if units == 0 {
      units := DEFAULT_UNITS;
    }
    secs := ticks / units;
    var rem := ticks % units;
    var (hi, lo) := Mul64(rem, SECOND);
    HighBelow(rem, units, hi, lo);
    nanos := Div64(hi, lo, units);
    Split(ticks, units, secs, rem, nanos);
    Smaller(ticks, units);
  }

  lemma Smaller(n: nat, d: nat)
    requires d > 0
    ensures n / d <= n
  {
    var q := n / d;
    assert n == q * d + n % d;
    TimesAtLeast(d, q);
    assert q * d == d * q;
  }

  lemma HighBelow(rem: nat, units: nat, hi: nat, lo: nat)
    requires rem < units && hi == rem * SECOND / TWO64 && lo == rem * SECOND % TWO64
    ensures hi < units && hi * TWO64 + lo == rem * SECOND
  {
    assert hi * TWO64 + lo == rem * SECOND;
  }

  lemma Split(ticks: nat, units: nat, secs: nat, rem: nat, nanos: nat)
    requires units > 0 && secs == ticks / units && rem == ticks % units && nanos == rem * SECOND / units
    ensures nanos < SECOND && secs * SECOND + nanos == ticks * SECOND / units
  {
    var x := rem * SECOND;
    assert ticks == secs * units + rem;
    assert ticks * SECOND == (secs * SECOND) * units + x by {
      assert (secs * units) * SECOND == (secs * SECOND) * units;
    }
    QuotientShift(secs * SECOND, units, x);
    QuotientBelow(rem, units, nanos);
  }

  lemma QuotientShift(k: nat, d: nat, x: nat)
    requires d > 0
    ensures (k * d + x) / d == k + x / d
  {
    var q := x / d;
    assert x == q * d + x % d;
    assert (k + q) * d == k * d + q * d;
    DivUnique(k * d + x, d, k + q, x % d);
  }

  lemma QuotientBelow(rem: nat, units: nat, nanos: nat)
    requires rem < units && nanos == rem * SECOND / units
    ensures nanos < SECOND
  {
    var x := rem * SECOND;
    assert x == nanos * units + x % units;
    var e := SECOND - nanos;
    assert e * units == SECOND * units - nanos * units;
    Positive(e, units);
  }

  lemma Positive(e: int, d: nat)
    requires e * d > 0
    ensures e > 0
  {
    if e <= 0 {
      NotPositive(-e, d);
    }
  }

  lemma NotPositive(e: int, d: int)
    requires e >= 0 && d >= 0
    ensures (-e) * d <= 0
  {
    assert e * d >= 0;
    assert (-e) * d == -(e * d);
  }

  /** The moment a packet block states; int64 seconds wrap. */
  function PacketTime(ticks: nat, unitsPerSec: nat): Time {
    var n := TickNanos(ticks, unitsPerSec);
    Int64(n / SECOND) * SECOND + n % SECOND
  }

  /** The last nanosecond not after the tick, while an int64 holds the seconds; 2^64 seconds early from then on. */
  lemma TimeOfTicks(ticks: nat, unitsPerSec: nat)
    requires ticks < TWO64 && unitsPerSec < TWO64
    ensures var t, u := PacketTime(ticks, unitsPerSec), if unitsPerSec == 0 then 1_000_000 else unitsPerSec;
            var t' := if ticks / u < 0x8000_0000_0000_0000 then t else t + TWO64 * SECOND;
            t' * u <= ticks * SECOND < t' * u + u
  {
    var u, n := Units(unitsPerSec), TickNanos(ticks, unitsPerSec);
    var secs, rem := ticks / u, ticks % u;
    Split(ticks, u, secs, rem, rem * SECOND / u);
    DivUnique(n, SECOND, secs, rem * SECOND / u);
    Smaller(ticks, u);
    assert n * u + ticks * SECOND % u == ticks * SECOND;
  }

  // ---- blocks ----

  datatype BlockRead = Eof | Bad(error: NgError, left: seq<byte>) | Block(typ: nat, body: seq<byte>, left: seq<byte>)

  function ReadBlock(rest: seq<byte>, bo: Endian): (r: BlockRead)
    ensures r.Block? ==> |r.left| + 12 <= |rest|
  {
    if rest == [] then Eof
    else if |rest| < 8 then Bad(HeaderTruncated, [])
    else
      var total := Uint32(rest[4..], bo);
      if total < 12 || total % 4 != 0 || total > MAX_BLOCK_LEN then Bad(BlockLength, rest[8..])
      else if |rest| < total then Bad(BlockTruncated, [])
      else if Uint32(rest[total - 4..], bo) != total then Bad(BlockTrailer, rest[total..])
      else Block(Uint32(rest, bo), rest[8..total - 4], rest[total..])
  }

  function Padded(n: nat): (r: nat)
    ensures n <= r < n + 4 && r % 4 == 0
  {
    (n + 3) / 4 * 4
  }

  /** The options of an interface from off on; units is what the earlier ones said. */
  function Options(b: seq<byte>, off: nat, bo: Endian, units: nat): Result<nat>
    decreases |b| - off
  {
    if off + 4 > |b| then Ok(units)
    else
      var code, olen := Uint16(b[off..], bo), Uint16(b[off + 2..], bo);
      if code == OPT_END || off + 4 + olen > |b| then Ok(units)
      else if code == OPT_TSRESOL && olen >= 1 then
        var u := Resolution(b[off + 4]);
        if u < TWO64 then Options(b, off + 4 + Padded(olen), bo, u) else Err(ResolutionOutOfRange)
      else Options(b, off + 4 + Padded(olen), bo, units)
  }

  function Interface(b: seq<byte>, bo: Endian, n: nat): Result<Iface> {
    if |b| < 8 then Err(InterfaceTooShort)
    else if n >= MAX_INTERFACES then Err(TooManyInterfaces)
    else
      var link := Uint16(b, bo);
      if link != LINK_ETHERNET && link != LINK_RAW then Err(LinkUnsupported)
      else
        match Options(b, 8, bo, DEFAULT_UNITS)
        case Ok(units) => Ok(Iface(link, units))
        case Err(e) => Err(e)
  }

  function Enhanced(b: seq<byte>, bo: Endian, ifaces: seq<Iface>): Result<Packet> {
    if |b| < 20 then Err(PacketTooShort)
    else
      var id, capLen := Uint32(b, bo), Uint32(b[12..], bo);
      if capLen > MAX_SNAP_LEN then Err(CaptureTooLong)
      else if 20 + capLen > |b| then Err(DataExceedsBlock)
      else if id >= |ifaces| then Err(UndefinedInterface)
      else
        var ticks := Uint32(b[4..], bo) * 0x1_0000_0000 + Uint32(b[8..], bo);
        Ok(Packet(b[20..20 + capLen], ifaces[id].link, Some(PacketTime(ticks, ifaces[id].unitsPerSec))))
  }

  function Simple(b: seq<byte>, bo: Endian, ifaces: seq<Iface>): Result<Packet> {
    if ifaces == [] then Err(NoInterface)
    else if |b| < 4 then Err(PacketTooShort)
    else
      var origLen := Uint32(b, bo);
      var n := if origLen > |b| - 4 then |b| - 4 else origLen;
      if n > MAX_SNAP_LEN then Err(CaptureTooLong)
      else Ok(Packet(b[4..4 + n], ifaces[0].link, None))
  }

  // ---- the reader ----

  datatype State = State(rest: seq<byte>, bo: Endian, ifaces: seq<Iface>)

  datatype Outcome = End | Failed(error: NgError) | Got(packet: Packet)

  function Outcomes(r: Result<Packet>): Outcome {
    match r
    case Ok(p) => Got(p)
    case Err(e) => Failed(e)
  }

  /** The next packet: interface blocks are remembered, unknown blocks skipped. */
  function Next(s: State): (r: (Outcome, State))
    ensures r.1.bo == s.bo && (r.0.Got? ==> |r.1.rest| < |s.rest|)
    decreases |s.rest|
  {
    match ReadBlock(s.rest, s.bo)
    case Eof => (End, s)
    case Bad(e, left) => (Failed(e), s.(rest := left))
    case Block(typ, body, left) =>
      var s' := s.(rest := left);
      if typ == SECTION then (Failed(MultiSection), s')
      else if typ == INTERFACE then
        match Interface(body, s.bo, |s.ifaces|)
        case Ok(i) => Next(s'.(ifaces := s.ifaces + [i]))
        case Err(e) => (Failed(e), s')
      else if typ == ENHANCED then (Outcomes(Enhanced(body, s.bo, s.ifaces)), s')
      else if typ == SIMPLE then (Outcomes(Simple(body, s.bo, s.ifaces)), s')
      else Next(s')
  }

  /** The section header: the byte order it fixes, and what follows it. */
  function OpenSection(input: seq<byte>): Result<State> {
    if |input| < 12 || Uint32(input, Big) != SECTION then Err(NotPcap)
    else if Uint32(input[8..], Little) != BYTE_ORDER_MAGIC && Uint32(input[8..], Big) != BYTE_ORDER_MAGIC then
      Err(BadMagic)
    else
      var bo := if Uint32(input[8..], Little) == BYTE_ORDER_MAGIC then Little else Big;
      var total := Uint32(input[4..], bo);
      if total < 28 || total % 4 != 0 || total > MAX_BLOCK_LEN then Err(SectionLength)
      else if |input| < total then Err(SectionTruncated)
      else if Uint32(input[total - 4..], bo) != total then Err(SectionTrailer)
      else Ok(State(input[total..], bo, []))
  }

  class Reader {
    var rest: seq<byte>
    var bo: Endian
    var ifaces: seq<Iface>

    /** Every scale an interface may have fits a uint64. */
    ghost predicate Valid()
      reads this
    {
      forall i :: 0 <= i < |ifaces| ==> ifaces[i].unitsPerSec < TWO64
    }

    ghost function Now(): State
      reads this
    {
      State(rest, bo, ifaces)
    }

    constructor (s: State)
      ensures Now() == s
    {
      rest, bo, ifaces := s.rest, s.bo, s.ifaces;
    }

    method TakeBlock() returns (r: BlockRead)
      modifies `rest
      ensures r == ReadBlock(old(rest), bo)
      ensures rest == match r case Eof => old(rest) case Bad(_, left) => left case Block(_, _, left) => left
    {
      ghost var was := rest;
      if |rest| < 8 {
        if rest == [] {
          return Eof;
        }
        rest := [];
        return Bad(HeaderTruncated, []);
      }
      var h := rest[..8];
      rest := rest[8..];
      assert h[..4] == was[..4] && h[4..][..4] == was[4..][..4];
      var typ, total := Uint32(h, bo), Uint32(h[4..], bo);
      if total < 12 || total % 4 != 0 || total > MAX_BLOCK_LEN {
        return Bad(BlockLength, rest);
      }
      var n := total - 8;
      if |rest| < n {
        rest := [];
        return Bad(BlockTruncated, []);
      }
      var b := rest[..n];
      rest := rest[n..];
      assert rest == was[total..] && b[n - 4..][..4] == was[total - 4..][..4];
      if Uint32(b[n - 4..], bo) != total {
        return Bad(BlockTrailer, rest);
      }
      assert b[..n - 4] == was[8..total - 4];
      r := Block(typ, b[..n - 4], rest);
    }

    method AddInterface(b: seq<byte>) returns (err: Option<NgError>)
      requires Valid()
      modifies `ifaces
      ensures Valid()
      ensures match Interface(b, bo, |old(ifaces)|)
              case Ok(i) => err == None && ifaces == old(ifaces) + [i]
              case Err(e) => err == Some(e) && ifaces == old(ifaces)
    {
      if |b| < 8 {
        return Some(InterfaceTooShort);
      }
      if |ifaces| >= MAX_INTERFACES {
        return Some(TooManyInterfaces);
      }
      var link := Uint16(b[0..2], bo);
      assert b[0..2][..2] == b[..2];
      if link != LINK_ETHERNET && link != LINK_RAW {
        return Some(LinkUnsupported);
      }
      var units := ReadOptions(b);
      if units.Err? {
        return Some(units.error);
      }
      ifaces := ifaces + [Iface(link, units.value)];
      err := None;
    }

    method ReadOptions(b: seq<byte>) returns (r: Result<nat>)
      ensures r == Options(b, 8, bo, DEFAULT_UNITS) && (r.Ok? ==> r.value < TWO64)
    {
      hide Uint16, Resolution, Padded;
      var units: nat, off := DEFAULT_UNITS, 8;
      while off + 4 <= |b|
        invariant Options(b, off, bo, units) == Options(b, 8, bo, DEFAULT_UNITS) && units < TWO64
        decreases |b| - off
      {
        var code, olen := Uint16(b[off..], bo), Uint16(b[off + 2..], bo);
        if code == OPT_END || off + 4 + olen > |b| {
          return Ok(units);
        }
        if code == OPT_TSRESOL && olen >= 1 {
          var u := TsUnitsPerSec(b[off + 4]);
          if u.Err? {
            return u;
          }
          units := u.value;
        }
        off := off + 4 + Padded(olen);
      }
      r := Ok(units);
    }

    method ParseEPB(b: seq<byte>) returns (r: Result<Packet>)
      requires Valid()
      ensures r == Enhanced(b, bo, ifaces)
    {
      hide Uint32, TickNanos, Int64;
      if |b| < 20 {
        return Err(PacketTooShort);
      }
      var ifID, tsHigh, tsLow, capLen := Uint32(b, bo), Uint32(b[4..], bo), Uint32(b[8..], bo), Uint32(b[12..], bo);
      if capLen > MAX_SNAP_LEN {
        return Err(CaptureTooLong);
      }
      if 20 + capLen > |b| {
        return Err(DataExceedsBlock);
      }
      if ifID >= |ifaces| {
        return Err(UndefinedInterface);
      }
      var ifc, ts64 := ifaces[ifID], tsHigh * 0x1_0000_0000 + tsLow;
      var secs, nanos := ScaleNGTime(ts64, ifc.unitsPerSec);
      SecondsOf(secs, nanos);
      r := Ok(Packet(b[20..20 + capLen], ifc.link, Some(Int64(secs) * SECOND + nanos)));
    }

    method TakeNext() returns (o: Outcome)
      requires Valid()
      modifies this
      ensures Valid() && (o, Now()) == Next(old(Now()))
    {
      hide ReadBlock, Interface, Enhanced, Simple;
      while true
        invariant Valid() && Next(Now()) == Next(old(Now()))
        decreases |rest|
      {
        var r := TakeBlock();
        match r
        case Eof => return End;
        case Bad(e, _) => return Failed(e);
        case Block(typ, body, _) =>
          if typ == SECTION {
            return Failed(MultiSection);
          } else if typ == INTERFACE {
            var err := AddInterface(body);
            if err.Some? {
              return Failed(err.value);
            }
          } else if typ == ENHANCED {
            var p := ParseEPB(body);
            return Outcomes(p);
          } else if typ == SIMPLE {
            return Outcomes(Simple(body, bo, ifaces));
          }
      }
    }
  }

  lemma SecondsOf(secs: nat, nanos: nat)
    requires nanos < SECOND
    ensures (secs * SECOND + nanos) / SECOND == secs && (secs * SECOND + nanos) % SECOND == nanos
  {}

  lemma HeaderFields(input: seq<byte>, bo: Endian)
    requires |input| >= 12
    ensures var h := input[..12];
            Uint32(h, bo) == Uint32(input, bo) && Uint32(h[4..], bo) == Uint32(input[4..], bo) &&
            Uint32(h[8..], bo) == Uint32(input[8..], bo)
  {
    hide Uint;
    var h := input[..12];
    assert h[..4] == input[..4] && h[4..][..4] == input[4..][..4] && h[8..][..4] == input[8..][..4];
  }

  lemma TrailerAt(input: seq<byte>, total: nat, bo: Endian)
    requires 16 <= total <= |input|
    ensures var rest := input[12..total];
            Uint32(rest[|rest| - 4..], bo) == Uint32(input[total - 4..], bo)
  {
    hide Uint;
    var rest := input[12..total];
    var a, b := rest[|rest| - 4..][..4], input[total - 4..][..4];
    forall i | 0 <= i < 4 ensures a[i] == b[i] {
      assert a[i] == rest[|rest| - 4 + i] == input[total - 4 + i];
    }
    assert a == b;
  }

  /** newPCAPNGReader. */
  method NewReader(input: seq<byte>) returns (z: Reader?, err: Option<NgError>)
    ensures match OpenSection(input)
            case Ok(s) => err == None && z != null && fresh(z) && z.Now() == s && z.Valid()
            case Err(e) => err == Some(e) && z == null
  {
    hide Uint32;
    z, err := null, None;
    if |input| < 12 {
      return null, Some(NotPcap);
    }
    var h := input[..12];
    HeaderFields(input, Big);
    HeaderFields(input, Little);
    if Uint32(h, Big) != SECTION {
      return null, Some(NotPcap);
    }
    var bo;
    if Uint32(h[8..], Little) == BYTE_ORDER_MAGIC {
      bo := Little;
    } else if Uint32(h[8..], Big) == BYTE_ORDER_MAGIC {
      bo := Big;
    } else {
      return null, Some(BadMagic);
    }
    var total := Uint32(h[4..], bo);
    if total < 28 || total % 4 != 0 || total > MAX_BLOCK_LEN {
      return null, Some(SectionLength);
    }
    if |input| < total {
      return null, Some(SectionTruncated);
    }
    var rest := input[12..total];
    TrailerAt(input, total, bo);
    if Uint32(rest[|rest| - 4..], bo) != total {
      return null, Some(SectionTrailer);
    }
    z := new Reader(State(input[total..], bo, []));
  }
}
