/** One read of a BPF device, split into its capture records (internal/capture/bpfchunk.go). */
module BpfChunk {
  import opened Bytes
  import opened Common
  import opened Division

  datatype Layout = Layout(
    order: Option<Endian>,
    tsSecOff: nat, tsSecWidth: nat, tsFracOff: nat, tsFracWidth: nat, fracPerSec: nat, fracNanos: int,
    capLenOff: nat, dataLenOff: nat, hdrLenOff: nat, minHdrLen: int, align: int)

  datatype Record = Record(ts: Time, frame: seq<byte>, origLen: nat)

  datatype ChunkError = BadLayout | Trailing | ShortHeader | TooLong | Overrun

  predicate Usable(l: Layout) { l.minHdrLen > 0 && l.order.Some? }

  function Width(w: nat): nat { if w == 8 || w == 4 then w else 0 }

  /** What the layout itself promises: minHdrLen bytes hold every field. */
  predicate HoldsFields(l: Layout) {
    && l.capLenOff + 4 <= l.minHdrLen && l.dataLenOff + 4 <= l.minHdrLen && l.hdrLenOff + 2 <= l.minHdrLen
    && (Width(l.tsSecWidth) > 0 ==> l.tsSecOff + l.tsSecWidth <= l.minHdrLen)
    && (Width(l.tsFracWidth) > 0 ==> l.tsFracOff + l.tsFracWidth <= l.minHdrLen)
  }

  // ---- fields ----

  function ReadUintField(b: seq<byte>, order: Endian, off: nat, width: nat): (v: nat)
    requires Width(width) > 0 ==> off + width <= |b|
    ensures v < 0x1_0000_0000_0000_0000
  {
    if width == 8 then Uint64(b[off..], order)
    else if width == 4 then Uint32(b[off..], order)
    else 0
  }

  predicate PowerOfTwo(n: int)
    decreases n
  {
    n == 1 || (n > 1 && n % 2 == 0 && PowerOfTwo(n / 2))
  }

  lemma {:induction false} PowerOfTwoIff(n: int)
    ensures PowerOfTwo(n) <==> exists k: nat :: n == Pow(2, k)
    decreases n
  {
    if n == 1 {
      assert n == Pow(2, 0);
    } else if n > 1 {
      PowerOfTwoIff(n / 2);
      if PowerOfTwo(n) {
        var k: nat :| n / 2 == Pow(2, k);
        assert n == Pow(2, k + 1);
      } else if k: nat :| n == Pow(2, k) {
        assert k > 0 && n / 2 == Pow(2, k - 1);
        assert false;
      }
    }
  }

  /** The next multiple of align; no alignment when align is not a power of two above 1. */
  function WordAlign(n: nat, align: int): (r: nat)
    ensures n <= r
    ensures align > 1 && PowerOfTwo(align) ==> r % align == 0 && r < n + align
    ensures align <= 1 || !PowerOfTwo(align) ==> r == n
  {
    if align <= 1 || !PowerOfTwo(align) then n
    else
      AlignUp(n, align);
      (n + align - 1) / align * align
  }

  lemma AlignUp(n: nat, a: nat)
    requires a > 0
    ensures var r := (n + a - 1) / a * a;
            n <= r < n + a && r % a == 0
  {
    var q := (n + a - 1) / a;
    assert q * a + (n + a - 1) % a == n + a - 1;
    DivUnique(q * a, a, q, 0);
  }

  /** bh_tstamp: int64 arithmetic wraps. */
  function RecordTime(hdr: seq<byte>, l: Layout): Time
    requires Usable(l) && HoldsFields(l) && |hdr| >= l.minHdrLen
  {
    var sec := Int64(ReadUintField(hdr, l.order.value, l.tsSecOff, l.tsSecWidth));
    var frac := ReadUintField(hdr, l.order.value, l.tsFracOff, l.tsFracWidth);
    var reduced := if l.fracPerSec > 0 then frac % l.fracPerSec else frac;
    sec * SECOND + Int64(Int64(reduced) * l.fracNanos)
  }

  // ---- the specification: one record at the front, then the rest ----

  function CapLen(hdr: seq<byte>, l: Layout): nat
    requires Usable(l) && HoldsFields(l) && |hdr| >= l.minHdrLen
  {
    Uint32(hdr[l.capLenOff..], l.order.value)
  }

  function HdrLen(hdr: seq<byte>, l: Layout): nat
    requires Usable(l) && HoldsFields(l) && |hdr| >= l.minHdrLen
  {
    Uint16(hdr[l.hdrLenOff..], l.order.value)
  }

  /** Why the bytes at the front are no record. */
  function Fault(hdr: seq<byte>, l: Layout): Option<ChunkError>
    requires Usable(l) && HoldsFields(l)
  {
    if |hdr| < l.minHdrLen then Some(Trailing)
    else if HdrLen(hdr, l) < l.minHdrLen then Some(ShortHeader)
    else if CapLen(hdr, l) > MAX_SNAP_LEN then Some(TooLong)
    else if HdrLen(hdr, l) + CapLen(hdr, l) > |hdr| then Some(Overrun)
    else None
  }

  /** A record and where it lies: it starts at off, its frame at frameAt, the next record at next. */
  datatype Placed = Placed(off: nat, frameAt: nat, next: nat, record: Record)

  function RecordAt(chunk: seq<byte>, off: nat, l: Layout): (p: Placed)
    requires Usable(l) && HoldsFields(l) && off <= |chunk| && Fault(chunk[off..], l).None?
    ensures p.off == off < off + l.minHdrLen <= p.frameAt <= p.frameAt + |p.record.frame| <= |chunk|
    ensures p.frameAt + |p.record.frame| <= p.next
    ensures p.record.frame == chunk[p.frameAt..p.frameAt + |p.record.frame|]
  {
    var hdr := chunk[off..];
    var n := HdrLen(hdr, l) + CapLen(hdr, l);
    Placed(off, off + HdrLen(hdr, l), off + WordAlign(n, l.align),
           Record(RecordTime(hdr, l), chunk[off + HdrLen(hdr, l)..off + n], Uint32(hdr[l.dataLenOff..], l.order.value)))
  }

  datatype Walked = Walked(placed: seq<Placed>, err: Option<ChunkError>)

  function Walk(chunk: seq<byte>, off: nat, l: Layout): Walked
    requires Usable(l) && HoldsFields(l)
    decreases |chunk| - off
  {
    if off >= |chunk| then Walked([], None)
    else if Fault(chunk[off..], l).Some? then Walked([], Fault(chunk[off..], l))
    else
      var p := RecordAt(chunk, off, l);
      var rest := Walk(chunk, p.next, l);
      Walked([p] + rest.placed, rest.err)
  }

  function Records(placed: seq<Placed>): (r: seq<Record>)
    ensures |r| == |placed|
  {
    seq(|placed|, i requires 0 <= i < |placed| => placed[i].record)
  }

  // ---- the loop ----

  method ParseBPFChunk(dst0: seq<Record>, chunk: seq<byte>, l: Layout)
    returns (dst: seq<Record>, err: Option<ChunkError>)
    requires Usable(l) ==> HoldsFields(l)
    ensures !Usable(l) ==> dst == dst0 && err == Some(BadLayout)
    ensures Usable(l) ==> dst == dst0 + Records(Walk(chunk, 0, l).placed) && err == Walk(chunk, 0, l).err
  {
    hide Walk, Uint16, Uint32, RecordTime, WordAlign, Records;
    dst := dst0;
    assert Records([]) == [];
    if l.minHdrLen <= 0 || l.order.None? {
      return dst, Some(BadLayout);
    }
    ghost var done: seq<Placed> := [];
    var off := 0;
    while off < |chunk|
      invariant dst == dst0 + Records(done)
      invariant Walk(chunk, 0, l).placed == done + Walk(chunk, off, l).placed
      invariant Walk(chunk, 0, l).err == Walk(chunk, off, l).err
      decreases |chunk| - off
    {
      var avail := |chunk| - off;
      var hdr := chunk[off..];
      WalkStep(chunk, off, l);
      assert done + [] == done;
      if avail < l.minHdrLen {
        return dst, Some(Trailing);
      }
      var capLen, dataLen := Uint32(hdr[l.capLenOff..], l.order.value), Uint32(hdr[l.dataLenOff..], l.order.value);
      var hdrLen := Uint16(hdr[l.hdrLenOff..], l.order.value);
      if hdrLen < l.minHdrLen {
        return dst, Some(ShortHeader);
      } else if capLen > MAX_SNAP_LEN {
        return dst, Some(TooLong);
      } else if hdrLen > avail || capLen > avail - hdrLen {
        return dst, Some(Overrun);
      }
      ghost var p := RecordAt(chunk, off, l);
      assert p.next == off + WordAlign(hdrLen + capLen, l.align);
      assert p.record == Record(RecordTime(hdr, l), chunk[off + hdrLen..off + hdrLen + capLen], dataLen);
      hide RecordAt, Fault, CapLen, HdrLen;
      assert done + ([p] + Walk(chunk, p.next, l).placed) == (done + [p]) + Walk(chunk, p.next, l).placed;
      var frameStart := off + hdrLen;
      dst := dst + [Record(RecordTime(hdr, l), chunk[frameStart..frameStart + capLen], dataLen)];
      RecordsSnoc(done, p);
      done := done + [p];
      off := off + WordAlign(hdrLen + capLen, l.align);
    }
    err := None;
    WalkEnd(chunk, off, l);
    assert done + [] == done;
  }

  lemma WalkEnd(chunk: seq<byte>, off: nat, l: Layout)
    requires Usable(l) && HoldsFields(l) && off >= |chunk|
    ensures Walk(chunk, off, l) == Walked([], None)
  {}

  lemma WalkStep(chunk: seq<byte>, off: nat, l: Layout)
    requires Usable(l) && HoldsFields(l) && off < |chunk|
    ensures var fault := Fault(chunk[off..], l);
            if fault.Some? then Walk(chunk, off, l) == Walked([], fault)
            else
              var p := RecordAt(chunk, off, l);
              var rest := Walk(chunk, p.next, l);
              Walk(chunk, off, l) == Walked([p] + rest.placed, rest.err)
  {}

  lemma RecordsSnoc(placed: seq<Placed>, p: Placed)
    ensures Records(placed + [p]) == Records(placed) + [p.record]
  {}
}
