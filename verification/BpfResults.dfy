/** What the BPF chunk parser guarantees on any bytes, and that it inverts the kernel's encoding. */
module BpfResults {
  import opened Bytes
  import opened BpfChunk
  import opened Common
  import opened Division

  // ---- any bytes ----

  /** placed are records that follow each other from off on, each well-formed. */
  predicate Chain(chunk: seq<byte>, off: nat, l: Layout, placed: seq<Placed>)
    requires Usable(l) && HoldsFields(l)
    decreases |placed|
  {
    placed == [] ||
    (off < |chunk| && Fault(chunk[off..], l).None? && placed[0] == RecordAt(chunk, off, l) &&
     Chain(chunk, placed[0].next, l, placed[1..]))
  }

  /** The offset at which a chain stops. */
  function End(off: nat, placed: seq<Placed>): nat {
    if placed == [] then off else placed[|placed| - 1].next
  }

  /** The parser returns the longest chain of well-formed records; it reports an error exactly when bytes are
      left that are no record. */
  lemma {:induction false} LongestPrefix(chunk: seq<byte>, off: nat, l: Layout)
    requires Usable(l) && HoldsFields(l)
    ensures var w := Walk(chunk, off, l);
            && Chain(chunk, off, l, w.placed)
            && (forall other :: Chain(chunk, off, l, other) ==> other <= w.placed)
            && (w.err.Some? <==> End(off, w.placed) < |chunk|)
            && (w.err.Some? ==> w.err == Fault(chunk[End(off, w.placed)..], l))
    decreases |chunk| - off
  {
    hide RecordAt, Fault;
    var w := Walk(chunk, off, l);
    if off < |chunk| && Fault(chunk[off..], l).None? {
      var p := RecordAt(chunk, off, l);
      var rest := Walk(chunk, p.next, l);
      LongestPrefix(chunk, p.next, l);
      assert w.placed == [p] + rest.placed && w.placed[1..] == rest.placed;
      assert End(off, w.placed) == End(p.next, rest.placed);
    }
    forall other | Chain(chunk, off, l, other) ensures other <= w.placed {
      ChainIsPrefix(chunk, off, l, other);
    }
  }

  lemma {:induction false} ChainIsPrefix(chunk: seq<byte>, off: nat, l: Layout, other: seq<Placed>)
    requires Usable(l) && HoldsFields(l) && Chain(chunk, off, l, other)
    ensures other <= Walk(chunk, off, l).placed
    decreases |other|
  {
    hide RecordAt, Fault;
    if other != [] {
      ChainIsPrefix(chunk, other[0].next, l, other[1..]);
      assert other == [other[0]] + other[1..];
    }
  }

  /** Every frame lies in the chunk, behind its own header, and no two records overlap. */
  lemma {:induction false} FramesApart(chunk: seq<byte>, off: nat, l: Layout, i: nat, j: nat)
    requires Usable(l) && HoldsFields(l) && i < j < |Walk(chunk, off, l).placed|
    ensures var p, q := Walk(chunk, off, l).placed[i], Walk(chunk, off, l).placed[j];
            && p.off + l.minHdrLen <= p.frameAt <= p.frameAt + |p.record.frame| <= p.next <= q.off
            && q.off + l.minHdrLen <= q.frameAt <= q.frameAt + |q.record.frame| <= |chunk|
    decreases |chunk| - off
  {
    hide RecordAt, Fault;
    var p := RecordAt(chunk, off, l);
    var rest := Walk(chunk, p.next, l);
    if i > 0 {
      FramesApart(chunk, p.next, l, i - 1, j - 1);
    } else {
      StartsAt(chunk, p.next, l, j - 1);
    }
  }

  lemma {:induction false} StartsAt(chunk: seq<byte>, off: nat, l: Layout, j: nat)
    requires Usable(l) && HoldsFields(l) && j < |Walk(chunk, off, l).placed|
    ensures var q := Walk(chunk, off, l).placed[j];
            off <= q.off && q.off + l.minHdrLen <= q.frameAt <= q.frameAt + |q.record.frame| <= |chunk|
    decreases |chunk| - off
  {
    hide RecordAt, Fault;
    var p := RecordAt(chunk, off, l);
    if j > 0 {
      StartsAt(chunk, p.next, l, j - 1);
    }
  }

  /** The reduction of the sub-second field keeps the arithmetic in an int64: the time is exact. */
  lemma TimeIsExact(hdr: seq<byte>, l: Layout)
    requires Usable(l) && HoldsFields(l) && |hdr| >= l.minHdrLen
    requires l.fracPerSec > 0 && l.fracNanos > 0 && l.fracPerSec * l.fracNanos == SECOND
    ensures var sec := Int64(ReadUintField(hdr, l.order.value, l.tsSecOff, l.tsSecWidth));
            var frac := ReadUintField(hdr, l.order.value, l.tsFracOff, l.tsFracWidth) % l.fracPerSec;
            && RecordTime(hdr, l) == sec * SECOND + frac * l.fracNanos
            && 0 <= frac * l.fracNanos < SECOND
  {
    hide ReadUintField;
    var frac := ReadUintField(hdr, l.order.value, l.tsFracOff, l.tsFracWidth) % l.fracPerSec;
    Scaled(frac, l.fracPerSec, l.fracNanos);
  }

  lemma Scaled(frac: nat, perSec: int, nanos: int)
    requires frac < perSec && nanos > 0 && perSec * nanos == SECOND
    ensures 0 <= frac * nanos < SECOND && frac < SECOND
  {
    TimesAtLeast(perSec - frac, nanos);
    Distribute(perSec, frac, nanos);
    TimesAtLeast(nanos, frac);
  }

  lemma Distribute(a: int, b: int, n: int)
    ensures (a - b) * n == a * n - b * n && b * n == n * b
  {
  }

  // ---- the encoding ----

  /** What the kernel captured; header is what it holds before the fields are written, the padding before the frame
      included, and pad what follows the frame up to the next word. Neither need be zero. */
  datatype Captured = Captured(sec: nat, frac: nat, frame: seq<byte>, origLen: nat, header: seq<byte>, pad: seq<byte>)

  predicate Apart(off: nat, n: nat, off': nat, n': nat) { off + n <= off' || off' + n' <= off }

  /** Offset and width of the five fields. */
  function Spans(l: Layout): (r: seq<(nat, nat)>)
    ensures |r| == 5
  {
    [(l.tsSecOff, l.tsSecWidth), (l.tsFracOff, l.tsFracWidth), (l.capLenOff, 4), (l.dataLenOff, 4), (l.hdrLenOff, 2)]
  }

  /** A struct: 4- or 8-byte time fields, and no two fields share a byte. */
  predicate WellFormed(l: Layout) {
    && Usable(l) && HoldsFields(l) && Width(l.tsSecWidth) > 0 && Width(l.tsFracWidth) > 0
    && forall i, j :: 0 <= i < j < 5 ==> Apart(Spans(l)[j].0, Spans(l)[j].1, Spans(l)[i].0, Spans(l)[i].1)
  }

  /** The bytes up to the next record. */
  function PadLen(e: Captured, l: Layout): nat { WordAlign(|e.header| + |e.frame|, l.align) - (|e.header| + |e.frame|) }

  predicate Writable(e: Captured, l: Layout) {
    && e.sec < Pow256(l.tsSecWidth) && e.frac < Pow256(l.tsFracWidth) && |e.frame| <= MAX_SNAP_LEN
    && e.origLen < Pow256(4) && l.minHdrLen <= |e.header| < Pow256(2) && |e.pad| == PadLen(e, l)
  }

  function Write(h: seq<byte>, off: nat, b: seq<byte>): (r: seq<byte>)
    requires off + |b| <= |h|
    ensures |r| == |h| && r[off..off + |b|] == b
  {
    h[..off] + b + h[off + |b|..]
  }

  lemma WriteKeeps(h: seq<byte>, off: nat, b: seq<byte>, o: nat, n: nat)
    requires off + |b| <= |h| && o + n <= |h| && Apart(off, |b|, o, n)
    ensures Write(h, off, b)[o..o + n] == h[o..o + n]
  {
    forall i | o <= i < o + n ensures Write(h, off, b)[i] == h[i] {}
  }

  lemma FrameLenFits(e: Captured, l: Layout)
    requires Writable(e, l)
    ensures |e.frame| < Pow256(4) && |e.header| < 0x1_0000
  {
    Pow256Values();
  }

  datatype Field = Field(off: nat, bytes: seq<byte>)

  function WriteAll(h: seq<byte>, fields: seq<Field>): (r: seq<byte>)
    requires forall i :: 0 <= i < |fields| ==> fields[i].off + |fields[i].bytes| <= |h|
    ensures |r| == |h|
  {
    if fields == [] then h
    else
      var f := fields[|fields| - 1];
      Write(WriteAll(h, fields[..|fields| - 1]), f.off, f.bytes)
  }

  lemma {:induction false} AllRead(h: seq<byte>, fields: seq<Field>, i: nat)
    requires forall i :: 0 <= i < |fields| ==> fields[i].off + |fields[i].bytes| <= |h|
    requires forall i, j :: 0 <= i < j < |fields| ==>
               Apart(fields[j].off, |fields[j].bytes|, fields[i].off, |fields[i].bytes|)
    requires i < |fields|
    ensures WriteAll(h, fields)[fields[i].off..fields[i].off + |fields[i].bytes|] == fields[i].bytes
  {
    hide Write, Apart;
    var n := |fields| - 1;
    if i < n {
      AllRead(h, fields[..n], i);
      WriteKeeps(WriteAll(h, fields[..n]), fields[n].off, fields[n].bytes, fields[i].off, |fields[i].bytes|);
    }
  }

  function Fields(e: Captured, l: Layout): (f: seq<Field>)
    requires WellFormed(l) && Writable(e, l)
    ensures |f| == 5 && forall i :: 0 <= i < 5 ==> f[i].off == Spans(l)[i].0 && |f[i].bytes| == Spans(l)[i].1
  {
    FrameLenFits(e, l);
    var o := l.order.value;
    [Field(l.tsSecOff, Put(e.sec, l.tsSecWidth, o)), Field(l.tsFracOff, Put(e.frac, l.tsFracWidth, o)),
     Field(l.capLenOff, Put(|e.frame|, 4, o)), Field(l.dataLenOff, Put(e.origLen, 4, o)),
     Field(l.hdrLenOff, Put(|e.header|, 2, o))]
  }

  function Header(e: Captured, l: Layout): (h: seq<byte>)
    requires WellFormed(l) && Writable(e, l)
    ensures |h| == |e.header|
  {
    SpansFit(l);
    WriteAll(e.header, Fields(e, l))
  }

  lemma SpansFit(l: Layout)
    requires WellFormed(l)
    ensures forall i :: 0 <= i < 5 ==> Spans(l)[i].0 + Spans(l)[i].1 <= l.minHdrLen
  {}

  /** Every field stands in the header. */
  lemma HeaderField(e: Captured, l: Layout, i: nat)
    requires WellFormed(l) && Writable(e, l) && i < 5
    ensures var f, h := Fields(e, l)[i], Header(e, l);
            f.off + |f.bytes| <= |h| && h[f.off..f.off + |f.bytes|] == f.bytes
  {
    hide Fields, Spans, Apart, WriteAll;
    SpansFit(l);
    AllRead(e.header, Fields(e, l), i);
  }

  function Encode(e: Captured, l: Layout): (b: seq<byte>)
    requires WellFormed(l) && Writable(e, l)
    ensures |b| == |e.header| + |e.frame|
  {
    Header(e, l) + e.frame
  }

  predicate AllWritable(es: seq<Captured>, l: Layout) { forall i :: 0 <= i < |es| ==> Writable(es[i], l) }

  /** Records back to back on word boundaries; of the pad after the last one, only last bytes. */
  function EncodeAll(es: seq<Captured>, l: Layout, last: nat): seq<byte>
    requires WellFormed(l) && AllWritable(es, l)
  {
    if es == [] then []
    else if |es| == 1 then Encode(es[0], l) + es[0].pad[..if last < PadLen(es[0], l) then last else PadLen(es[0], l)]
    else Encode(es[0], l) + es[0].pad + EncodeAll(es[1..], l, last)
  }

  /** What the parser is to return for one capture. */
  function Decoded(e: Captured, l: Layout): Record {
    var frac := if l.fracPerSec > 0 then e.frac % l.fracPerSec else e.frac;
    Record(Int64(e.sec) * SECOND + Int64(Int64(frac) * l.fracNanos), e.frame, e.origLen)
  }

  lemma TimeFieldAt(h: seq<byte>, rest: seq<byte>, off: nat, width: nat, v: nat, o: Endian)
    requires Width(width) > 0 && off + width <= |h| && v < Pow256(width) && h[off..off + width] == Put(v, width, o)
    ensures ReadUintField(h + rest, o, off, width) == v
  {
    hide Put, Uint, Pow256;
    FieldAt(h, rest, off, width);
    PutUint(v, width, o);
  }

  lemma HeaderReads(e: Captured, l: Layout, rest: seq<byte>)
    requires WellFormed(l) && Writable(e, l)
    ensures var hdr := Header(e, l) + rest;
            && CapLen(hdr, l) == |e.frame| && HdrLen(hdr, l) == |e.header|
            && Uint32(hdr[l.dataLenOff..], l.order.value) == e.origLen
            && RecordTime(hdr, l) == Decoded(e, l).ts
  {
    hide Header, Put, Uint, Pow256, Int64, ReadUintField;
    FrameLenFits(e, l);
    HeaderField(e, l, 0);
    HeaderField(e, l, 1);
    HeaderField(e, l, 2);
    HeaderField(e, l, 3);
    HeaderField(e, l, 4);
    var h, o := Header(e, l), l.order.value;
    FieldAt(h, rest, l.capLenOff, 4);
    FieldAt(h, rest, l.dataLenOff, 4);
    FieldAt(h, rest, l.hdrLenOff, 2);
    PutUint(|e.frame|, 4, o);
    PutUint(e.origLen, 4, o);
    PutUint(|e.header|, 2, o);
    TimeFieldAt(h, rest, l.tsSecOff, l.tsSecWidth, e.sec, o);
    TimeFieldAt(h, rest, l.tsFracOff, l.tsFracWidth, e.frac, o);
  }

  /** One encoded record at the end of some bytes is parsed back. */
  lemma HeadReads(pre: seq<byte>, e: Captured, l: Layout, rest: seq<byte>)
    requires WellFormed(l) && Writable(e, l)
    ensures var chunk := pre + (Encode(e, l) + rest);
            && Fault(chunk[|pre|..], l).None?
            && RecordAt(chunk, |pre|, l).record == Decoded(e, l)
            && RecordAt(chunk, |pre|, l).next == |pre| + |Encode(e, l)| + PadLen(e, l)
  {
    hide Header, CapLen, HdrLen, RecordTime, Uint32, WordAlign;
    var chunk := pre + (Encode(e, l) + rest);
    assert chunk[|pre|..] == Header(e, l) + (e.frame + rest);
    HeaderReads(e, l, e.frame + rest);
    assert chunk[|pre| + |e.header|..|pre| + |e.header| + |e.frame|] == e.frame;
  }

  /** Parsing inverts the encoding: every record, in either byte order, with the last pad there, cut or gone. */
  lemma {:induction false} ParseInvertsEncode(pre: seq<byte>, es: seq<Captured>, l: Layout, last: nat)
    requires WellFormed(l) && AllWritable(es, l)
    ensures var w := Walk(pre + EncodeAll(es, l, last), |pre|, l);
            && w.err.None? && |w.placed| == |es|
            && forall i :: 0 <= i < |es| ==> w.placed[i].record == Decoded(es[i], l)
    decreases |es|
  {
    hide Encode, EncodeAll, Walk, RecordAt, Fault, Decoded, PadLen;
    var chunk := pre + EncodeAll(es, l, last);
    EncodeAllStep(es, l, last);
    if es == [] {
      WalkEnd(chunk, |pre|, l);
    } else {
      var rest := EncodeAll(es, l, last)[|Encode(es[0], l)|..];
      HeadReads(pre, es[0], l, rest);
      WalkStep(chunk, |pre|, l);
      var p := RecordAt(chunk, |pre|, l);
      if |es| == 1 {
        WalkEnd(chunk, p.next, l);
      } else {
        var pre' := pre + Encode(es[0], l) + es[0].pad;
        assert chunk == pre' + EncodeAll(es[1..], l, last);
        ParseInvertsEncode(pre', es[1..], l, last);
      }
    }
  }

  lemma EncodeAllStep(es: seq<Captured>, l: Layout, last: nat)
    requires WellFormed(l) && AllWritable(es, l)
    ensures es == [] ==> EncodeAll(es, l, last) == []
    ensures es != [] ==>
              var all, n := EncodeAll(es, l, last), |Encode(es[0], l)|;
              && n <= |all| && n > 0 && all == Encode(es[0], l) + all[n..]
              && (|es| == 1 ==> |all| <= n + PadLen(es[0], l))
              && (|es| > 1 ==> all[n..] == es[0].pad + EncodeAll(es[1..], l, last))
  {
    hide Encode, PadLen;
  }

  /** The same for a whole chunk, as ParseBPFChunk returns it. */
  lemma ChunkRoundTrip(es: seq<Captured>, l: Layout, last: nat)
    requires WellFormed(l) && AllWritable(es, l)
    ensures var w := Walk(EncodeAll(es, l, last), 0, l);
            w.err.None? && Records(w.placed) == seq(|es|, i requires 0 <= i < |es| => Decoded(es[i], l))
  {
    hide Walk, EncodeAll, Decoded;
    assert [] + EncodeAll(es, l, last) == EncodeAll(es, l, last);
    ParseInvertsEncode([], es, l, last);
  }
}
