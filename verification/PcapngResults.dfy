/** Reading inverts the block encoding of one pcapng section (sections 3.1, 4.2, 4.3 and 4.4 of
    draft-ietf-opsawg-pcapng), and where it does not. */
module PcapngResults {
  import opened Bytes
  import opened Common
  import opened Pcapng

  // ---- what a writer puts into a section ----

  /** Padding to a multiple of four may be any bytes. */
  datatype Opt = Opt(code: nat, value: seq<byte>, pad: seq<byte>)

  /** An interface with its options, closed by opt_endofopt or not (there may be none at all), a packet with its
      trailing options, a simple packet (data is what was captured of origLen bytes), or any other block. */
  datatype WBlock =
    | WInterface(link: nat, snapLen: nat, opts: seq<Opt>, terminated: bool)
    | WEnhanced(id: nat, ticks: nat, data: seq<byte>, origLen: nat, pad: seq<byte>, trailer: seq<byte>)
    | WSimple(data: seq<byte>, origLen: nat, pad: seq<byte>)
    | WOther(typ: nat, body: seq<byte>)

  function U16(v: nat, bo: Endian): (b: seq<byte>)
    requires v < 0x1_0000
    ensures |b| == 2
  {
    Pow256Values();
    Put(v, 2, bo)
  }

  function U32(v: nat, bo: Endian): (b: seq<byte>)
    requires v < 0x1_0000_0000
    ensures |b| == 4
  {
    Pow256Values();
    Put(v, 4, bo)
  }

  /** Consecutive 32-bit fields. */
  function Words(vs: seq<nat>, bo: Endian): (b: seq<byte>)
    requires forall i :: 0 <= i < |vs| ==> vs[i] < 0x1_0000_0000
    ensures |b| == 4 * |vs|
  {
    if vs == [] then [] else U32(vs[0], bo) + Words(vs[1..], bo)
  }

  predicate Pads(pad: seq<byte>, b: seq<byte>) { |b| + |pad| == Padded(|b|) }

  /** Type, total length, body, total length again. */
  function Frame(typ: nat, body: seq<byte>, bo: Endian): (b: seq<byte>)
    requires typ < 0x1_0000_0000 && |body| + 12 < 0x1_0000_0000
    ensures |b| == |body| + 12
  {
    U32(typ, bo) + U32(|body| + 12, bo) + body + U32(|body| + 12, bo)
  }

  predicate OptFits(o: Opt) {
    o.code != OPT_END && o.code < 0x1_0000 && |o.value| < 0x1_0000 && Pads(o.pad, o.value)
  }

  predicate OptsFit(opts: seq<Opt>) { forall i :: 0 <= i < |opts| ==> OptFits(opts[i]) }

  function EncodeOpt(o: Opt, bo: Endian): (b: seq<byte>)
    requires OptFits(o)
    ensures |b| == 4 + Padded(|o.value|) && |b| % 4 == 0
  {
    U16(o.code, bo) + U16(|o.value|, bo) + (o.value + o.pad)
  }

  lemma WholeWords(m: nat, n: nat)
    requires m % 4 == 0 && n % 4 == 0
    ensures (m + n) % 4 == 0
  {}

  /** The options, closed by opt_endofopt if terminated and by the end of the block otherwise. */
  function EncodeOpts(opts: seq<Opt>, terminated: bool, bo: Endian): (b: seq<byte>)
    requires OptsFit(opts)
    ensures |b| % 4 == 0
  {
    hide U16, EncodeOpt, Padded;
    if opts == [] then (if terminated then U16(OPT_END, bo) + U16(0, bo) else [])
    else
      WholeWords(|EncodeOpt(opts[0], bo)|, |EncodeOpts(opts[1..], terminated, bo)|);
      EncodeOpt(opts[0], bo) + EncodeOpts(opts[1..], terminated, bo)
  }

  predicate Accepted(o: Opt) {
    o.code == OPT_TSRESOL && |o.value| >= 1 ==> Resolution(o.value[0]) < TWO64
  }

  /** The last if_tsresol option decides. */
  function UnitsOf(opts: seq<Opt>, units: nat): nat {
    if opts == [] then units
    else
      var o := opts[0];
      UnitsOf(opts[1..], if o.code == OPT_TSRESOL && |o.value| >= 1 then Resolution(o.value[0]) else units)
  }

  function Body(b: WBlock, bo: Endian): seq<byte>
    requires Fits(b)
  {
    match b
    case WInterface(link, snapLen, opts, terminated) =>
      U16(link, bo) + U16(0, bo) + U32(snapLen, bo) + EncodeOpts(opts, terminated, bo)
    case WEnhanced(id, ticks, data, origLen, pad, trailer) =>
      Words([id, ticks / 0x1_0000_0000, ticks % 0x1_0000_0000, |data|, origLen], bo) + (data + pad + trailer)
    case WSimple(data, origLen, pad) => U32(origLen, bo) + (data + pad)
    case WOther(_, body) => body
  }

  function Type(b: WBlock): nat {
    match b
    case WInterface(_, _, _, _) => INTERFACE
    case WEnhanced(_, _, _, _, _, _) => ENHANCED
    case WSimple(_, _, _) => SIMPLE
    case WOther(typ, _) => typ
  }

  /** Field widths, and block bodies of whole 32-bit words. */
  predicate Fits(b: WBlock) {
    match b
    case WInterface(link, snapLen, opts, _) =>
      (link == LINK_ETHERNET || link == LINK_RAW) && snapLen < 0x1_0000_0000 && OptsFit(opts) &&
      (forall i :: 0 <= i < |opts| ==> Accepted(opts[i]))
    case WEnhanced(id, ticks, data, origLen, pad, trailer) =>
      id < 0x1_0000_0000 && ticks < TWO64 && |data| <= MAX_SNAP_LEN && origLen < 0x1_0000_0000 && Pads(pad, data) &&
      |trailer| % 4 == 0
    case WSimple(data, origLen, pad) =>
      |data| <= MAX_SNAP_LEN && |data| <= origLen < 0x1_0000_0000 && Pads(pad, data)
    case WOther(typ, body) => typ < 0x1_0000_0000 && typ !in {SECTION, INTERFACE, SIMPLE, ENHANCED} && |body| % 4 == 0
  }

  /** What the reader supports: whole blocks no longer than its cap, and interfaces declared before use. */
  predicate Supported(b: WBlock, bo: Endian, ifaces: seq<Iface>) {
    && Fits(b) && |Body(b, bo)| + 12 <= MAX_BLOCK_LEN
    && match b
       case WInterface(_, _, _, _) => |ifaces| < MAX_INTERFACES
       case WEnhanced(id, _, _, _, _, _) => id < |ifaces|
       case WSimple(data, origLen, _) => ifaces != [] && (origLen == |data| || |data| % 4 == 0)
       case WOther(_, _) => true
  }

  function EncodeBlocks(bs: seq<WBlock>, bo: Endian, ifaces: seq<Iface>): seq<byte>
    requires AllSupported(bs, bo, ifaces)
  {
    if bs == [] then []
    else Frame(Type(bs[0]), Body(bs[0], bo), bo) + EncodeBlocks(bs[1..], bo, Declared(bs[0], ifaces))
  }

  function Declared(b: WBlock, ifaces: seq<Iface>): seq<Iface> {
    if b.WInterface? then ifaces + [Iface(b.link, UnitsOf(b.opts, DEFAULT_UNITS))] else ifaces
  }

  predicate AllSupported(bs: seq<WBlock>, bo: Endian, ifaces: seq<Iface>)
    decreases |bs|
  {
    bs == [] || (Supported(bs[0], bo, ifaces) && AllSupported(bs[1..], bo, Declared(bs[0], ifaces)))
  }

  /** The packets of a section, as the draft means them. */
  function Packets(bs: seq<WBlock>, bo: Endian, ifaces: seq<Iface>): seq<Packet>
    requires AllSupported(bs, bo, ifaces)
  {
    if bs == [] then []
    else
      var rest := Packets(bs[1..], bo, Declared(bs[0], ifaces));
      match bs[0]
      case WEnhanced(id, ticks, data, _, _, _) =>
        [Packet(data, ifaces[id].link, Some(PacketTime(ticks, ifaces[id].unitsPerSec)))] + rest
      case WSimple(data, _, _) => [Packet(data, ifaces[0].link, None)] + rest
      case _ => rest
  }

  // ---- fields and options read back ----

  lemma Read16(pre: seq<byte>, v: nat, rest: seq<byte>, bo: Endian)
    requires v < 0x1_0000
    ensures Uint16((pre + U16(v, bo) + rest)[|pre|..], bo) == v
  {
    hide Uint, Put, Pow256;
    Pow256Values();
    var b := U16(v, bo);
    assert (pre + b + rest)[|pre|..][..2] == b;
    PutUint(v, 2, bo);
  }

  lemma Read32(pre: seq<byte>, v: nat, rest: seq<byte>, bo: Endian)
    requires v < 0x1_0000_0000
    ensures Uint32((pre + U32(v, bo) + rest)[|pre|..], bo) == v
  {
    hide Uint, Put, Pow256;
    Pow256Values();
    var b := U32(v, bo);
    assert (pre + b + rest)[|pre|..][..4] == b;
    PutUint(v, 4, bo);
  }

  lemma OptionParts(o: Opt, rest: seq<byte>, bo: Endian)
    requires OptFits(o)
    ensures EncodeOpt(o, bo) + rest == U16(o.code, bo) + (U16(|o.value|, bo) + (o.value + (o.pad + rest)))
  {
    hide U16, Padded, Pads;
  }

  lemma TwoFields(pre: seq<byte>, code: nat, len: nat, tail: seq<byte>, bo: Endian)
    requires code < 0x1_0000 && len < 0x1_0000
    ensures var b := pre + (U16(code, bo) + (U16(len, bo) + tail));
            && |b| == |pre| + 4 + |tail| && b[|pre| + 4..] == tail
            && Uint16(b[|pre|..], bo) == code && Uint16(b[|pre| + 2..], bo) == len
  {
    hide Uint16, U16;
    var c, l := U16(code, bo), U16(len, bo);
    var b := pre + (c + (l + tail));
    assert b == pre + c + (l + tail);
    Read16(pre, code, l + tail, bo);
    assert b == (pre + c) + l + tail;
    Read16(pre + c, len, tail, bo);
  }

  /** The fields of one option, wherever it stands. */
  lemma OptionRead(pre: seq<byte>, o: Opt, rest: seq<byte>, bo: Endian)
    requires OptFits(o)
    ensures var b := pre + (EncodeOpt(o, bo) + rest);
            && Uint16(b[|pre|..], bo) == o.code && Uint16(b[|pre| + 2..], bo) == |o.value|
            && |pre| + 4 + |o.value| <= |b| && (o.value != [] ==> b[|pre| + 4] == o.value[0])
  {
    hide Uint16, U16, Padded, Pads, EncodeOpt;
    var b, tail := pre + (EncodeOpt(o, bo) + rest), o.value + (o.pad + rest);
    OptionParts(o, rest, bo);
    TwoFields(pre, o.code, |o.value|, tail, bo);
    assert b == pre + (U16(o.code, bo) + (U16(|o.value|, bo) + tail));
    if o.value != [] {
      assert b[|pre| + 4] == b[|pre| + 4..][0] == tail[0];
    }
  }

  lemma OptionsStep(b: seq<byte>, off: nat, bo: Endian, units: nat, o: Opt)
    requires off + 4 + |o.value| <= |b| && OptFits(o) && Accepted(o)
    requires Uint16(b[off..], bo) == o.code && Uint16(b[off + 2..], bo) == |o.value|
    requires o.value != [] ==> b[off + 4] == o.value[0]
    ensures Options(b, off, bo, units) ==
            Options(b, off + 4 + Padded(|o.value|), bo,
                    if o.code == OPT_TSRESOL && |o.value| >= 1 then Resolution(o.value[0]) else units)
  {
    hide Uint16, Resolution, Padded;
  }

  lemma OptionsEnd(pre: seq<byte>, terminated: bool, bo: Endian, units: nat)
    ensures Options(pre + EncodeOpts([], terminated, bo), |pre|, bo, units) == Ok(units)
  {
    hide Uint16, U16, Resolution, Padded;
    if terminated {
      Read16(pre, OPT_END, U16(0, bo), bo);
      assert pre + EncodeOpts([], terminated, bo) == pre + U16(OPT_END, bo) + U16(0, bo);
    }
  }

  lemma {:induction false} OptionsRead(pre: seq<byte>, opts: seq<Opt>, terminated: bool, bo: Endian, units: nat)
    requires OptsFit(opts) && forall i :: 0 <= i < |opts| ==> Accepted(opts[i])
    ensures Options(pre + EncodeOpts(opts, terminated, bo), |pre|, bo, units) == Ok(UnitsOf(opts, units))
    decreases |opts|
  {
    hide Uint16, EncodeOpt, Resolution, Padded, Options, Accepted, OptFits;
    if opts == [] {
      OptionsEnd(pre, terminated, bo, units);
    } else {
      var o, rest := opts[0], EncodeOpts(opts[1..], terminated, bo);
      var b := pre + (EncodeOpt(o, bo) + rest);
      OptionRead(pre, o, rest, bo);
      OptionsStep(b, |pre|, bo, units, o);
      var pre' := pre + EncodeOpt(o, bo);
      assert b == pre' + rest;
      var units' := if o.code == OPT_TSRESOL && |o.value| >= 1 then Resolution(o.value[0]) else units;
      OptionsRead(pre', opts[1..], terminated, bo, units');
    }
  }

  // ---- bodies read back ----

  lemma InterfaceRead(b: WBlock, bo: Endian, n: nat)
    requires Fits(b) && b.WInterface? && n < MAX_INTERFACES
    ensures Interface(Body(b, bo), bo, n) == Ok(Iface(b.link, UnitsOf(b.opts, DEFAULT_UNITS)))
  {
    hide Uint16, U16, U32, EncodeOpts, UnitsOf, Options;
    var opts := EncodeOpts(b.opts, b.terminated, bo);
    var head := U16(b.link, bo) + U16(0, bo) + U32(b.snapLen, bo);
    assert Body(b, bo) == head + opts == [] + U16(b.link, bo) + (U16(0, bo) + U32(b.snapLen, bo) + opts);
    Read16([], b.link, U16(0, bo) + U32(b.snapLen, bo) + opts, bo);
    OptionsRead(head, b.opts, b.terminated, bo, DEFAULT_UNITS);
    assert Body(b, bo)[0..] == Body(b, bo);
  }

  /** The four fields that are read, and the packet after them. */
  lemma EnhancedFields(b: WBlock, bo: Endian)
    requires Fits(b) && b.WEnhanced?
    ensures var body := Body(b, bo);
            && |body| >= 20 + |b.data| && body[20..20 + |b.data|] == b.data
            && Uint32(body, bo) == b.id && Uint32(body[12..], bo) == |b.data|
            && Uint32(body[4..], bo) == b.ticks / 0x1_0000_0000 && Uint32(body[8..], bo) == b.ticks % 0x1_0000_0000
  {
    hide Uint32, U32, Padded, Words;
    var vs := [b.id, b.ticks / 0x1_0000_0000, b.ticks % 0x1_0000_0000, |b.data|, b.origLen];
    var tail := b.data + b.pad + b.trailer;
    var body := Words(vs, bo) + tail;
    WordRead(vs, tail, bo, 0);
    WordRead(vs, tail, bo, 1);
    WordRead(vs, tail, bo, 2);
    WordRead(vs, tail, bo, 3);
    assert body[0..] == body;
    assert body[20..] == tail;
    assert tail[..|b.data|] == b.data;
  }

  lemma {:induction false} WordRead(vs: seq<nat>, tail: seq<byte>, bo: Endian, i: nat)
    requires (forall i :: 0 <= i < |vs| ==> vs[i] < 0x1_0000_0000) && i < |vs|
    ensures 4 * i + 4 <= |Words(vs, bo) + tail| && Uint32((Words(vs, bo) + tail)[4 * i..], bo) == vs[i]
  {
    hide Uint32, U32;
    var rest := Words(vs[1..], bo) + tail;
    assert Words(vs, bo) + tail == [] + U32(vs[0], bo) + rest;
    if i == 0 {
      Read32([], vs[0], rest, bo);
    } else {
      WordRead(vs[1..], tail, bo, i - 1);
      assert (Words(vs, bo) + tail)[4 * i..] == rest[4 * (i - 1)..];
    }
  }

  lemma EnhancedRead(b: WBlock, bo: Endian, ifaces: seq<Iface>)
    requires Fits(b) && b.WEnhanced? && b.id < |ifaces|
    ensures Enhanced(Body(b, bo), bo, ifaces) ==
            Ok(Packet(b.data, ifaces[b.id].link, Some(PacketTime(b.ticks, ifaces[b.id].unitsPerSec))))
  {
    hide Uint32, Body, PacketTime;
    EnhancedFields(b, bo);
  }

  /** Without the snapshot length the reader cannot tell padding from data. */
  lemma SimpleRead(b: WBlock, bo: Endian, ifaces: seq<Iface>)
    requires Fits(b) && b.WSimple? && ifaces != []
    ensures var n := if b.origLen > Padded(|b.data|) then Padded(|b.data|) else b.origLen;
            n <= MAX_SNAP_LEN &&
            Simple(Body(b, bo), bo, ifaces) == Ok(Packet((b.data + b.pad)[..n], ifaces[0].link, None))
  {
    hide Uint32, U32;
    var body := Body(b, bo);
    assert body == [] + U32(b.origLen, bo) + (b.data + b.pad);
    Read32([], b.origLen, b.data + b.pad, bo);
    assert body[0..] == body;
    var n := if b.origLen > Padded(|b.data|) then Padded(|b.data|) else b.origLen;
    assert body[4..4 + n] == (b.data + b.pad)[..n];
  }

  /** A simple packet reads back as what was captured exactly when it was not cut, or was cut at a multiple of
      four bytes; otherwise the reader returns padding as data. */
  lemma SimpleReadIff(b: WBlock, bo: Endian, ifaces: seq<Iface>)
    requires Fits(b) && b.WSimple? && ifaces != []
    ensures Simple(Body(b, bo), bo, ifaces) == Ok(Packet(b.data, ifaces[0].link, None)) <==>
            b.origLen == |b.data| || |b.data| % 4 == 0
  {
    hide Simple, Body;
    SimpleRead(b, bo, ifaces);
    var n := if b.origLen > Padded(|b.data|) then Padded(|b.data|) else b.origLen;
    assert (b.data + b.pad)[..|b.data|] == b.data;
    assert |(b.data + b.pad)[..n]| == n;
  }

  // ---- the section ----

  lemma FrameRead(typ: nat, body: seq<byte>, bo: Endian, left: seq<byte>)
    requires typ < 0x1_0000_0000 && |body| % 4 == 0 && |body| + 12 <= MAX_BLOCK_LEN
    ensures ReadBlock(Frame(typ, body, bo) + left, bo) == Block(typ, body, left)
  {
    hide Uint32, U32;
    var total := |body| + 12;
    var t, n := U32(typ, bo), U32(total, bo);
    var rest := Frame(typ, body, bo) + left;
    assert rest == [] + t + (n + body + n + left);
    Read32([], typ, n + body + n + left, bo);
    assert rest == t + n + (body + n + left);
    Read32(t, total, body + n + left, bo);
    assert rest == (t + n + body) + n + left;
    Read32(t + n + body, total, left, bo);
    assert rest[0..] == rest && rest[8..total - 4] == body && rest[total..] == left;
  }

  lemma WordPut(b: seq<byte>, off: nat, bo: Endian)
    requires off + 4 <= |b|
    ensures b[off..off + 4] == U32(Uint32(b[off..], bo), bo)
  {
    hide Uint, Put, Pow256;
    Pow256Values();
    assert b[off..][..4] == b[off..off + 4];
    UintPut(b[off..off + 4], bo);
  }

  /** Exactly the frames of whole words within the cap are blocks: whatever the reader takes for a block is one. */
  lemma BlockReadIff(rest: seq<byte>, bo: Endian, typ: nat, body: seq<byte>, left: seq<byte>)
    ensures ReadBlock(rest, bo) == Block(typ, body, left) <==>
            && typ < 0x1_0000_0000 && |body| % 4 == 0 && |body| + 12 <= 0x50000
            && rest == Frame(typ, body, bo) + left
    ensures ReadBlock(rest, bo) == Eof <==> rest == []
  {
    hide Uint32, Frame;
    if typ < 0x1_0000_0000 && |body| % 4 == 0 && |body| + 12 <= MAX_BLOCK_LEN && rest == Frame(typ, body, bo) + left {
      FrameRead(typ, body, bo, left);
    }
    if ReadBlock(rest, bo) == Block(typ, body, left) {
      BlockIsFrame(rest, bo);
    }
  }

  lemma BlockIsFrame(rest: seq<byte>, bo: Endian)
    requires ReadBlock(rest, bo).Block?
    ensures var b := ReadBlock(rest, bo);
            && b.typ < 0x1_0000_0000 && |b.body| % 4 == 0 && |b.body| + 12 <= MAX_BLOCK_LEN
            && rest == Frame(b.typ, b.body, bo) + b.left
  {
    hide Uint32, U32;
    var total := Uint32(rest[4..], bo);
    WordPut(rest, 0, bo);
    WordPut(rest, 4, bo);
    WordPut(rest, total - 4, bo);
    assert rest[0..] == rest;
    assert rest == rest[0..4] + rest[4..8] + rest[8..total - 4] + rest[total - 4..total] + rest[total..];
  }

  /** At most 256 interfaces, of the two link types, with a scale that a uint64 holds. */
  predicate Sane(s: State) {
    |s.ifaces| <= 256 &&
    forall i :: 0 <= i < |s.ifaces| ==> s.ifaces[i].link in {1, 101} && s.ifaces[i].unitsPerSec < TWO64
  }

  /** However many interface blocks a section has. */
  lemma {:induction false} NextSane(s: State)
    requires Sane(s)
    ensures Sane(Next(s).1)
    decreases |s.rest|
  {
    hide ReadBlock, Interface, Enhanced, Simple;
    var r := ReadBlock(s.rest, s.bo);
    if r.Block? && r.typ != SECTION && r.typ != ENHANCED && r.typ != SIMPLE {
      var i := Interface(r.body, s.bo, |s.ifaces|);
      InterfaceSane(r.body, s.bo, |s.ifaces|);
      if r.typ != INTERFACE {
        NextSane(s.(rest := r.left));
      } else if i.Ok? {
        NextSane(s.(rest := r.left, ifaces := s.ifaces + [i.value]));
      }
    }
  }

  lemma InterfaceSane(b: seq<byte>, bo: Endian, n: nat)
    ensures var i := Interface(b, bo, n);
            i.Ok? ==> n < 256 && i.value.link in {1, 101} && i.value.unitsPerSec < TWO64
  {
    hide Options, Uint16;
    if |b| >= 8 {
      OptionsBelow(b, 8, bo, DEFAULT_UNITS);
    }
  }

  lemma {:induction false} OptionsBelow(b: seq<byte>, off: nat, bo: Endian, units: nat)
    requires units < TWO64
    ensures var r := Options(b, off, bo, units);
            r.Ok? ==> r.value < TWO64
    decreases |b| - off
  {
    hide Resolution, Uint16;
    if off + 4 <= |b| {
      var next := off + 4 + Padded(Uint16(b[off + 2..], bo));
      OptionsBelow(b, next, bo, units);
      if off + 4 < |b| && Resolution(b[off + 4]) < TWO64 {
        OptionsBelow(b, next, bo, Resolution(b[off + 4]));
      }
    }
  }

  /** How a frame begins. */
  lemma TypeBytes(b: WBlock)
    requires Fits(b)
    ensures b.WInterface? ==> U32(Type(b), Big) == [0, 0, 0, 1]
    ensures b.WSimple? ==> U32(Type(b), Big) == [0, 0, 0, 3]
    ensures b.WEnhanced? ==> U32(Type(b), Big) == [0, 0, 0, 6]
  {
    if !b.WOther? {
      PutFour(Type(b), Big);
    }
  }

  datatype Section = Section(packets: seq<Packet>, error: Option<NgError>)

  /** What a caller gets that asks for packets until there are no more. */
  function ReadAll(s: State): Section
    decreases |s.rest|
  {
    var (o, s') := Next(s);
    match o
    case End => Section([], None)
    case Failed(e) => Section([], Some(e))
    case Got(p) =>
      var more := ReadAll(s');
      Section([p] + more.packets, more.error)
  }

  lemma BodyWhole(b: WBlock, bo: Endian)
    requires Fits(b)
    ensures |Body(b, bo)| % 4 == 0 && Type(b) < 0x1_0000_0000
  {
    hide U16, U32, EncodeOpts;
  }

  /** One block of the section. */
  lemma OneBlock(b: WBlock, bo: Endian, ifaces: seq<Iface>, left: seq<byte>)
    requires Supported(b, bo, ifaces)
    ensures var s := State(Frame(Type(b), Body(b, bo), bo) + left, bo, ifaces);
            var s' := State(left, bo, Declared(b, ifaces));
            match b
            case WEnhanced(id, ticks, data, _, _, _) =>
              Next(s) == (Got(Packet(data, ifaces[id].link, Some(PacketTime(ticks, ifaces[id].unitsPerSec)))), s')
            case WSimple(data, _, _) => Next(s) == (Got(Packet(data, ifaces[0].link, None)), s')
            case _ => Next(s) == Next(s')
  {
    hide ReadBlock, Frame, Body, Interface, Enhanced, Simple, UnitsOf, PacketTime;
    BodyWhole(b, bo);
    FrameRead(Type(b), Body(b, bo), bo, left);
    match b
    case WInterface(_, _, _, _) => InterfaceRead(b, bo, |ifaces|);
    case WEnhanced(_, _, _, _, _, _) => EnhancedRead(b, bo, ifaces);
    case WSimple(_, _, _) => SimpleReadIff(b, bo, ifaces);
    case WOther(_, _) =>
  }

  /** Reading a section gives back its packets in order, with unknown blocks skipped. */
  lemma {:induction false} ReadInvertsEncode(bs: seq<WBlock>, bo: Endian, ifaces: seq<Iface>)
    requires AllSupported(bs, bo, ifaces)
    ensures ReadAll(State(EncodeBlocks(bs, bo, ifaces), bo, ifaces)) == Section(Packets(bs, bo, ifaces), None)
    decreases |bs|
  {
    hide Frame, Body, Next, Supported, Declared, PacketTime;
    if bs == [] {
      NothingLeft(bo, ifaces);
    } else {
      var ifaces' := Declared(bs[0], ifaces);
      var left := EncodeBlocks(bs[1..], bo, ifaces');
      OneBlock(bs[0], bo, ifaces, left);
      ReadInvertsEncode(bs[1..], bo, ifaces');
    }
  }

  lemma NothingLeft(bo: Endian, ifaces: seq<Iface>)
    ensures Next(State([], bo, ifaces)) == (End, State([], bo, ifaces))
  {}

  // ---- the section header ----

  /** version, section length and options, as the bytes body after the magic. */
  function EncodeHeader(bo: Endian, body: seq<byte>): seq<byte>
    requires |body| + 16 < 0x1_0000_0000
  {
    Frame(SECTION, U32(BYTE_ORDER_MAGIC, bo) + body, bo)
  }

  lemma SymmetricType(bo: Endian)
    ensures U32(SECTION, bo) == U32(SECTION, Big) == [0x0A, 0x0D, 0x0D, 0x0A]
  {
    Pow256Values();
    PutFour(SECTION, Big);
    PutFour(SECTION, Little);
  }

  lemma PutFour(v: nat, bo: Endian)
    requires v < 0x1_0000_0000
    ensures var b := [(v / 0x100_0000) as byte, (v / 0x1_0000 % 256) as byte,
                      (v / 256 % 256) as byte, (v % 256) as byte];
            U32(v, bo) == if bo == Big then b else [b[3], b[2], b[1], b[0]]
  {
    Pow256Values();
    var v1, v2, v3 := v / 256, v / 256 / 256, v / 256 / 256 / 256;
    assert v3 == v / 0x100_0000 && v2 == v / 0x1_0000;
    assert Put(v3, 1, bo) == [v3 as byte] by { assert v3 % 256 == v3; }
    assert Put(v2, 2, bo) == if bo == Big then [v3 as byte, (v2 % 256) as byte] else [(v2 % 256) as byte, v3 as byte];
    assert Put(v1, 3, bo) ==
           if bo == Big then Put(v2, 2, bo) + [(v1 % 256) as byte] else [(v1 % 256) as byte] + Put(v2, 2, bo);
  }

  /** The three words and the trailing length of a header. */
  lemma HeaderWords(bo: Endian, body: seq<byte>, left: seq<byte>)
    requires |body| + 16 <= MAX_BLOCK_LEN
    ensures var input, total := EncodeHeader(bo, body) + left, |body| + 16;
            && |input| >= total && Uint32(input, bo) == SECTION && Uint32(input[4..], bo) == total
            && Uint32(input[8..], bo) == BYTE_ORDER_MAGIC && Uint32(input[total - 4..], bo) == total
            && input[total..] == left
            && input == U32(SECTION, bo) + U32(total, bo) + U32(BYTE_ORDER_MAGIC, bo) + (body + U32(total, bo) + left)
  {
    hide Uint32, U32;
    var total := |body| + 16;
    var vs, n := [SECTION, total, BYTE_ORDER_MAGIC], U32(total, bo);
    var tail := body + n + left;
    var input := EncodeHeader(bo, body) + left;
    assert Words(vs[2..], bo) == U32(vs[2], bo) + [];
    assert Words(vs[1..], bo) == U32(vs[1], bo) + Words(vs[2..], bo) by { assert vs[1..][1..] == vs[2..]; }
    assert input == Words(vs, bo) + tail;
    WordRead(vs, tail, bo, 0);
    WordRead(vs, tail, bo, 1);
    WordRead(vs, tail, bo, 2);
    assert input[0..] == input;
    var pre := Words(vs, bo) + body;
    assert input == pre + n + left;
    Read32(pre, total, left, bo);
  }

  /** The header fixes the byte order it was written in. */
  lemma HeaderRead(bo: Endian, body: seq<byte>, left: seq<byte>)
    requires |body| >= 12 && |body| % 4 == 0 && |body| + 16 <= MAX_BLOCK_LEN
    ensures OpenSection(EncodeHeader(bo, body) + left) == Ok(State(left, bo, []))
  {
    hide Uint32, U32, EncodeHeader;
    var total := |body| + 16;
    var input := EncodeHeader(bo, body) + left;
    HeaderWords(bo, body, left);
    SymmetricType(bo);
    SameWord(input);
    OtherOrder(U32(SECTION, bo) + U32(total, bo), body + U32(total, bo) + left);
  }

  /** The block type reads the same in either order. */
  lemma SameWord(input: seq<byte>)
    requires |input| >= 4 && input[..4] == [0x0A, 0x0D, 0x0D, 0x0A]
    ensures Uint32(input, Big) == SECTION
  {
    hide Uint, Put;
    Pow256Values();
    SymmetricType(Big);
    PutUint(SECTION, 4, Big);
  }

  /** The magic read in the wrong order is not the magic. */
  lemma OtherOrder(pre: seq<byte>, rest: seq<byte>)
    ensures Uint32((pre + U32(BYTE_ORDER_MAGIC, Big) + rest)[|pre|..], Little) != BYTE_ORDER_MAGIC
  {
    PutFour(BYTE_ORDER_MAGIC, Big);
    var b := U32(BYTE_ORDER_MAGIC, Big);
    assert b == [0x1A, 0x2B, 0x3C, 0x4D];
    assert (pre + b + rest)[|pre|..][..4] == b;
    assert Uint(b, Little) == 0x1A + 256 * Uint(b[1..], Little);
  }

  /** A whole file: header and blocks, in either byte order. */
  lemma SectionRoundTrip(bo: Endian, body: seq<byte>, bs: seq<WBlock>)
    requires |body| >= 12 && |body| % 4 == 0 && |body| + 16 <= MAX_BLOCK_LEN && AllSupported(bs, bo, [])
    ensures var r := OpenSection(EncodeHeader(bo, body) + EncodeBlocks(bs, bo, []));
            r.Ok? && ReadAll(r.value) == Section(Packets(bs, bo, []), None)
  {
    hide EncodeHeader, EncodeBlocks, OpenSection, ReadAll, Packets, AllSupported;
    HeaderRead(bo, body, EncodeBlocks(bs, bo, []));
    ReadInvertsEncode(bs, bo, []);
  }
}
