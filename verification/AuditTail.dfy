/** The backwards chunked read of the audit log (internal/audit/read.go). The bytes of the file, the JSON
    decoding of one line and the filter are parameters. */
module AuditTail {
  import opened Bytes
  import opened Common

  const NEWLINE: byte := 10
  const DEFAULT_TAIL := 100
  const MAX_TAIL := 1000
  const MAX_SCAN_BYTES := 8388608

  // ---- the simple reader: split into lines, newest first, decode, filter, take n ----

  /** The pieces between newlines: one more than there are newlines. */
  function Split(text: seq<byte>): (lines: seq<seq<byte>>)
    ensures |lines| > 0
  {
    if text == [] then [[]]
    else if text[0] == NEWLINE then [[]] + Split(text[1..])
    else
      var rest := Split(text[1..]);
      [[text[0]] + rest[0]] + rest[1..]
  }

  function Join(lines: seq<seq<byte>>): seq<byte>
    requires |lines| > 0
  {
    if |lines| == 1 then lines[0] else lines[0] + [NEWLINE] + Join(lines[1..])
  }

  function Reverse<T>(s: seq<T>): (r: seq<T>)
    ensures |r| == |s|
  {
    if s == [] then [] else [s[|s| - 1]] + Reverse(s[..|s| - 1])
  }

  function Records<R>(lines: seq<seq<byte>>, decode: seq<byte> -> Option<R>, wanted: R -> bool): seq<R> {
    if lines == [] then []
    else Picked(lines[0], decode, wanted) + Records(lines[1..], decode, wanted)
  }

  function Picked<R>(line: seq<byte>, decode: seq<byte> -> Option<R>, wanted: R -> bool): (r: seq<R>)
    ensures |r| <= 1
  {
    var rec := decode(line);
    if rec.Some? && wanted(rec.value) then [rec.value] else []
  }

  function Take<T>(s: seq<T>, n: nat): (r: seq<T>)
    ensures |r| <= n
  {
    if |s| <= n then s else s[..n]
  }

  /** The earliest offset a read may touch: the window is the whole file or its last 8 MiB. */
  function Floor(size: nat): (floor: nat)
    ensures floor <= size && size - floor <= 8 * 1024 * 1024
    ensures floor > 0 ==> size - floor == 8 * 1024 * 1024
  {
    if size > MAX_SCAN_BYTES then size - MAX_SCAN_BYTES else 0
  }

  /** The lines a read may return: those that lie whole in the window, so that the fragment before the
      first newline is dropped exactly when the window does not start at offset 0. */
  function Visible(file: seq<byte>): seq<seq<byte>> {
    var lines := Split(file[Floor(|file|)..]);
    if Floor(|file|) == 0 then lines else lines[1..]
  }

  function Limit(n: int): (r: nat)
    ensures 1 <= r <= MAX_TAIL
    ensures n <= 0 ==> r == 100
    ensures 1 <= n <= 1000 ==> r == n
    ensures n > 1000 ==> r == 1000
  {
    if n <= 0 then DEFAULT_TAIL else if n > MAX_TAIL then MAX_TAIL else n
  }

  function SimpleTail<R>(file: seq<byte>, n: int, decode: seq<byte> -> Option<R>, wanted: R -> bool): seq<R> {
    if file == [] then [] else Take(Records(Reverse(Visible(file)), decode, wanted), Limit(n))
  }

  // ---- Split is splitting ----

  /** Split cuts at the newlines and nowhere else. */
  lemma {:induction false} SplitInvertsJoin(text: seq<byte>)
    ensures Join(Split(text)) == text
    ensures forall i :: 0 <= i < |Split(text)| ==> NEWLINE !in Split(text)[i]
  {
    if text != [] {
      SplitInvertsJoin(text[1..]);
      var rest := Split(text[1..]);
      if text[0] != NEWLINE {
        var head := [text[0]] + rest[0];
        if |rest| > 1 {
          assert ([head] + rest[1..])[1..] == rest[1..];
          assert head + [NEWLINE] + Join(rest[1..]) == [text[0]] + (rest[0] + [NEWLINE] + Join(rest[1..]));
        }
      } else {
        assert ([[]] + rest)[1..] == rest;
      }
    }
  }

  /** The other way round: Split is the only such cut. */
  lemma {:induction false} JoinInvertsSplit(lines: seq<seq<byte>>)
    requires |lines| > 0 && forall i :: 0 <= i < |lines| ==> NEWLINE !in lines[i]
    ensures Split(Join(lines)) == lines
    decreases |lines|, |lines[0]|
  {
    var text := Join(lines);
    if lines[0] != [] {
      var shorter := [lines[0][1..]] + lines[1..];
      JoinInvertsSplit(shorter);
      if |lines| > 1 {
        assert shorter[1..] == lines[1..];
        assert text[1..] == lines[0][1..] + [NEWLINE] + Join(lines[1..]);
      }
      assert Join(shorter) == text[1..];
      assert Split(text) == [[text[0]] + lines[0][1..]] + lines[1..];
      assert [text[0]] + lines[0][1..] == lines[0];
    } else if |lines| > 1 {
      JoinInvertsSplit(lines[1..]);
      assert text[1..] == Join(lines[1..]);
      assert [[]] + lines[1..] == lines;
    } else {
      assert lines == [[]];
    }
  }

  /** Cutting at the last newline takes off the last line. */
  lemma {:induction false} SplitAtLast(text: seq<byte>, i: nat)
    requires i < |text| && text[i] == NEWLINE
    requires forall k :: i < k < |text| ==> text[k] != NEWLINE
    ensures Split(text) == Split(text[..i]) + [text[i + 1..]]
  {
    if i == 0 {
      SplitOneLine(text[1..]);
    } else {
      assert text[1..][i..] == text[i + 1..];
      assert text[1..][i - 1] == NEWLINE;
      SplitAtLast(text[1..], i - 1);
      assert text[1..][..i - 1] == text[..i][1..];
    }
  }

  lemma {:induction false} SplitOneLine(text: seq<byte>)
    requires forall k :: 0 <= k < |text| ==> text[k] != NEWLINE
    ensures Split(text) == [text]
  {
    if text != [] {
      SplitOneLine(text[1..]);
      assert [text[0]] + text[1..] == text;
    }
  }

  // ---- reading from the back ----

  function LastNewline(text: seq<byte>): (i: int)
    ensures -1 <= i < |text|
    ensures i >= 0 ==> text[i] == NEWLINE
    ensures forall k :: i < k < |text| ==> text[k] != NEWLINE
  {
    if text == [] then -1
    else if text[|text| - 1] == NEWLINE then |text| - 1
    else LastNewline(text[..|text| - 1])
  }

  /** The rest of a read: whole says whether the first piece of the text is a line of its own. */
  function Gather<R>(text: seq<byte>, whole: bool, out: seq<R>, n: nat,
                     decode: seq<byte> -> Option<R>, wanted: R -> bool): seq<R>
    decreases |text|
  {
    if |out| >= n then out
    else
      var i := LastNewline(text);
      if i < 0 then (if whole then out + Picked(text, decode, wanted) else out)
      else Gather(text[..i], whole, out + Picked(text[i + 1..], decode, wanted), n, decode, wanted)
  }

  lemma {:induction false} GatherIsSimple<R>(text: seq<byte>, whole: bool, out: seq<R>, n: nat,
                                             decode: seq<byte> -> Option<R>, wanted: R -> bool)
    requires |out| <= n
    ensures var lines := if whole then Split(text) else Split(text)[1..];
            Gather(text, whole, out, n, decode, wanted) == Take(out + Records(Reverse(lines), decode, wanted), n)
    decreases |text|
  {
    hide Split, Reverse, Records, Picked, LastNewline, Gather;
    var lines := if whole then Split(text) else Split(text)[1..];
    var i := LastNewline(text);
    if |out| < n {
      GatherStep(text, whole, out, n, decode, wanted);
      if i >= 0 {
        var older := if whole then Split(text[..i]) else Split(text[..i])[1..];
        var line := text[i + 1..];
        SplitAtLast(text, i);
        assert lines == older + [line];
        Newest(older, line, decode, wanted);
        var picked := Picked(line, decode, wanted);
        GatherIsSimple(text[..i], whole, out + picked, n, decode, wanted);
        var rest := Records(Reverse(older), decode, wanted);
        assert out + (picked + rest) == out + picked + rest;
      } else {
        SplitOneLine(text);
        Newest([], text, decode, wanted);
        assert [] + [text] == [text];
        NoRecords(decode, wanted);
      }
    } else {
      GatherFull(text, whole, out, n, decode, wanted);
    }
  }

  lemma GatherFull<R>(text: seq<byte>, whole: bool, out: seq<R>, n: nat,
                      decode: seq<byte> -> Option<R>, wanted: R -> bool)
    requires |out| >= n
    ensures Gather(text, whole, out, n, decode, wanted) == out
  {}

  lemma NoRecords<R>(decode: seq<byte> -> Option<R>, wanted: R -> bool)
    ensures Records(Reverse([]), decode, wanted) == []
  {}

  lemma Newest<R>(older: seq<seq<byte>>, line: seq<byte>, decode: seq<byte> -> Option<R>, wanted: R -> bool)
    ensures Records(Reverse(older + [line]), decode, wanted) ==
            Picked(line, decode, wanted) + Records(Reverse(older), decode, wanted)
  {
    assert (older + [line])[..|older|] == older;
    assert ([line] + Reverse(older))[1..] == Reverse(older);
  }

  /** One backwards read: None is a file that does not exist. The result does not mention the chunk size. */
  method Tail<R>(file: Option<seq<byte>>, n: int, chunk: nat, decode: seq<byte> -> Option<R>, wanted: R -> bool)
    returns (out: seq<R>)
    requires chunk > 0
    ensures out == if file.Some? then SimpleTail(file.value, n, decode, wanted) else []
    ensures if file.Some? && file.value != [] then IsTail(file.value, n, out, decode, wanted) else out == []
  {
    hide Gather, Split, Reverse, Records, Picked, LastNewline, IsTail;
    var limit := n;
    if limit <= 0 {
      limit := DEFAULT_TAIL;
    }
    if limit > MAX_TAIL {
      limit := MAX_TAIL;
    }
    out := [];
    if file.None? || file.value == [] {
      return;
    }
    var data := file.value;
    var floor := 0;
    if |data| > MAX_SCAN_BYTES {
      floor := |data| - MAX_SCAN_BYTES;
    }
    out := Scan(data, floor, limit, chunk, decode, wanted);
    GatherIsSimple(data[floor..], floor == 0, [], limit, decode, wanted);
    SimpleTailIs(data, n, decode, wanted);
  }

  /** The backwards walk from the end of the file to floor. */
  method Scan<R>(data: seq<byte>, floor: nat, limit: nat, chunk: nat, decode: seq<byte> -> Option<R>, wanted: R -> bool)
    returns (out: seq<R>)
    requires chunk > 0 && limit > 0 && floor <= |data|
    ensures out == Gather(data[floor..], floor == 0, [], limit, decode, wanted)
  {
    hide Gather, LastNewline, Picked;
    out := [];
    var pos, carry := |data|, [];
    assert data[floor..] == data[floor..pos] + carry;
    while pos > floor && |out| < limit
      invariant floor <= pos <= |data| && |out| <= limit
      invariant |out| == limit || LastNewline(carry) < 0
      invariant Gather(data[floor..pos] + carry, floor == 0, out, limit, decode, wanted) ==
                Gather(data[floor..], floor == 0, [], limit, decode, wanted)
    {
      var want := chunk;
      if pos - floor < want {
        want := pos - floor;
      }
      pos := pos - want;
      var buf := data[pos..pos + want] + carry;
      Chunked(data, floor, pos, want, carry);
      out, carry := Walk(data[floor..pos], floor == 0, buf, out, limit, decode, wanted);
    }
    if |out| == limit {
      GatherFull(data[floor..pos] + carry, floor == 0, out, limit, decode, wanted);
    } else {
      assert data[floor..pos] + carry == carry;
      GatherStep(carry, floor == 0, out, limit, decode, wanted);
    }
    if pos == 0 && |out| < limit {
      out := out + Picked(carry, decode, wanted);
    }
  }

  lemma Chunked(data: seq<byte>, floor: nat, pos: nat, want: nat, carry: seq<byte>)
    requires floor <= pos && pos + want <= |data|
    ensures data[floor..pos + want] + carry == data[floor..pos] + (data[pos..pos + want] + carry)
  {}

  /** The whole lines of one chunk, from the back; what precedes its first newline is carried over. */
  method Walk<R>(ghost before: seq<byte>, ghost whole: bool, buf: seq<byte>, out0: seq<R>, limit: nat,
                 decode: seq<byte> -> Option<R>, wanted: R -> bool)
    returns (out: seq<R>, carry: seq<byte>)
    requires |out0| < limit
    ensures |out| <= limit && (|out| == limit || LastNewline(carry) < 0)
    ensures Gather(before + carry, whole, out, limit, decode, wanted) ==
            Gather(before + buf, whole, out0, limit, decode, wanted)
  {
    hide Gather, LastNewline, Picked;
    out := out0;
    var end := |buf|;
    ghost var goal := Gather(before + buf, whole, out0, limit, decode, wanted);
    assert buf[..end] == buf;
    while |out| < limit
      invariant end <= |buf| && |out| <= limit
      invariant Gather(before + buf[..end], whole, out, limit, decode, wanted) == goal
      decreases end
    {
      var i := LastNewline(buf[..end]);
      if i < 0 {
        break;
      }
      var line := buf[i + 1..end];
      GatherLine(before, buf[..end], whole, out, limit, decode, wanted);
      assert buf[..end][..i] == buf[..i] && buf[..end][i + 1..] == line;
      out := out + Picked(line, decode, wanted);
      end := i;
    }
    carry := buf[..end];
  }

  lemma GatherLine<R>(before: seq<byte>, text: seq<byte>, whole: bool, out: seq<R>, n: nat,
                      decode: seq<byte> -> Option<R>, wanted: R -> bool)
    requires |out| < n && LastNewline(text) >= 0
    ensures var i := LastNewline(text);
            Gather(before + text, whole, out, n, decode, wanted) ==
            Gather(before + text[..i], whole, out + Picked(text[i + 1..], decode, wanted), n, decode, wanted)
  {
    hide LastNewline, Picked, Gather;
    var i := LastNewline(text);
    var all := before + text;
    LastNewlineAfter(before, text);
    GatherStep(all, whole, out, n, decode, wanted);
    assert all[..|before| + i] == before + text[..i];
    assert all[|before| + i + 1..] == text[i + 1..];
  }

  lemma GatherStep<R>(text: seq<byte>, whole: bool, out: seq<R>, n: nat,
                      decode: seq<byte> -> Option<R>, wanted: R -> bool)
    requires |out| < n
    ensures var i := LastNewline(text);
            Gather(text, whole, out, n, decode, wanted) ==
            if i < 0 then (if whole then out + Picked(text, decode, wanted) else out)
            else Gather(text[..i], whole, out + Picked(text[i + 1..], decode, wanted), n, decode, wanted)
  {
    hide LastNewline, Picked;
  }

  lemma LastNewlineAfter(before: seq<byte>, text: seq<byte>)
    requires LastNewline(text) >= 0
    ensures LastNewline(before + text) == |before| + LastNewline(text)
  {
    hide LastNewline;
    var i, j := LastNewline(text), LastNewline(before + text);
    assert (before + text)[|before| + i] == text[i];
    assert j >= |before| + i;
    assert (before + text)[j] == text[j - |before|];
  }

  // ---- what a read returns, by offsets in the file ----

  /** A line starts at offset a. */
  predicate StartsLine(text: seq<byte>, a: nat) {
    a <= |text| && (a == 0 || text[a - 1] == NEWLINE)
  }

  /** Where it ends: at its newline or at the end of the text. */
  function EndOf(text: seq<byte>, a: nat): (b: nat)
    requires a <= |text|
    ensures a <= b <= |text| && (b == |text| || text[b] == NEWLINE)
    ensures forall k :: a <= k < b ==> text[k] != NEWLINE
    decreases |text| - a
  {
    if a == |text| || text[a] == NEWLINE then a else EndOf(text, a + 1)
  }

  /** What the line at offset a decodes to. */
  function RecordAt<R>(text: seq<byte>, a: nat, decode: seq<byte> -> Option<R>): Option<R>
    requires a <= |text|
  {
    decode(text[a..EndOf(text, a)])
  }

  predicate Answers<R>(text: seq<byte>, a: nat, decode: seq<byte> -> Option<R>, wanted: R -> bool) {
    StartsLine(text, a) && RecordAt(text, a, decode).Some? && wanted(RecordAt(text, a, decode).value)
  }

  /** The records out are those of the lines that start at these offsets, all wanted, the newest first. */
  ghost predicate Located<R>(text: seq<byte>, from: nat, out: seq<R>, starts: seq<nat>,
                             decode: seq<byte> -> Option<R>, wanted: R -> bool) {
    && |starts| == |out|
    && (forall i :: 0 <= i < |out| ==>
          starts[i] >= from && Answers(text, starts[i], decode, wanted) &&
          RecordAt(text, starts[i], decode) == Some(out[i]))
    && (forall i, j :: 0 <= i < j < |out| ==> starts[i] > starts[j])
  }

  /** A line that is left out although it holds a wanted record is older than all of them, and there was no room. */
  ghost predicate Complete<R>(text: seq<byte>, from: nat, starts: seq<nat>, full: bool,
                              decode: seq<byte> -> Option<R>, wanted: R -> bool) {
    forall a: nat :: a >= from && a !in starts && Answers(text, a, decode, wanted) ==>
                       full && forall i :: 0 <= i < |starts| ==> a < starts[i]
  }

  lemma {:induction false} EndIs(text: seq<byte>, a: nat, b: nat)
    requires a <= b <= |text| && (b == |text| || text[b] == NEWLINE) && forall k :: a <= k < b ==> text[k] != NEWLINE
    ensures EndOf(text, a) == b
  {}

  /** The lines of a text: those of what precedes its last newline, and the last one. */
  lemma LineBefore<R>(text: seq<byte>, a: nat, decode: seq<byte> -> Option<R>, wanted: R -> bool)
    requires a <= LastNewline(text)
    ensures RecordAt(text, a, decode) == RecordAt(text[..LastNewline(text)], a, decode)
    ensures Answers(text, a, decode, wanted) <==> Answers(text[..LastNewline(text)], a, decode, wanted)
  {
    hide LastNewline, EndOf;
    var i := LastNewline(text);
    var b := EndOf(text[..i], a);
    forall k | a <= k < b ensures text[k] != NEWLINE {
      assert text[..i][k] == text[k];
    }
    assert text[b] == NEWLINE by {
      if b < i {
        assert text[..i][b] == text[b];
      }
    }
    EndIs(text, a, b);
    assert text[..i][a..b] == text[a..b];
  }

  lemma LineAfter<R>(text: seq<byte>, a: nat, decode: seq<byte> -> Option<R>, wanted: R -> bool)
    requires a > LastNewline(text)
    ensures StartsLine(text, a) <==> a == LastNewline(text) + 1
    ensures a == LastNewline(text) + 1 ==> RecordAt(text, a, decode) == decode(text[a..])
  {
    hide LastNewline, EndOf;
    var i := LastNewline(text);
    if a == i + 1 {
      EndIs(text, a, |text|);
      assert text[a..|text|] == text[a..];
    }
  }

  /** The offset of the line text[a..], if it is wanted. */
  function StartIf<R>(picked: seq<R>, a: nat): seq<nat> { if picked == [] then [] else [a] }

  /** One line more at the end, which may or may not be wanted. */
  lemma LocatedLast<R>(text: seq<byte>, from: nat, out: seq<R>, starts: seq<nat>,
                       decode: seq<byte> -> Option<R>, wanted: R -> bool)
    requires var i := LastNewline(text);
             i >= 0 && from <= i + 1 && Located(text[..i], from, out, starts, decode, wanted)
    ensures var i := LastNewline(text);
            var picked := Picked(text[i + 1..], decode, wanted);
            Located(text, from, picked + out, StartIf(picked, i + 1) + starts, decode, wanted)
  {
    hide LastNewline, EndOf, RecordAt;
    var i := LastNewline(text);
    var picked := Picked(text[i + 1..], decode, wanted);
    var all, starts' := picked + out, StartIf(picked, i + 1) + starts;
    LineAfter(text, i + 1, decode, wanted);
    forall k | 0 <= k < |starts|
      ensures starts[k] <= i && Answers(text, starts[k], decode, wanted) &&
              RecordAt(text, starts[k], decode) == Some(out[k])
    {
      assert Answers(text[..i], starts[k], decode, wanted);
      LineBefore(text, starts[k], decode, wanted);
    }
  }

  lemma CompleteLast<R>(text: seq<byte>, from: nat, starts: seq<nat>, full: bool,
                        decode: seq<byte> -> Option<R>, wanted: R -> bool)
    requires var i := LastNewline(text);
             i >= 0 && Complete(text[..i], from, starts, full, decode, wanted)
    ensures var i := LastNewline(text);
            var picked := Picked(text[i + 1..], decode, wanted);
            Complete(text, from, StartIf(picked, i + 1) + starts, full, decode, wanted)
  {
    hide LastNewline, EndOf, RecordAt;
    var i := LastNewline(text);
    var picked := Picked(text[i + 1..], decode, wanted);
    var first := StartIf(picked, i + 1);
    var starts' := first + starts;
    assert picked != [] ==> starts'[0] == i + 1;
    forall a: nat | a >= from && a !in starts' && Answers(text, a, decode, wanted)
      ensures full && forall j :: 0 <= j < |starts'| ==> a < starts'[j]
    {
      if a > i {
        LineAfter(text, a, decode, wanted);
        assert false;
      } else {
        LineBefore(text, a, decode, wanted);
        assert a !in starts;
      }
    }
  }

  /** What a read from the back adds to out, by offsets. */
  lemma {:induction false} GatherLists<R>(text: seq<byte>, whole: bool, out: seq<R>, n: nat,
                                          decode: seq<byte> -> Option<R>, wanted: R -> bool) returns (starts: seq<nat>)
    requires |out| <= n
    ensures var all, from := Gather(text, whole, out, n, decode, wanted), if whole then 0 else 1;
            && out <= all && |all| <= n
            && Located(text, from, all[|out|..], starts, decode, wanted)
            && Complete(text, from, starts, |all| == n, decode, wanted)
    decreases |text|
  {
    hide LastNewline, Picked, Gather, Located, Complete;
    var i, from := LastNewline(text), if whole then 0 else 1;
    if |out| == n || i < 0 {
      starts := LastLists(text, whole, out, n, decode, wanted);
    } else {
      GatherStep(text, whole, out, n, decode, wanted);
      var picked := Picked(text[i + 1..], decode, wanted);
      var older := GatherLists(text[..i], whole, out + picked, n, decode, wanted);
      var all := Gather(text, whole, out, n, decode, wanted);
      starts := StartIf(picked, i + 1) + older;
      OneLineMore(text, from, out, all, older, |all| == n, decode, wanted);
    }
  }

  /** When there is no room for more, or only the first line is left. */
  lemma LastLists<R>(text: seq<byte>, whole: bool, out: seq<R>, n: nat,
                     decode: seq<byte> -> Option<R>, wanted: R -> bool) returns (starts: seq<nat>)
    requires |out| <= n && (|out| == n || LastNewline(text) < 0)
    ensures var all, from := Gather(text, whole, out, n, decode, wanted), if whole then 0 else 1;
            && out <= all && |all| <= n
            && Located(text, from, all[|out|..], starts, decode, wanted)
            && Complete(text, from, starts, |all| == n, decode, wanted)
  {
    hide LastNewline, Picked, Gather, Located, Complete;
    if |out| == n {
      GatherFull(text, whole, out, n, decode, wanted);
      starts := [];
      assert out[|out|..] == [];
      NoneListed(text, if whole then 0 else 1, true, decode, wanted);
    } else {
      GatherStep(text, whole, out, n, decode, wanted);
      var picked := if whole then Picked(text, decode, wanted) else [];
      starts := StartIf(picked, 0);
      assert Gather(text, whole, out, n, decode, wanted)[|out|..] == picked;
      OnlyLine(text, whole, decode, wanted, |out + picked| == n);
    }
  }

  /** all adds to out the last line of text, if it is wanted, and then what older lists. */
  lemma OneLineMore<R>(text: seq<byte>, from: nat, out: seq<R>, all: seq<R>, older: seq<nat>, full: bool,
                       decode: seq<byte> -> Option<R>, wanted: R -> bool)
    requires LastNewline(text) >= 0 && from <= LastNewline(text) + 1
    requires var i := LastNewline(text);
             var picked := Picked(text[i + 1..], decode, wanted);
             && out + picked <= all && Located(text[..i], from, all[|out + picked|..], older, decode, wanted)
             && Complete(text[..i], from, older, full, decode, wanted)
    ensures var i := LastNewline(text);
            var starts := StartIf(Picked(text[i + 1..], decode, wanted), i + 1) + older;
            && out <= all && Located(text, from, all[|out|..], starts, decode, wanted)
            && Complete(text, from, starts, full, decode, wanted)
  {
    hide LastNewline, Picked, Located, Complete;
    var picked := Picked(text[LastNewline(text) + 1..], decode, wanted);
    LocatedLast(text, from, all[|out + picked|..], older, decode, wanted);
    CompleteLast(text, from, older, full, decode, wanted);
    assert all == out + picked + all[|out + picked|..];
    assert all[|out|..] == picked + all[|out + picked|..];
  }

  lemma NoneListed<R>(text: seq<byte>, from: nat, full: bool, decode: seq<byte> -> Option<R>, wanted: R -> bool)
    requires full
    ensures Located(text, from, [], [], decode, wanted) && Complete(text, from, [], full, decode, wanted)
  {}

  lemma OnlyLine<R>(text: seq<byte>, whole: bool, decode: seq<byte> -> Option<R>, wanted: R -> bool, full: bool)
    requires LastNewline(text) < 0
    ensures var picked, from := if whole then Picked(text, decode, wanted) else [], if whole then 0 else 1;
            && Located(text, from, picked, StartIf(picked, 0), decode, wanted)
            && Complete(text, from, StartIf(picked, 0), full, decode, wanted)
  {
    hide LastNewline, EndOf, RecordAt;
    assert text[0..] == text;
    LineAfter(text, 0, decode, wanted);
    forall a: nat | a > 0 ensures !Answers(text, a, decode, wanted) {
      LineAfter(text, a, decode, wanted);
    }
    var picked := if whole then Picked(text, decode, wanted) else [];
    if picked != [] {
      assert StartIf(picked, 0)[0] == 0;
    }
  }

  // ---- from the window to the file ----

  /** The first offset at which a line that may be returned can start: a fragment cut by the window is no line. */
  function FirstStart(size: nat): nat { if size <= 8 * 1024 * 1024 then 0 else size - 8 * 1024 * 1024 + 1 }

  /** Up to n records, 100 by default and 1000 at most: the newest that are wanted, in order. */
  ghost predicate IsTail<R>(file: seq<byte>, n: int, out: seq<R>, decode: seq<byte> -> Option<R>, wanted: R -> bool) {
    exists starts :: TailAt(file, n, out, starts, decode, wanted)
  }

  ghost predicate TailAt<R>(file: seq<byte>, n: int, out: seq<R>, starts: seq<nat>,
                            decode: seq<byte> -> Option<R>, wanted: R -> bool)
  {
    var from := FirstStart(|file|);
    && |out| <= Limit(n) && Located(file, from, out, starts, decode, wanted)
    && Complete(file, from, starts, |out| == Limit(n), decode, wanted)
  }

  lemma Shifted<R>(file: seq<byte>, floor: nat, a: nat, decode: seq<byte> -> Option<R>, wanted: R -> bool)
    requires floor + a <= |file| && (a > 0 || floor == 0)
    ensures RecordAt(file, floor + a, decode) == RecordAt(file[floor..], a, decode)
    ensures Answers(file, floor + a, decode, wanted) <==> Answers(file[floor..], a, decode, wanted)
  {
    hide EndOf;
    var text := file[floor..];
    var b := EndOf(text, a);
    forall k | floor + a <= k < floor + b ensures file[k] != NEWLINE {
      assert text[k - floor] == file[k];
    }
    EndIs(file, floor + a, floor + b);
    assert file[floor + a..floor + b] == text[a..b];
  }

  function Plus(starts: seq<nat>, floor: nat): (r: seq<nat>)
    ensures |r| == |starts| && forall i :: 0 <= i < |r| ==> r[i] == floor + starts[i]
  {
    seq(|starts|, i requires 0 <= i < |starts| => floor + starts[i])
  }

  lemma LocatedShifted<R>(file: seq<byte>, floor: nat, out: seq<R>, starts: seq<nat>,
                          decode: seq<byte> -> Option<R>, wanted: R -> bool)
    requires floor <= |file| && Located(file[floor..], if floor == 0 then 0 else 1, out, starts, decode, wanted)
    ensures Located(file, if floor == 0 then 0 else floor + 1, out, Plus(starts, floor), decode, wanted)
  {
    hide RecordAt, Plus;
    forall i | 0 <= i < |starts|
      ensures Answers(file, floor + starts[i], decode, wanted) &&
              RecordAt(file, floor + starts[i], decode) == Some(out[i])
    {
      Shifted(file, floor, starts[i], decode, wanted);
    }
  }

  lemma CompleteShifted<R>(file: seq<byte>, floor: nat, starts: seq<nat>, full: bool,
                           decode: seq<byte> -> Option<R>, wanted: R -> bool)
    requires floor <= |file| && Complete(file[floor..], if floor == 0 then 0 else 1, starts, full, decode, wanted)
    ensures Complete(file, if floor == 0 then 0 else floor + 1, Plus(starts, floor), full, decode, wanted)
  {
    hide RecordAt, Plus;
    var starts' := Plus(starts, floor);
    forall x | x in starts ensures floor + x in starts' {
      var i :| 0 <= i < |starts| && starts[i] == x;
      assert starts'[i] == floor + x;
    }
    forall a: nat | a >= (if floor == 0 then 0 else floor + 1) && a !in starts' && Answers(file, a, decode, wanted)
      ensures full && forall i :: 0 <= i < |starts'| ==> a < starts'[i]
    {
      Shifted(file, floor, a - floor, decode, wanted);
      assert a - floor !in starts;
    }
  }

  /** What the simple reader returns, by offsets: the wanted records of the newest lines that lie in the window. */
  lemma SimpleTailIs<R>(file: seq<byte>, n: int, decode: seq<byte> -> Option<R>, wanted: R -> bool)
    requires file != []
    ensures IsTail(file, n, SimpleTail(file, n, decode, wanted), decode, wanted)
  {
    hide Gather, Split, Reverse, Records, Located, Complete;
    var floor, out := Floor(|file|), SimpleTail(file, n, decode, wanted);
    GatherIsSimple(file[floor..], floor == 0, [], Limit(n), decode, wanted);
    var records := Records(Reverse(Visible(file)), decode, wanted);
    assert [] + records == records;
    var inWindow := GatherLists(file[floor..], floor == 0, [], Limit(n), decode, wanted);
    assert out[0..] == out;
    LocatedShifted(file, floor, out, inWindow, decode, wanted);
    CompleteShifted(file, floor, inWindow, |out| == Limit(n), decode, wanted);
    assert TailAt(file, n, out, Plus(inWindow, floor), decode, wanted);
  }

  /** And there is only one such answer. */
  lemma TailUnique<R>(file: seq<byte>, n: int, out: seq<R>, out': seq<R>,
                      decode: seq<byte> -> Option<R>, wanted: R -> bool)
    requires IsTail(file, n, out, decode, wanted) && IsTail(file, n, out', decode, wanted)
    ensures out == out'
  {
    hide RecordAt;
    var starts :| TailAt(file, n, out, starts, decode, wanted);
    var starts' :| TailAt(file, n, out', starts', decode, wanted);
    var k := if |out| <= |out'| then |out| else |out'|;
    SameStarts(file, n, out, starts, out', starts', k, decode, wanted);
    NoShorter(file, n, out, starts, out', starts', decode, wanted);
    SameStarts(file, n, out', starts', out, starts, k, decode, wanted);
    NoShorter(file, n, out', starts', out, starts, decode, wanted);
    forall i | 0 <= i < |out| ensures out[i] == out'[i] {
      assert starts[..k][i] == starts'[..k][i];
    }
  }

  lemma {:induction false} SameStarts<R>(file: seq<byte>, n: int, out: seq<R>, starts: seq<nat>, out': seq<R>,
                                         starts': seq<nat>, k: nat, decode: seq<byte> -> Option<R>, wanted: R -> bool)
    requires TailAt(file, n, out, starts, decode, wanted) && TailAt(file, n, out', starts', decode, wanted)
    requires k <= |out| && k <= |out'|
    ensures starts[..k] == starts'[..k]
    decreases k
  {
    hide RecordAt, Answers, Complete;
    if k > 0 {
      SameStarts(file, n, out, starts, out', starts', k - 1, decode, wanted);
      assert forall i :: 0 <= i < k - 1 ==> starts[i] == starts[..k - 1][i] == starts'[..k - 1][i] == starts'[i];
      NextStart(file, n, out, starts, out', starts', k - 1, decode, wanted);
      NextStart(file, n, out', starts', out, starts, k - 1, decode, wanted);
    }
  }

  /** Of two such lists that agree so far, neither goes on with a line that the other one leaves out. */
  lemma NextStart<R>(file: seq<byte>, n: int, out: seq<R>, starts: seq<nat>, out': seq<R>, starts': seq<nat>, k: nat,
                     decode: seq<byte> -> Option<R>, wanted: R -> bool)
    requires TailAt(file, n, out, starts, decode, wanted) && TailAt(file, n, out', starts', decode, wanted)
    requires k < |out| && k < |out'| && forall i :: 0 <= i < k ==> starts[i] == starts'[i]
    ensures starts[k] <= starts'[k]
  {
    hide RecordAt, Answers;
    Between(starts', k, starts[k]);
  }

  /** In a falling list what lies between two neighbours is not listed. */
  lemma Between(starts: seq<nat>, k: nat, a: nat)
    requires k <= |starts| && forall i, j :: 0 <= i < j < |starts| ==> starts[i] > starts[j]
    ensures (forall i :: 0 <= i < k ==> starts[i] > a) && (k < |starts| ==> starts[k] < a) ==> a !in starts
  {}

  lemma NoShorter<R>(file: seq<byte>, n: int, out: seq<R>, starts: seq<nat>, out': seq<R>, starts': seq<nat>,
                     decode: seq<byte> -> Option<R>, wanted: R -> bool)
    requires TailAt(file, n, out, starts, decode, wanted) && TailAt(file, n, out', starts', decode, wanted)
    requires |out| <= |out'| ==> starts == starts'[..|out|]
    ensures |out| >= |out'|
  {
    hide RecordAt, Answers;
    if |out| < |out'| {
      Between(starts, |out|, starts'[|out|]);
      assert false;
    }
  }

  // ---- what a caller can rely on ----

  /** A line appended to a log of whole lines is what the next read returns first, followed by what a read
      would have returned before: blank is the empty line, which is never a record. */
  lemma AppendedComesFirst<R>(file: seq<byte>, line: seq<byte>, n: int,
                              decode: seq<byte> -> Option<R>, wanted: R -> bool)
    requires file == [] || file[|file| - 1] == NEWLINE
    requires NEWLINE !in line && decode([]).None?
    requires |file| + |line| + 1 <= MAX_SCAN_BYTES
    ensures SimpleTail(file + line + [NEWLINE], n, decode, wanted) ==
            Take(Picked(line, decode, wanted) + SimpleTail(file, n, decode, wanted), Limit(n))
  {
    hide Split, Reverse, Records, Picked;
    var text, before := file + line + [NEWLINE], file + line;
    assert text[0..] == text && file[0..] == file;
    assert Visible(text) == Split(text) && Visible(file) == Split(file);
    AppendedRecords(file, line, decode, wanted);
  }

  /** Ending a line adds nothing: what follows it is empty, and no record. */
  lemma AppendedRecords<R>(file: seq<byte>, line: seq<byte>, decode: seq<byte> -> Option<R>, wanted: R -> bool)
    requires file == [] || file[|file| - 1] == NEWLINE
    requires NEWLINE !in line && decode([]).None?
    ensures Records(Reverse(Split(file + line + [NEWLINE])), decode, wanted) ==
            Picked(line, decode, wanted) + (if file == [] then [] else Records(Reverse(Split(file)), decode, wanted))
  {
    hide Split, Reverse, Records, Picked;
    var before := file + line;
    LastLine(before, [], decode, wanted);
    assert file + line + [NEWLINE] == before + [NEWLINE] + [];
    EmptyLine(decode, wanted);
    if file == [] {
      assert before == line;
      SplitOneLine(line);
      Newest([], line, decode, wanted);
      assert [] + [line] == [line];
      NoRecords(decode, wanted);
      assert Records(Reverse([line]), decode, wanted) == Picked(line, decode, wanted);
    } else {
      var head := file[..|file| - 1];
      assert file == head + [NEWLINE] + [] && before == head + [NEWLINE] + line;
      LastLine(head, [], decode, wanted);
      LastLine(head, line, decode, wanted);
    }
  }

  lemma EmptyLine<R>(decode: seq<byte> -> Option<R>, wanted: R -> bool)
    requires decode([]).None?
    ensures Picked([], decode, wanted) == []
  {}

  /** A last line, terminated or not, is the first to be returned. */
  lemma LastLine<R>(before: seq<byte>, line: seq<byte>, decode: seq<byte> -> Option<R>, wanted: R -> bool)
    requires NEWLINE !in line
    ensures Records(Reverse(Split(before + [NEWLINE] + line)), decode, wanted) ==
            Picked(line, decode, wanted) + Records(Reverse(Split(before)), decode, wanted)
  {
    hide Split, Reverse, Records, Picked;
    var text := before + [NEWLINE] + line;
    assert text[..|before|] == before && text[|before| + 1..] == line;
    SplitAtLast(text, |before|);
    Newest(Split(before), line, decode, wanted);
  }
}
