/** Bytes of captures: unsigned integers in either byte order. */
module Bytes {

  newtype byte = x: int | 0 <= x < 256

  /** No capture record may be longer. */
  const MAX_SNAP_LEN := 262144

  datatype Endian = Little | Big

  function Pow256(n: nat): (r: nat)
    ensures r > 0
  {
    if n == 0 then 1 else 256 * Pow256(n - 1)
  }

  /** The unsigned integer that b holds. */
  function Uint(b: seq<byte>, order: Endian): (v: nat)
    ensures v < Pow256(|b|)
  {
    if b == [] then 0
    else if order == Little then b[0] as nat + 256 * Uint(b[1..], order)
    else Uint(b[..|b| - 1], order) * 256 + b[|b| - 1] as nat
  }

  /** v in n bytes. */
  function Put(v: nat, n: nat, order: Endian): (b: seq<byte>)
    requires v < Pow256(n)
    ensures |b| == n
  {
    if n == 0 then []
    else if order == Little then [(v % 256) as byte] + Put(v / 256, n - 1, order)
    else Put(v / 256, n - 1, order) + [(v % 256) as byte]
  }

  lemma {:induction false} PutUint(v: nat, n: nat, order: Endian)
    requires v < Pow256(n)
    ensures Uint(Put(v, n, order), order) == v
  {
    if n > 0 {
      PutUint(v / 256, n - 1, order);
      var rest := Put(v / 256, n - 1, order);
      if order == Little {
        assert ([(v % 256) as byte] + rest)[1..] == rest;
      } else {
        assert (rest + [(v % 256) as byte])[..n - 1] == rest;
      }
    }
  }

  lemma LowByte(low: byte, high: nat, n: nat)
    requires high < Pow256(n)
    ensures var v := low as nat + 256 * high;
            v < Pow256(n + 1) && v % 256 == low as nat && v / 256 == high
  {}

  /** Bytes are the only ones that hold their number. */
  lemma {:induction false} UintPut(b: seq<byte>, order: Endian)
    ensures Put(Uint(b, order), |b|, order) == b
  {
    if b != [] {
      var low, rest := if order == Little then b[0] else b[|b| - 1], if order == Little then b[1..] else b[..|b| - 1];
      var high := Uint(rest, order);
      hide Pow256;
      LowByte(low, high, |rest|);
      UintPut(rest, order);
      assert Uint(b, order) == low as nat + 256 * high;
      assert b == if order == Little then [low] + rest else rest + [low];
    }
  }

  lemma Pow256Values()
    ensures Pow256(2) == 0x1_0000 && Pow256(4) == 0x1_0000_0000 && Pow256(8) == 0x1_0000_0000_0000_0000
  {
    assert Pow256(3) == 0x100_0000;
    assert Pow256(5) == 256 * Pow256(4);
    assert Pow256(6) == 256 * Pow256(5);
    assert Pow256(7) == 256 * Pow256(6);
    assert Pow256(8) == 256 * Pow256(7);
  }

  function Uint16(b: seq<byte>, order: Endian): (v: nat)
    requires |b| >= 2
    ensures v < 0x1_0000
  {
    Pow256Values();
    Uint(b[..2], order)
  }

  function Uint32(b: seq<byte>, order: Endian): (v: nat)
    requires |b| >= 4
    ensures v < 0x1_0000_0000
  {
    Pow256Values();
    Uint(b[..4], order)
  }

  function Uint64(b: seq<byte>, order: Endian): (v: nat)
    requires |b| >= 8
    ensures v < 0x1_0000_0000_0000_0000
  {
    Pow256Values();
    Uint(b[..8], order)
  }

  lemma FieldAt(hdr: seq<byte>, rest: seq<byte>, off: nat, n: nat)
    requires off + n <= |hdr|
    ensures |(hdr + rest)[off..]| >= n && (hdr + rest)[off..][..n] == hdr[off..off + n]
  {}

  /** A uint64 read as an int64. */
  function Int64(v: int): (r: int)
    ensures -0x8000_0000_0000_0000 <= r < 0x8000_0000_0000_0000
    ensures -0x8000_0000_0000_0000 <= v < 0x8000_0000_0000_0000 ==> r == v
  {
    (v + 0x8000_0000_0000_0000) % 0x1_0000_0000_0000_0000 - 0x8000_0000_0000_0000
  }
}
