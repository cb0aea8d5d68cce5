// Little-endian numbers on the wire, and the checksum as a number
// (ByteWriter and ByteReader in src/core/core.cpp).
module Bytes {
  import opened Core
  import Crc32c

  function Pow256(n: nat): (r: nat)
    ensures r > 0
  {
    if n == 0 then 1 else 256 * Pow256(n - 1)
  }

  // The n low bytes of v, least significant first.
  function Little(v: nat, n: nat): (r: seq<byte>)
    ensures |r| == n
    decreases n
  {
    if n == 0 then [] else [v % 256] + Little(v / 256, n - 1)
  }

  function Number(bs: seq<byte>): (v: nat) {
    if bs == [] then 0 else bs[0] + 256 * Number(bs[1..])
  }

  lemma {:induction false} NumberBound(bs: seq<byte>)
    ensures Number(bs) < Pow256(|bs|)
  {
    if bs != [] { NumberBound(bs[1..]); }
  }

  // The last byte weighs most.
  lemma {:induction false} NumberGrows(bs: seq<byte>, b: byte)
    ensures Number(bs + [b]) == Number(bs) + Pow256(|bs|) * b
  {
    if bs == [] {
      assert bs + [b] == [b];
    } else {
      var rest := bs[1..];
      assert (bs + [b])[1..] == rest + [b];
      NumberGrows(rest, b);
      Weigh(Pow256(|rest|), b);
    }
  }

  lemma {:induction false} Weigh(p: nat, b: nat)
    ensures 256 * (p * b) == (256 * p) * b
  {
  }

  lemma {:induction false} NumberOfLittle(v: nat, n: nat)
    requires v < Pow256(n)
    ensures Number(Little(v, n)) == v
    decreases n
  {
    if n > 0 {
      NumberOfLittle(v / 256, n - 1);
      assert Little(v, n)[1..] == Little(v / 256, n - 1);
    }
  }

  lemma {:induction false} LittleOfNumber(bs: seq<byte>)
    ensures Little(Number(bs), |bs|) == bs
  {
    if bs != [] {
      LittleOfNumber(bs[1..]);
      assert Number(bs) / 256 == Number(bs[1..]) && Number(bs) % 256 == bs[0];
      assert bs == [bs[0]] + bs[1..];
    }
  }

  lemma {:induction false} NumberInjective(a: seq<byte>, b: seq<byte>)
    requires |a| == |b| && Number(a) == Number(b)
    ensures a == b
  {
    LittleOfNumber(a);
    LittleOfNumber(b);
  }

  lemma {:induction false} Sizes()
    ensures Pow256(1) == U16_MAX / 257 + 1 && Pow256(2) == U16_MAX + 1 && Pow256(4) == U32_MAX + 1
    ensures Pow256(8) == U64_MAX + 1
  {
    assert Pow256(1) == 256 * Pow256(0);
    assert Pow256(2) == 256 * Pow256(1);
    assert Pow256(3) == 256 * Pow256(2);
    assert Pow256(4) == 256 * Pow256(3);
    assert Pow256(5) == 256 * Pow256(4);
    assert Pow256(6) == 256 * Pow256(5);
    assert Pow256(7) == 256 * Pow256(6);
    assert Pow256(8) == 256 * Pow256(7);
  }

  // --------------------------------------------------------------------------
  // The checksum as a 32-bit number
  // --------------------------------------------------------------------------

  // A word moved down by whole bytes.
  function From(w: bv32, i: nat): bv32 {
    if i == 0 then w else if i == 1 then w >> 8 else if i == 2 then w >> 16 else w >> 24
  }

  function WordBytes(w: bv32): (r: seq<byte>)
    ensures |r| == 4
  {
    [Crc32c.Index(From(w, 0)), Crc32c.Index(From(w, 1)), Crc32c.Index(From(w, 2)), Crc32c.Index(From(w, 3))]
  }

  lemma {:induction false} SameQuarters(a: bv32, b: bv32)
    requires Crc32c.Low(From(a, 0)) == Crc32c.Low(From(b, 0)) && Crc32c.Low(From(a, 1)) == Crc32c.Low(From(b, 1))
    requires Crc32c.Low(From(a, 2)) == Crc32c.Low(From(b, 2)) && Crc32c.Low(From(a, 3)) == Crc32c.Low(From(b, 3))
    ensures a == b
  {
  }

  lemma {:induction false} SameLow(x: bv32, y: bv32)
    requires Crc32c.Index(x) == Crc32c.Index(y)
    ensures Crc32c.Low(x) == Crc32c.Low(y)
  {
    hide Crc32c.Low, Crc32c.Wide, Crc32c.Index;
    assert Crc32c.Wide(Crc32c.Index(x)) == Crc32c.Low(x);
  }

  lemma {:induction false} WordBytesInjective(a: bv32, b: bv32)
    requires WordBytes(a) == WordBytes(b)
    ensures a == b
  {
    hide Crc32c.Index, Crc32c.Wide, Crc32c.Low, From;
    var x, y := WordBytes(a), WordBytes(b);
    assert x[0] == y[0] && x[1] == y[1] && x[2] == y[2] && x[3] == y[3];
    SameLow(From(a, 0), From(b, 0));
    SameLow(From(a, 1), From(b, 1));
    SameLow(From(a, 2), From(b, 2));
    SameLow(From(a, 3), From(b, 3));
    SameQuarters(a, b);
  }

  // crc32c(data) with a zero seed.
  function Checksum(data: seq<byte>): (c: u32) {
    NumberBound(WordBytes(Crc32c.Crc(data, 0)));
    Sizes();
    Number(WordBytes(Crc32c.Crc(data, 0)))
  }

  lemma {:induction false} ChecksumInjective(a: seq<byte>, b: seq<byte>)
    requires Crc32c.Crc(a, 0) != Crc32c.Crc(b, 0)
    ensures Checksum(a) != Checksum(b)
  {
    hide Crc32c.Crc, WordBytes, Number;
    var x, y := Crc32c.Crc(a, 0), Crc32c.Crc(b, 0);
    if Number(WordBytes(x)) == Number(WordBytes(y)) {
      NumberInjective(WordBytes(x), WordBytes(y));
      WordBytesInjective(x, y);
    }
  }

  // A single changed byte changes the checksum.
  lemma {:induction false} ChecksumDetects(a: seq<byte>, b: seq<byte>, k: nat)
    requires |a| == |b| && k < |a| && a[k] != b[k]
    requires forall i | 0 <= i < |a| && i != k :: a[i] == b[i]
    ensures Checksum(a) != Checksum(b)
  {
    hide Crc32c.Crc, Checksum;
    Crc32c.OneByteDetected(a, b, k, 0);
    ChecksumInjective(a, b);
  }

  // --------------------------------------------------------------------------
  // One changed byte
  // --------------------------------------------------------------------------

  // a and b have one length and differ at k only.
  ghost predicate OneByteOff(a: seq<byte>, b: seq<byte>, k: nat) {
    |a| == |b| && k < |a| && a[k] != b[k] && forall i | 0 <= i < |a| && i != k :: a[i] == b[i]
  }

  lemma {:induction false} OffWithin(a: seq<byte>, b: seq<byte>, k: nat, lo: nat, hi: nat)
    requires OneByteOff(a, b, k) && lo <= hi <= |a|
    ensures lo <= k < hi ==> OneByteOff(a[lo..hi], b[lo..hi], k - lo) && a[lo..hi] != b[lo..hi]
    ensures !(lo <= k < hi) ==> a[lo..hi] == b[lo..hi]
  {
    if lo <= k < hi {
      assert a[lo..hi][k - lo] != b[lo..hi][k - lo];
    }
  }

  // A checksummed block and its checksum cannot both survive one changed byte.
  lemma {:induction false} BlockDetects(block: seq<byte>, block': seq<byte>, crc': seq<byte>, k: nat)
    requires |block| == |block'| && |crc'| == 4
    requires OneByteOff(block + Little(Checksum(block), 4), block' + crc', k)
    ensures Number(crc') != Checksum(block')
  {
    hide Little, Checksum, Number;
    var crc := Little(Checksum(block), 4);
    var a, b := block + crc, block' + crc';
    OffWithin(a, b, k, 0, |block|);
    OffWithin(a, b, k, |block|, |a|);
    assert a[0..|block|] == block && b[0..|block|] == block' && a[|block|..|a|] == crc && b[|block|..|a|] == crc';
    Sizes();
    NumberOfLittle(Checksum(block), 4);
    if k < |block| {
      ChecksumDetects(block, block', k);
    } else {
      if Number(crc') == Number(crc) { NumberInjective(crc', crc); }
    }
  }

  lemma {:induction false} SameSize(a: seq<byte>, b: seq<byte>, k: nat)
    requires OneByteOff(a, b, k)
    ensures |a| == |b| && k < |a|
  {
  }
}
