// The bounded writer and the sticky-failing reader (ByteWriter and ByteReader in
// src/core/core.cpp).
module ByteStreams {
  import opened Core
  import opened Bytes
  import opened Codec

  // --------------------------------------------------------------------------
  // Writing
  // --------------------------------------------------------------------------

  // A writer's bytes and whether it is still good.
  datatype Written = Written(ok: bool, data: Input)

  // Writing what `code` has in front of `tail` took the writer from a to b: it stays good
  // exactly when that fits, and then holds exactly those bytes more.
  ghost predicate Wrote(a: Written, b: Written, max: nat, code: Input, tail: Input) {
    && (b.ok <==> a.ok && |a.data| + |code| <= max + |tail|)
    && (b.ok ==> b.data + tail == a.data + code)
  }

  lemma {:induction false} WroteBoth(a: Written, b: Written, c: Written, max: nat, code: Input, mid: Input, tail: Input)
    requires Wrote(a, b, max, code, mid) && Wrote(b, c, max, mid, tail) && |tail| <= |mid|
    ensures Wrote(a, c, max, code, tail)
  {
    if b.ok { assert |b.data + mid| == |a.data + code|; }
  }

  class ByteWriter {
    const maxTotal: nat
    var data: Input
    var ok: bool

    constructor (maxTotal: nat)
      ensures this.maxTotal == maxTotal && Now() == Written(true, [])
    {
      this.maxTotal := maxTotal;
      data, ok := [], true;
    }

    function Now(): Written
      reads this
    {
      Written(ok, data)
    }

    // An unsigned number of n bytes, least significant first.
    method Word(n: nat, v: nat, ghost tail: Input)
      requires v < Pow256(n)
      modifies this
      ensures Wrote(old(Now()), Now(), maxTotal, NumberCode(n, v, tail), tail)
      ensures !ok ==> data == old(data)
    {
      hide ReadNumber;
      if !ok { return; }
      if |data| + n > maxTotal { ok := false; return; }
      var left := v;
      ghost var start := data;
      for i := 0 to n
        invariant data + Little(left, n - i) == start + Little(v, n)
        invariant ok
      {
        assert Little(left, n - i) == [left % 256] + Little(left / 256, n - i - 1);
        data, left := data + [left % 256], left / 256;
      }
      assert Little(left, 0) == [] && data + [] == data;
      assert data + tail == start + (Little(v, n) + tail);
    }

    method U16(v: u16, ghost tail: Input)
      modifies this
      ensures Wrote(old(Now()), Now(), maxTotal, U16Code(v, tail), tail)
    {
      hide Wrote, NumberCode;
      Sizes();
      Word(2, v, tail);
    }

    method U32(v: u32, ghost tail: Input)
      modifies this
      ensures Wrote(old(Now()), Now(), maxTotal, U32Code(v, tail), tail)
    {
      hide Wrote, NumberCode;
      Sizes();
      Word(4, v, tail);
    }

    method U64(v: u64, ghost tail: Input)
      modifies this
      ensures Wrote(old(Now()), Now(), maxTotal, U64Code(v, tail), tail)
    {
      hide Wrote, NumberCode;
      Sizes();
      Word(8, v, tail);
    }

    method Flag(b: bool, ghost tail: Input)
      modifies this
      ensures Wrote(old(Now()), Now(), maxTotal, FlagCode(b, tail), tail)
    {
      hide Wrote, NumberCode;
      Sizes();
      Word(1, if b then 1 else 0, tail);
    }
  }

  // --------------------------------------------------------------------------
  // Reading
  // --------------------------------------------------------------------------

  lemma {:induction false} NumberPush(bs: seq<byte>, b: byte)
    ensures Number(bs + [b]) == Number(bs) + Pow256(|bs|) * b
  {
    if bs == [] {
      assert Number([b]) == b + 256 * Number([b][1..]);
    } else {
      assert (bs + [b])[1..] == bs[1..] + [b];
      NumberPush(bs[1..], b);
      assert 256 * (Pow256(|bs| - 1) * b) == Pow256(|bs|) * b;
    }
  }

  // Where a reader stands: its first error, and the input it has not read.
  datatype Standing = Standing(error: Option<ErrorCode>, rest: Input)

  // One read took the reader from a to b and answered v. A failed reader never moves.
  ghost predicate Took<T>(a: Standing, b: Standing, r: Read<T>, v: T) {
    if a.error.Some? then b == a
    else
      match r
      case Parsed(x, t) => b == Standing(None, t) && v == x
      case Fault(e) => b.error == Some(e)
  }

  // Decoding answered `got`: what the reading function says, and on a failed reader the
  // first error again.
  ghost predicate Answers<T>(a: Standing, b: Standing, r: Read<T>, got: Result<T>) {
    if a.error.Some? then b == a && got == Err(a.error.value)
    else
      match r
      case Parsed(x, t) => b == Standing(None, t) && got == Ok(x)
      case Fault(e) => got == Err(e)
  }

  class ByteReader {
    const data: Input
    var position: nat
    var error: Option<ErrorCode>

    constructor (data: Input)
      ensures this.data == data && Valid() && Now() == Standing(None, data)
    {
      this.data, position, error := data, 0, None;
    }

    ghost predicate Valid()
      reads this
    {
      position <= |data|
    }

    function Now(): Standing
      requires Valid()
      reads this
    {
      Standing(error, data[position..])
    }

    // The first error sticks.
    method Fail(e: ErrorCode)
      requires Valid()
      modifies this
      ensures Valid() && position == old(position) && error == if old(error).Some? then old(error) else Some(e)
    {
      if error.None? { error := Some(e); }
    }

    method Word(n: nat) returns (v: nat)
      requires Valid()
      modifies this
      ensures Valid() && Took(old(Now()), Now(), ReadNumber(n, old(Now()).rest), v)
      ensures v < Pow256(n)
    {
      ghost var rest := data[position..];
      if error.Some? || |data| - position < n {
        Fail(Truncated);
        v := 0;
        return;
      }
      var scale: nat := 1;
      v := 0;
      for i := 0 to n
        invariant v == Number(rest[..i]) && scale == Pow256(i)
        invariant position == old(position) && error.None?
      {
        assert rest[..i + 1] == rest[..i] + [data[position + i]];
        NumberPush(rest[..i], data[position + i]);
        v := v + scale * data[position + i];
        scale := 256 * scale;
      }
      NumberBound(rest[..n]);
      assert data[position + n..] == rest[n..];
      position := position + n;
    }

    method U16() returns (v: u16)
      requires Valid()
      modifies this
      ensures Valid() && Took(old(Now()), Now(), ReadU16(old(Now()).rest), v)
    {
      hide ReadNumber;
      Sizes();
      v := Word(2);
    }

    method U32() returns (v: u32)
      requires Valid()
      modifies this
      ensures Valid() && Took(old(Now()), Now(), ReadU32(old(Now()).rest), v)
    {
      hide ReadNumber;
      Sizes();
      v := Word(4);
    }

    method U64() returns (v: u64)
      requires Valid()
      modifies this
      ensures Valid() && Took(old(Now()), Now(), ReadU64(old(Now()).rest), v)
    {
      hide ReadNumber;
      Sizes();
      v := Word(8);
    }

    method Flag() returns (b: bool)
      requires Valid()
      modifies this
      ensures Valid() && Took(old(Now()), Now(), ReadFlag(old(Now()).rest), b)
    {
      hide ReadNumber;
      var v := Word(1);
      if error.Some? { return false; }
      if v > 1 { Fail(InvalidEnum); return false; }
      b := v == 1;
    }

    method Enum<T>(names: nat -> Option<T>, fallback: T) returns (x: T)
      requires Valid()
      modifies this
      ensures Valid() && Took(old(Now()), Now(), ReadEnum(names, old(Now()).rest), x)
    {
      hide ReadU16;
      var v := U16();
      if error.Some? { return fallback; }
      if names(v).None? { Fail(InvalidEnum); return fallback; }
      x := names(v).value;
    }

    // An element count, bounded before anything is read.
    method Count(max: nat) returns (n: u32)
      requires Valid()
      modifies this
      ensures Valid() && Took(old(Now()), Now(), ReadCount(max, old(Now()).rest), n)
    {
      hide ReadU32;
      n := U32();
      if error.Some? { return 0; }
      if n > max { Fail(CapacityExceeded); return 0; }
    }
  }
}
