// CRC-32C (include/dmf/core.hpp, src/core/core.cpp): the Castagnoli polynomial of
// section 12.1 of RFC 3720, in the reflected, table-driven form.
//
// The table loop is proved equal to the bit-at-a-time definition, and every change
// confined to four consecutive bytes is proved to change the checksum.
module Crc32c {
  import opened Core

  // --------------------------------------------------------------------------
  // Words
  // --------------------------------------------------------------------------

  function Xor(a: bv32, b: bv32): bv32 {
    a ^ b
  }

  function Not(x: bv32): bv32 {
    !x
  }

  function Half(x: bv32): bv32 {
    x >> 1
  }

  predicate Odd(x: bv32) {
    x & 1 != 0
  }

  lemma {:induction false} XorLeft(p: bv32, a: bv32, b: bv32)
    ensures Xor(Xor(p, a), b) == Xor(p, Xor(a, b))
  {
  }

  lemma {:induction false} XorRight(p: bv32, a: bv32, b: bv32)
    ensures Xor(a, Xor(p, b)) == Xor(p, Xor(a, b))
  {
  }

  lemma {:induction false} XorTwice(p: bv32, x: bv32)
    ensures Xor(p, Xor(p, x)) == x
  {
  }

  lemma {:induction false} XorCancel(p: bv32, a: bv32, b: bv32)
    ensures Xor(Xor(p, a), Xor(p, b)) == Xor(a, b)
  {
    hide Xor;
    XorLeft(p, a, Xor(p, b));
    XorRight(p, a, b);
    XorTwice(p, Xor(a, b));
  }

  lemma {:induction false} XorAssoc(p: bv32, a: bv32, b: bv32)
    ensures Xor(Xor(p, a), b) == Xor(p, Xor(a, b))
    ensures Xor(a, Xor(p, b)) == Xor(p, Xor(a, b))
    ensures Xor(Xor(p, a), Xor(p, b)) == Xor(a, b)
  {
    hide Xor;
    XorLeft(p, a, b);
    XorRight(p, a, b);
    XorCancel(p, a, b);
  }

  lemma {:induction false} XorZero(x: bv32, y: bv32)
    ensures Xor(x, y) == 0 <==> x == y
  {
  }

  lemma {:induction false} HalfXor(x: bv32, y: bv32)
    ensures Half(Xor(x, y)) == Xor(Half(x), Half(y))
  {
  }

  lemma {:induction false} OddXor(x: bv32, y: bv32)
    ensures Odd(Xor(x, y)) <==> Odd(x) != Odd(y)
  {
  }

  lemma {:induction false} NextByte(w: bv8)
    requires w < 0xFF
    ensures (w + 1) as nat == w as nat + 1
  {
  }

  lemma {:induction false} SameByte(a: bv8, b: bv8)
    requires a as nat == b as nat
    ensures a == b
  {
  }

  // The bits of a byte.
  function Bits(n: nat): (w: bv8)
    requires n < 256
    ensures w as nat == n
  {
    if n == 0 then 0
    else
      var w := Bits(n - 1);
      NextByte(w);
      w + 1
  }

  // A byte in the low end of a word.
  function Wide(b: byte): bv32 {
    Bits(b) as bv32
  }

  // --------------------------------------------------------------------------
  // The definition, one bit at a time
  // --------------------------------------------------------------------------

  const POLYNOMIAL: bv32 := 0x82F63B78

  function Shift(crc: bv32): bv32 {
    if Odd(crc) then Xor(POLYNOMIAL, Half(crc)) else Half(crc)
  }

  function Shifts(crc: bv32, n: nat): bv32 {
    if n == 0 then crc else Shift(Shifts(crc, n - 1))
  }

  function Absorb(crc: bv32, b: byte): bv32 {
    Shifts(Xor(crc, Wide(b)), 8)
  }

  function AbsorbAll(crc: bv32, data: seq<byte>): bv32
    decreases |data|
  {
    if data == [] then crc else AbsorbAll(Absorb(crc, data[0]), data[1..])
  }

  // The checksum of data, continuing from an earlier checksum.
  function Crc(data: seq<byte>, seed: bv32): bv32 {
    Not(AbsorbAll(Not(seed), data))
  }

  // --------------------------------------------------------------------------
  // Shifting is linear and loses nothing
  // --------------------------------------------------------------------------

  lemma {:induction false} ShiftLinear(x: bv32, y: bv32)
    ensures Shift(Xor(x, y)) == Xor(Shift(x), Shift(y))
  {
    hide Xor, Half, Odd;
    HalfXor(x, y);
    OddXor(x, y);
    XorAssoc(POLYNOMIAL, Half(x), Half(y));
  }

  lemma {:induction false} ShiftsLinear(x: bv32, y: bv32, n: nat)
    ensures Shifts(Xor(x, y), n) == Xor(Shifts(x, n), Shifts(y, n))
    decreases n
  {
    hide Xor, Shift;
    if n > 0 {
      ShiftsLinear(x, y, n - 1);
      ShiftLinear(Shifts(x, n - 1), Shifts(y, n - 1));
    }
  }

  // The polynomial's top bit marks the words that absorbed it.
  lemma {:induction false} ShiftOfNonZero(x: bv32)
    requires x != 0
    ensures Shift(x) != 0
  {
  }

  lemma {:induction false} ShiftsInjective(x: bv32, y: bv32, n: nat)
    requires x != y
    ensures Shifts(x, n) != Shifts(y, n)
    decreases n
  {
    hide Xor, Shift;
    if n > 0 {
      ShiftsInjective(x, y, n - 1);
      var a, b := Shifts(x, n - 1), Shifts(y, n - 1);
      XorZero(a, b);
      ShiftOfNonZero(Xor(a, b));
      ShiftLinear(a, b);
      XorZero(Shift(a), Shift(b));
    }
  }

  lemma {:induction false} ShiftsAdd(x: bv32, m: nat, n: nat)
    ensures Shifts(Shifts(x, m), n) == Shifts(x, m + n)
    decreases n
  {
    hide Shift;
    if n > 0 { ShiftsAdd(x, m, n - 1); }
  }

  lemma {:induction false} EightShifts(x: bv32)
    ensures Shifts(x, 8) == Shift(Shift(Shift(Shift(Shift(Shift(Shift(Shift(x))))))))
  {
    hide Shift;
    assert Shifts(x, 1) == Shift(Shifts(x, 0));
    assert Shifts(x, 3) == Shift(Shift(Shifts(x, 1)));
    assert Shifts(x, 5) == Shift(Shift(Shifts(x, 3)));
    assert Shifts(x, 7) == Shift(Shift(Shifts(x, 5)));
  }

  lemma {:induction false} EightShiftsOfHigh(x: bv32)
    requires x & 0xFF == 0
    ensures Shift(Shift(Shift(Shift(Shift(Shift(Shift(Shift(x)))))))) == x >> 8
  {
  }

  // Eight shifts of a word whose low byte is clear only move it down.
  lemma {:induction false} ShiftsOfHigh(x: bv32)
    requires x & 0xFF == 0
    ensures Shifts(x, 8) == x >> 8
  {
    hide Shift, Shifts;
    EightShifts(x);
    EightShiftsOfHigh(x);
  }

  // --------------------------------------------------------------------------
  // The table
  // --------------------------------------------------------------------------

  function Low(x: bv32): bv32 { x & 0xFF }
  function High(x: bv32): bv32 { x & 0xFFFFFF00 }
  function Down(x: bv32): bv32 { x >> 8 }

  lemma {:induction false} LowHigh(x: bv32)
    ensures Xor(Low(x), High(x)) == x && High(x) & 0xFF == 0 && High(x) >> 8 == Down(x)
  {
  }

  lemma {:induction false} LowIsByte(x: bv32)
    ensures (Low(x) as bv8) as bv32 == Low(x)
  {
  }

  lemma {:induction false} DownIgnoresByte(crc: bv32, w: bv8)
    ensures Down(Xor(crc, w as bv32)) == Down(crc)
  {
  }

  // The table entry of the low byte and the rest moved down make eight shifts at once.
  lemma {:induction false} TableStep(x: bv32)
    ensures Xor(Shifts(Low(x), 8), Down(x)) == Shifts(x, 8)
  {
    hide Shifts, Xor, Low, High, Down;
    LowHigh(x);
    ShiftsLinear(Low(x), High(x), 8);
    ShiftsOfHigh(High(x));
  }

  function Index(x: bv32): (i: nat)
    ensures i < 256 && Wide(i) == Low(x)
  {
    var w := Low(x) as bv8;
    LowIsByte(x);
    SameByte(w, Bits(w as nat));
    w as nat
  }

  ghost predicate IsTable(t: seq<bv32>) {
    |t| == 256 && forall i | 0 <= i < 256 :: t[i] == Shifts(Wide(i), 8)
  }

  method Entry(i: byte) returns (crc: bv32)
    ensures crc == Shifts(Wide(i), 8)
  {
    hide Wide, Odd, Half, Xor;
    crc := Wide(i);
    for bit := 0 to 8
      invariant crc == Shifts(Wide(i), bit)
    {
      crc := if Odd(crc) then Xor(POLYNOMIAL, Half(crc)) else Half(crc);
    }
  }

  method MakeTable() returns (table: seq<bv32>)
    ensures IsTable(table)
  {
    hide Shifts, Wide;
    table := [];
    for i := 0 to 256
      invariant |table| == i && forall j | 0 <= j < i :: table[j] == Shifts(Wide(j), 8)
    {
      var entry := Entry(i);
      table := table + [entry];
    }
  }

  lemma {:induction false} AbsorbPush(crc: bv32, data: seq<byte>, b: byte)
    ensures AbsorbAll(crc, data + [b]) == Absorb(AbsorbAll(crc, data), b)
    decreases |data|
  {
    hide Absorb;
    if data == [] {
      assert [b][1..] == [];
    } else {
      AbsorbPush(Absorb(crc, data[0]), data[1..], b);
      assert (data + [b])[1..] == data[1..] + [b];
    }
  }

  // One pass of the table loop absorbs one byte.
  lemma {:induction false} LoopStep(table: seq<bv32>, crc: bv32, b: byte)
    requires IsTable(table)
    ensures Xor(table[Index(Xor(crc, Wide(b)))], Down(crc)) == Absorb(crc, b)
  {
    hide Shifts, Xor, Down, Bits, Low;
    var x := Xor(crc, Wide(b));
    TableStep(x);
    DownIgnoresByte(crc, Bits(b));
  }

  // crc32c: the table loop computes the bit-at-a-time checksum.
  method Crc32c(table: seq<bv32>, data: seq<byte>, seed: bv32) returns (crc: bv32)
    requires IsTable(table)
    ensures crc == Crc(data, seed)
  {
    hide Xor, Down, Absorb, Wide, Shifts;
    crc := Not(seed);
    for i := 0 to |data|
      invariant crc == AbsorbAll(Not(seed), data[..i])
    {
      LoopStep(table, crc, data[i]);
      AbsorbPush(Not(seed), data[..i], data[i]);
      assert data[..i + 1] == data[..i] + [data[i]];
      crc := Xor(table[Index(Xor(crc, Wide(data[i])))], Down(crc));
    }
    assert data[..|data|] == data;
    crc := Not(crc);
  }

  // --------------------------------------------------------------------------
  // Chaining and detection
  // --------------------------------------------------------------------------

  lemma {:induction false} AbsorbConcat(crc: bv32, a: seq<byte>, b: seq<byte>)
    ensures AbsorbAll(crc, a + b) == AbsorbAll(AbsorbAll(crc, a), b)
    decreases |a|
  {
    hide Absorb;
    if a == [] {
      assert a + b == b;
    } else {
      AbsorbConcat(Absorb(crc, a[0]), a[1..], b);
      assert (a + b)[1..] == a[1..] + b;
    }
  }

  lemma {:induction false} NotNot(x: bv32)
    ensures Not(Not(x)) == x
  {
  }

  // Feeding one checksum in as the seed of the next is the checksum of both.
  lemma {:induction false} Chaining(a: seq<byte>, b: seq<byte>, seed: bv32)
    ensures Crc(b, Crc(a, seed)) == Crc(a + b, seed)
  {
    hide AbsorbAll, Not;
    AbsorbConcat(Not(seed), a, b);
    NotNot(AbsorbAll(Not(seed), a));
  }

  lemma {:induction false} AbsorbInjective(x: bv32, y: bv32, data: seq<byte>)
    requires x != y
    ensures AbsorbAll(x, data) != AbsorbAll(y, data)
    decreases |data|
  {
    hide Shifts, Xor, Wide;
    if data != [] {
      var w := Wide(data[0]);
      XorZero(x, y);
      XorAssoc(w, x, y);
      XorCommutes(w, x);
      XorCommutes(w, y);
      XorZero(Xor(x, w), Xor(y, w));
      ShiftsInjective(Xor(x, w), Xor(y, w), 8);
      AbsorbInjective(Absorb(x, data[0]), Absorb(y, data[0]), data[1..]);
    }
  }

  lemma {:induction false} XorCommutes(x: bv32, y: bv32)
    ensures Xor(x, y) == Xor(y, x)
  {
  }

  // --------------------------------------------------------------------------
  // Bursts of up to four bytes
  // --------------------------------------------------------------------------

  function Up(x: bv32): bv32 { x << 8 }

  // Up to four bytes as one little-endian word.
  function Pack(data: seq<byte>): bv32 {
    if data == [] then 0 else Xor(Wide(data[0]), Up(Pack(data[1..])))
  }

  predicate Narrow(x: bv32, n: nat) {
    if n == 0 then x == 0 else if n == 1 then x < 0x100 else if n == 2 then x < 0x10000 else n == 3 ==> x < 0x1000000
  }

  lemma {:induction false} WideIsNarrow(b: byte)
    ensures Wide(b) < 0x100
  {
    hide Bits;
  }

  lemma {:induction false} NarrowMeans(x: bv32, n: nat)
    requires n < 4 && Narrow(x, n)
    ensures x < 0x1000000
  {
  }

  lemma {:induction false} UpIsClear(x: bv32)
    ensures Up(x) & 0xFF == 0
  {
  }

  lemma {:induction false} UpThenDown(x: bv32)
    requires x < 0x1000000
    ensures Up(x) >> 8 == x
  {
  }

  lemma {:induction false} LowOfJoined(w: bv32, x: bv32)
    requires w < 0x100
    ensures Low(Xor(w, Up(x))) == w
  {
  }

  lemma {:induction false} DownOfJoined(w: bv32, x: bv32)
    requires w < 0x100 && x < 0x1000000
    ensures Down(Xor(w, Up(x))) == x
  {
  }

  lemma {:induction false} NarrowJoined(w: bv32, x: bv32)
    requires w < 0x100
    ensures x == 0 ==> Xor(w, Up(x)) < 0x100
    ensures x < 0x100 ==> Xor(w, Up(x)) < 0x10000
    ensures x < 0x10000 ==> Xor(w, Up(x)) < 0x1000000
  {
  }

  lemma {:induction false} NarrowUp(w: bv32, x: bv32, n: nat)
    requires w < 0x100 && n < 4 && Narrow(x, n)
    ensures Narrow(Xor(w, Up(x)), n + 1)
    ensures Up(x) & 0xFF == 0 && Up(x) >> 8 == x
    ensures Low(Xor(w, Up(x))) == w && Down(Xor(w, Up(x))) == x
  {
    hide Xor, Up, Low, Down;
    NarrowMeans(x, n);
    UpIsClear(x);
    UpThenDown(x);
    LowOfJoined(w, x);
    DownOfJoined(w, x);
    NarrowJoined(w, x);
  }

  lemma {:induction false} PackNarrow(data: seq<byte>)
    requires |data| <= 4
    ensures Narrow(Pack(data), |data|)
  {
    hide Narrow, Xor, Up, Wide;
    if data == [] {
      NarrowZero();
    } else {
      PackNarrow(data[1..]);
      WideIsNarrow(data[0]);
      NarrowUp(Wide(data[0]), Pack(data[1..]), |data| - 1);
    }
  }

  lemma {:induction false} NarrowZero()
    ensures Narrow(0, 0)
  {
  }

  lemma {:induction false} WideInjective(a: byte, b: byte)
    requires Wide(a) == Wide(b)
    ensures a == b
  {
    var x, y := Bits(a), Bits(b);
    hide Bits;
    assert x == y by { Widened(x, y); }
  }

  lemma {:induction false} Widened(x: bv8, y: bv8)
    requires x as bv32 == y as bv32
    ensures x == y
  {
  }

  lemma {:induction false} PackInjective(a: seq<byte>, b: seq<byte>)
    requires |a| == |b| <= 4 && Pack(a) == Pack(b)
    ensures a == b
    decreases |a|
  {
    hide Narrow, Xor, Up, Wide, Low, Down;
    if a != [] {
      PackNarrow(a[1..]);
      PackNarrow(b[1..]);
      WideIsNarrow(a[0]);
      WideIsNarrow(b[0]);
      NarrowUp(Wide(a[0]), Pack(a[1..]), |a| - 1);
      NarrowUp(Wide(b[0]), Pack(b[1..]), |b| - 1);
      WideInjective(a[0], b[0]);
      PackInjective(a[1..], b[1..]);
      assert a == [a[0]] + a[1..] && b == [b[0]] + b[1..];
    }
  }

  // A byte about to be absorbed could have been absorbed earlier, further up.
  lemma {:induction false} Hoist(x: bv32, y: bv32, n: nat)
    requires n < 4 && Narrow(y, n)
    ensures Xor(Shifts(x, 8), y) == Shifts(Xor(x, Up(y)), 8)
  {
    hide Shifts, Xor, Up, Narrow;
    NarrowUp(0, y, n);
    ShiftsLinear(x, Up(y), 8);
    ShiftsOfHigh(Up(y));
  }

  // Absorbing up to four bytes is shifting their word in at once.
  lemma {:induction false} AbsorbPacked(crc: bv32, data: seq<byte>)
    requires |data| <= 4
    ensures AbsorbAll(crc, data) == Shifts(Xor(crc, Pack(data)), 8 * |data|)
    decreases |data|
  {
    hide Shifts, Xor, Up, Narrow, Wide;
    if data == [] {
      XorNothing(crc);
    } else {
      var b, rest := data[0], data[1..];
      AbsorbPacked(Absorb(crc, b), rest);
      PackNarrow(rest);
      var x := Xor(crc, Wide(b));
      Hoist(x, Pack(rest), |rest|);
      XorAssoc(crc, Wide(b), Up(Pack(rest)));
      ShiftsAdd(Xor(x, Up(Pack(rest))), 8, 8 * |rest|);
    }
  }

  lemma {:induction false} XorNothing(x: bv32)
    ensures Shifts(Xor(x, 0), 0) == x
  {
  }

  lemma {:induction false} BurstStates(crc: bv32, a: seq<byte>, b: seq<byte>)
    requires |a| == |b| <= 4 && a != b
    ensures AbsorbAll(crc, a) != AbsorbAll(crc, b)
  {
    hide Shifts, Xor, Pack, AbsorbAll;
    AbsorbPacked(crc, a);
    AbsorbPacked(crc, b);
    if Pack(a) == Pack(b) {
      PackInjective(a, b);
    } else {
      XorZero(Pack(a), Pack(b));
      XorAssoc(crc, Pack(a), Pack(b));
      XorZero(Xor(crc, Pack(a)), Xor(crc, Pack(b)));
      ShiftsInjective(Xor(crc, Pack(a)), Xor(crc, Pack(b)), 8 * |a|);
    }
  }

  // Replacing up to four consecutive bytes by different ones changes the checksum.
  lemma {:induction false} BurstDetected(before: seq<byte>, a: seq<byte>, b: seq<byte>, after: seq<byte>, seed: bv32)
    requires |a| == |b| <= 4 && a != b
    ensures Crc(before + a + after, seed) != Crc(before + b + after, seed)
  {
    hide AbsorbAll, Not;
    var start := AbsorbAll(Not(seed), before);
    AbsorbConcat(Not(seed), before + a, after);
    AbsorbConcat(Not(seed), before + b, after);
    AbsorbConcat(Not(seed), before, a);
    AbsorbConcat(Not(seed), before, b);
    BurstStates(start, a, b);
    AbsorbInjective(AbsorbAll(start, a), AbsorbAll(start, b), after);
    NotInjective(AbsorbAll(Not(seed), before + a + after), AbsorbAll(Not(seed), before + b + after));
  }

  lemma {:induction false} NotTwice(x: bv32)
    ensures Not(Not(x)) == x
  {
  }

  lemma {:induction false} NotInjective(x: bv32, y: bv32)
    requires x != y
    ensures Not(x) != Not(y)
  {
    hide Not;
    NotTwice(x);
    NotTwice(y);
  }

  // Strings of one length that differ in exactly one byte have different checksums.
  lemma {:induction false} OneByteDetected(a: seq<byte>, b: seq<byte>, k: nat, seed: bv32)
    requires |a| == |b| && k < |a| && a[k] != b[k]
    requires forall i | 0 <= i < |a| && i != k :: a[i] == b[i]
    ensures Crc(a, seed) != Crc(b, seed)
  {
    assert a == a[..k] + [a[k]] + a[k + 1..];
    assert b == a[..k] + [b[k]] + a[k + 1..];
    assert [a[k]] != [b[k]] by { assert [a[k]][0] != [b[k]][0]; }
    BurstDetected(a[..k], [a[k]], [b[k]], a[k + 1..], seed);
  }

  // --------------------------------------------------------------------------
  // The polynomial
  // --------------------------------------------------------------------------

  // x^e below x^32, in the reflected form: the highest power in the lowest bit.
  function Power(e: nat): bv32
    requires e < 32
  {
    (1 as bv32) << (31 - e)
  }

  // POLYNOMIAL is x^32 + x^28 + x^27 + x^26 + x^25 + x^23 + x^22 + x^20 + x^19 + x^18 + x^14
  // + x^13 + x^11 + x^10 + x^9 + x^8 + x^6 + 1, its leading power left out.
  lemma {:induction false} PolynomialIs()
    ensures POLYNOMIAL ==
      Power(28) ^ Power(27) ^ Power(26) ^ Power(25) ^ Power(23) ^ Power(22) ^ Power(20) ^ Power(19) ^ Power(18)
      ^ Power(14) ^ Power(13) ^ Power(11) ^ Power(10) ^ Power(9) ^ Power(8) ^ Power(6) ^ Power(0)
  {
    assert Power(28) == 0x8 && Power(27) == 0x10 && Power(26) == 0x20 && Power(25) == 0x40;
    assert Power(23) == 0x100 && Power(22) == 0x200 && Power(20) == 0x800 && Power(19) == 0x1000;
    assert Power(18) == 0x2000 && Power(14) == 0x2_0000 && Power(13) == 0x4_0000 && Power(11) == 0x10_0000;
    assert Power(10) == 0x20_0000 && Power(9) == 0x40_0000 && Power(8) == 0x80_0000;
    assert Power(6) == 0x200_0000 && Power(0) == 0x8000_0000;
  }

  // One byte, given by its bits and by what it makes of a word.
  lemma {:induction false} AbsorbsTo(crc: bv32, b: byte, w: bv8, next: bv32)
    requires w as nat == b && Shift(Shift(Shift(Shift(Shift(Shift(Shift(Shift(Xor(crc, w as bv32))))))))) == next
    ensures Absorb(crc, b) == next
  {
    hide Shift, Xor, Bits;
    SameByte(Bits(b), w);
    EightShifts(Xor(crc, w as bv32));
  }

  // The check value: the checksum of the digits one to nine.
  lemma {:induction false} CheckValue()
    ensures Crc([49, 50, 51, 52, 53, 54, 55, 56, 57], 0) == 0xE3069283
  {
    hide Absorb;
    var data: seq<byte> := [49, 50, 51, 52, 53, 54, 55, 56, 57];
    AbsorbsTo(0xFFFFFFFF, 49, 0x31, 0x6F0A661C);
    AbsorbsTo(0x6F0A661C, 50, 0x32, 0x8CAA3B9F);
    AbsorbsTo(0x8CAA3B9F, 51, 0x33, 0xEF84D04D);
    AbsorbsTo(0xEF84D04D, 52, 0x34, 0x09C50B11);
    AbsorbsTo(0x09C50B11, 53, 0x35, 0xE72EDCCA);
    AbsorbsTo(0xE72EDCCA, 54, 0x36, 0xBECA8E79);
    AbsorbsTo(0xBECA8E79, 55, 0x37, 0xEDBD6815);
    AbsorbsTo(0xEDBD6815, 56, 0x38, 0x9F787F65);
    AbsorbsTo(0x9F787F65, 57, 0x39, 0x1CF96D7C);
    assert AbsorbAll(0xFFFFFFFF, data) == AbsorbAll(0x6F0A661C, data[1..]);
    assert AbsorbAll(0x6F0A661C, data[1..]) == AbsorbAll(0x8CAA3B9F, data[2..]);
    assert AbsorbAll(0x8CAA3B9F, data[2..]) == AbsorbAll(0xEF84D04D, data[3..]);
    assert AbsorbAll(0xEF84D04D, data[3..]) == AbsorbAll(0x09C50B11, data[4..]);
    assert AbsorbAll(0x09C50B11, data[4..]) == AbsorbAll(0xE72EDCCA, data[5..]);
    assert AbsorbAll(0xE72EDCCA, data[5..]) == AbsorbAll(0xBECA8E79, data[6..]);
    assert AbsorbAll(0xBECA8E79, data[6..]) == AbsorbAll(0xEDBD6815, data[7..]);
    assert AbsorbAll(0xEDBD6815, data[7..]) == AbsorbAll(0x9F787F65, data[8..]);
    assert AbsorbAll(0x9F787F65, data[8..]) == AbsorbAll(0x1CF96D7C, data[9..]);
  }
}
