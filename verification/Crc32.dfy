/**
 The checksum of log and table records (MiniVaultDB/src/util/crc32.cpp).

 Registers are numbers below 2^32; exclusive or is written out bit by bit, a right shift is a
 division and a mask is a remainder. The reference is the bit-serial CRC-32: one message bit at a
 time, lowest bit first, through a shift register. The table-driven loops are proved against it.
 */
module Crc32 {
  import opened ByteStrings

  type Register = c: nat | c < U32_LIMIT

  const POLY: Register := 0xEDB8_8320
  const ONES: Register := 0xFFFF_FFFF

  // ---------- exclusive or ----------

  function Xor(a: nat, b: nat): nat {
    if a == 0 && b == 0 then 0 else 2 * Xor(a / 2, b / 2) + (if a % 2 == b % 2 then 0 else 1)
  }

  /** h moved up n places. */
  function Up(h: nat, n: nat): nat {
    if n == 0 then h else 2 * Up(h, n - 1)
  }

  /** x moved down n places. */
  function Down(x: nat, n: nat): nat {
    if n == 0 then x else Down(x / 2, n - 1)
  }

  lemma UpDownEight(x: nat)
    ensures Up(x, 8) == 256 * x && Down(x, 8) == x / 256
  {
    assert Up(x, 8) == 4 * Up(x, 6) == 16 * Up(x, 4) == 64 * Up(x, 2);
    assert Up(x, 2) == 2 * Up(x, 1) == 4 * Up(x, 0);
    var y := x / 2 / 2 / 2 / 2;
    assert Down(x, 8) == Down(x / 2 / 2, 6) == Down(y, 4);
    assert Down(y, 4) == Down(y / 2 / 2, 2);
    assert Down(y / 2 / 2, 2) == Down(y / 2 / 2 / 2, 1) == Down(y / 2 / 2 / 2 / 2, 0);
  }

  lemma Pow2Bytes()
    ensures Pow2(8) == 256 && Pow2(24) == 0x100_0000 && Pow2(31) == 0x8000_0000 && Pow2(32) == U32_LIMIT
  {
    assert Pow2(4) == 16 && Pow2(12) == 4096 && Pow2(16) == 65536;
    assert Pow2(20) == 0x10_0000 && Pow2(24) == 0x100_0000 && Pow2(28) == 0x1000_0000;
  }

  lemma {:induction false} XorBelow(a: nat, b: nat, n: nat)
    requires a < Pow2(n) && b < Pow2(n)
    ensures Xor(a, b) < Pow2(n)
  {
    if n != 0 { XorBelow(a / 2, b / 2, n - 1); }
  }

  lemma XorDowns(a: nat, b: nat)
    ensures Xor(a, b) / 2 == Xor(a / 2, b / 2) && Xor(a, b) % 2 == (if a % 2 == b % 2 then 0 else 1)
  {
  }

  lemma {:induction false} XorCommutes(a: nat, b: nat)
    ensures Xor(a, b) == Xor(b, a)
  {
    if a != 0 || b != 0 { XorCommutes(a / 2, b / 2); }
  }

  lemma SameDowns(x: nat, y: nat)
    requires x / 2 == y / 2 && x % 2 == y % 2
    ensures x == y
  {
  }

  lemma {:induction false} XorAssociates(a: nat, b: nat, c: nat)
    ensures Xor(a, Xor(b, c)) == Xor(Xor(a, b), c)
    decreases a + b + c
  {
    if a != 0 || b != 0 || c != 0 {
      var bc, ab := Xor(b, c), Xor(a, b);
      XorDowns(b, c);
      XorDowns(a, b);
      XorDowns(a, bc);
      XorDowns(ab, c);
      XorAssociates(a / 2, b / 2, c / 2);
      SameDowns(Xor(a, bc), Xor(ab, c));
    }
  }

  lemma {:induction false} XorZero(a: nat)
    ensures Xor(a, 0) == a && Xor(0, a) == a && Xor(a, a) == 0
  {
    if a != 0 { XorZero(a / 2); }
  }

  lemma XorCancels(a: nat, b: nat, x: nat)
    requires Xor(a, x) == Xor(b, x)
    ensures a == b
  {
  }

  lemma XorCancelsLeft(a: nat, b: nat, x: nat)
    requires Xor(x, a) == Xor(x, b)
    ensures a == b
  {
  }

  /** Bits that do not overlap add up. */
  lemma {:induction false} XorDisjoint(low: nat, high: nat, n: nat)
    requires low < Pow2(n)
    ensures Xor(low, Up(high, n)) == low + Up(high, n)
  {
    if n == 0 {
      XorZero(high);
    } else {
      XorDowns(low, Up(high, n));
      XorDisjoint(low / 2, high, n - 1);
    }
  }

  function Xor32(a: Register, b: Register): (c: Register)
    ensures c == Xor(a, b)
  {
    Pow2Bytes();
    XorBelow(a, b, 32);
    Xor(a, b)
  }

  // ---------- the shift register ----------

  /** One step of the shift register, as the table initialiser runs it. */
  function Shift(c: Register): Register {
    if c % 2 == 1 then Xor32(POLY, c / 2) else c / 2
  }

  function Shifts(c: Register, n: nat): Register
    decreases n, c
  {
    if n == 0 then c else Shifts(Shift(c), n - 1)
  }

  /** Feeds one message bit. */
  function Feed(c: Register, bit: nat): Register {
    if c % 2 != bit then Xor32(POLY, c / 2) else c / 2
  }

  /** Feeds the n lowest bits of b, lowest first. */
  function FeedBits(c: Register, b: nat, n: nat): Register
    decreases n, c, b
  {
    if n == 0 then c else FeedBits(Feed(c, b % 2), b / 2, n - 1)
  }

  /** The register after a whole message: the bit-serial reference. */
  function Run(c: Register, data: Bytes): Register {
    if data == [] then c else FeedBits(Run(c, data[..|data| - 1]), data[|data| - 1], 8)
  }

  function Checksum(data: Bytes): Register {
    Xor32(Run(ONES, data), ONES)
  }

  /** The record fields in the order in which the second overload mixes them. */
  function FieldBytes(kind: Byte, keyLen: nat, valueLen: nat, stamp: nat, key: Bytes, value: Bytes): Bytes
    requires keyLen < U32_LIMIT && valueLen < U32_LIMIT && stamp < U64_LIMIT
  {
    [kind] + U32(keyLen) + U32(valueLen) + U64(stamp) + key + value
  }

  lemma {:induction false} RunConcat(c: Register, a: Bytes, b: Bytes)
    ensures Run(c, a + b) == Run(Run(c, a), b)
  {
    if b == [] {
      assert a + b == a;
    } else {
      assert (a + b)[..|a + b| - 1] == a + b[..|b| - 1];
      RunConcat(c, a, b[..|b| - 1]);
    }
  }

  // ---------- known values ----------

  /** Mixing in all ones is the complement. */
  lemma {:induction false} XorOnes(x: nat, n: nat)
    requires x < Pow2(n)
    ensures Xor(x, Pow2(n) - 1) == Pow2(n) - 1 - x
  {
    if n != 0 {
      XorDowns(x, Pow2(n) - 1);
      XorOnes(x / 2, n - 1);
    }
  }

  lemma {:induction false} UpTimes(h: nat, n: nat)
    ensures Up(h, n) == h * Pow2(n)
  {
    if n != 0 { UpTimes(h, n - 1); }
  }

  lemma PolyAndOnes()
    ensures Xor(POLY, 0x00FF_FFFF) == 0xED47_7CDF && Xor(0xED47_7CDF, ONES) == 0x12B8_8320
  {
    Pow2Bytes();
    hide Xor, Up, Pow2;
    UpTimes(0xED, 24);
    XorDisjoint(0xB8_8320, 0xED, 24);
    XorCommutes(0xB8_8320, 0xED00_0000);
    XorAssociates(0xED00_0000, 0xB8_8320, 0xFF_FFFF);
    XorOnes(0xB8_8320, 24);
    XorDisjoint(0x47_7CDF, 0xED, 24);
    XorCommutes(0x47_7CDF, 0xED00_0000);
    XorOnes(0xED47_7CDF, 32);
  }

  lemma FeedSame(c: Register, b: nat, n: nat)
    requires n > 0 && c % 2 == b % 2
    ensures FeedBits(c, b, n) == FeedBits(c / 2, b / 2, n - 1)
  {
    hide Xor;
  }

  lemma FeedLast(c: Register, b: nat)
    requires c % 2 == 1 && b % 2 == 0
    ensures FeedBits(c, b, 1) == Xor32(POLY, c / 2)
  {
    hide Xor;
    assert FeedBits(c, b, 1) == FeedBits(Feed(c, b % 2), b / 2, 0);
  }

  lemma SevenOnes()
    ensures FeedBits(ONES, 0x7F, 8) == Xor32(POLY, 0x00FF_FFFF)
  {
    hide Xor, FeedBits;
    FeedSame(ONES, 0x7F, 8);
    FeedSame(0x7FFF_FFFF, 0x3F, 7);
    FeedSame(0x3FFF_FFFF, 0x1F, 6);
    FeedSame(0x1FFF_FFFF, 0x0F, 5);
    FeedSame(0x0FFF_FFFF, 0x07, 4);
    FeedSame(0x07FF_FFFF, 0x03, 3);
    FeedSame(0x03FF_FFFF, 0x01, 2);
    FeedLast(0x01FF_FFFF, 0x00);
  }

  /** Values of the CRC-32 of IEEE 802.3: of no bytes, and of one byte whose last bit alone meets the polynomial. */
  lemma KnownChecksums()
    ensures Checksum([]) == 0 && Checksum([0x7F]) == 0x12B8_8320
  {
    hide Xor, FeedBits;
    XorZero(ONES);
    PolyAndOnes();
    SevenOnes();
    assert [0x7F][..0] == [];
    assert Run(ONES, [0x7F]) == FeedBits(Run(ONES, []), 0x7F, 8);
  }

  // ---------- a byte at a time ----------

  lemma ShiftOfEven(a: Register, m: nat)
    requires 2 * m < U32_LIMIT
    ensures Shift(Xor32(a, 2 * m)) == Xor32(Shift(a), m)
  {
    XorDowns(a, 2 * m);
    assert 2 * m / 2 == m;
    XorAssociates(POLY, a / 2, m);
  }

  /** While the low bits of one operand are clear the register only moves it down. */
  lemma {:induction false} ShiftsOfMultiple(a: Register, h: nat, n: nat)
    requires h <= Up(h, n) < U32_LIMIT
    ensures Shifts(Xor32(a, Up(h, n)), n) == Xor32(Shifts(a, n), h)
    decreases n
  {
    if n != 0 {
      UpGrows(h, n - 1);
      ShiftOfEven(a, Up(h, n - 1));
      ShiftsOfMultiple(Shift(a), h, n - 1);
    }
  }

  lemma {:induction false} UpGrows(h: nat, n: nat)
    ensures h <= Up(h, n)
  {
    if n != 0 { UpGrows(h, n - 1); }
  }

  /** Eight steps fold in the low byte and move the other three down. */
  lemma EightShifts(x: Register)
    ensures Shifts(x, 8) == Xor32(Shifts(x % 256, 8), x / 256)
  {
    Pow2Bytes();
    UpDownEight(x / 256);
    XorDisjoint(x % 256, x / 256, 8);
    ShiftsOfMultiple(x % 256, x / 256, 8);
  }

  lemma {:induction false} ShiftsAdd(c: Register, m: nat, n: nat)
    ensures Shifts(Shifts(c, m), n) == Shifts(c, m + n)
    decreases m
  {
    if m != 0 { ShiftsAdd(Shift(c), m - 1, n); }
  }

  lemma FeedIsShift(c: Register, b: Register)
    ensures Shift(Xor32(c, b)) == Xor32(Feed(c, b % 2), b / 2)
  {
    XorDowns(c, b);
    XorAssociates(POLY, c / 2, b / 2);
  }

  /** Feeding n bits is n steps from the register with those bits mixed in. */
  lemma {:induction false} FeedBitsIsShifts(c: Register, b: Register, n: nat)
    requires b < Pow2(n)
    ensures FeedBits(c, b, n) == Shifts(Xor32(c, b), n)
    decreases n
  {
    if n == 0 {
      XorZero(c);
    } else {
      FeedIsShift(c, b);
      FeedBitsIsShifts(Feed(c, b % 2), b / 2, n - 1);
    }
  }

  /** What the initialiser stores at an index. */
  function TableEntry(i: Byte): Register {
    Shifts(i, 8)
  }

  lemma {:induction false} HighBitsUntouched(c: nat, b: nat, n: nat)
    requires b < Pow2(n)
    ensures Down(Xor(c, b), n) == Down(c, n)
  {
    if n == 0 {
      XorZero(c);
    } else {
      XorDowns(c, b);
      HighBitsUntouched(c / 2, b / 2, n - 1);
    }
  }

  /** One table lookup does the work of eight bit steps. */
  lemma LookupIsFeedBits(c: Register, b: Byte)
    ensures FeedBits(c, b, 8) == Xor32(TableEntry(Xor(c, b) % 256), c / 256)
  {
    Pow2Bytes();
    FeedBitsIsShifts(c, b, 8);
    EightShifts(Xor32(c, b));
    HighBitsUntouched(c, b, 8);
    UpDownEight(Xor(c, b));
    UpDownEight(c);
  }

  /** The process-wide table, filled on first use. */
  class Table {
    const entries: array<Register>
    var ready: bool

    ghost predicate Valid()
      reads this, entries
    {
      entries.Length == 256 &&
      (ready ==> forall i | 0 <= i < 256 :: entries[i] == TableEntry(i))
    }

    constructor ()
      ensures Valid() && fresh(entries)
    {
      entries := new Register[256];
      ready := false;
    }

    method Init()
      requires Valid()
      modifies this, entries
      ensures Valid() && ready
    {
      var i := 0;
      while i < 256
        invariant 0 <= i <= 256
        invariant forall k | 0 <= k < i :: entries[k] == TableEntry(k)
      {
        var c: Register := i;
        var j := 0;
        while j < 8
          invariant 0 <= j <= 8
          invariant Shifts(c, 8 - j) == TableEntry(i)
        {
          if c % 2 == 1 {
            c := Xor32(POLY, c / 2);
          } else {
            c := c / 2;
          }
          j := j + 1;
        }
        entries[i] := c;
        i := i + 1;
      }
      ready := true;
    }

    /** The byte loop that both overloads share. */
    method Mix(start: Register, data: Bytes) returns (c: Register)
      requires Valid() && ready
      ensures c == Run(start, data)
    {
      c := start;
      var i := 0;
      while i < |data|
        invariant 0 <= i <= |data|
        invariant c == Run(start, data[..i])
      {
        LookupIsFeedBits(c, data[i]);
        assert data[..i + 1][..i] == data[..i];
        c := Xor32(entries[Xor(c, data[i]) % 256], c / 256);
        i := i + 1;
      }
      assert data[..i] == data;
    }

    method Crc(data: Bytes) returns (crc: Register)
      requires Valid()
      modifies this, entries
      ensures Valid() && crc == Checksum(data)
    {
      if !ready {
        Init();
      }
      var c := Mix(ONES, data);
      crc := Xor32(c, ONES);
    }

    method CrcFields(kind: Byte, keyLen: nat, valueLen: nat, stamp: nat, key: Bytes, value: Bytes) returns (crc: Register)
      requires Valid() && keyLen < U32_LIMIT && valueLen < U32_LIMIT && stamp < U64_LIMIT
      modifies this, entries
      ensures Valid() && crc == Checksum(FieldBytes(kind, keyLen, valueLen, stamp, key, value))
    {
      if !ready {
        Init();
      }
      var c := Mix(ONES, [kind]);
      c := Mix(c, U32(keyLen));
      c := Mix(c, U32(valueLen));
      c := Mix(c, U64(stamp));
      c := Mix(c, key);
      if |value| > 0 {
        c := Mix(c, value);
      }
      RunConcat(ONES, [kind], U32(keyLen));
      RunConcat(ONES, [kind] + U32(keyLen), U32(valueLen));
      RunConcat(ONES, [kind] + U32(keyLen) + U32(valueLen), U64(stamp));
      RunConcat(ONES, [kind] + U32(keyLen) + U32(valueLen) + U64(stamp), key);
      RunConcat(ONES, [kind] + U32(keyLen) + U32(valueLen) + U64(stamp) + key, value);
      crc := Xor32(c, ONES);
    }
  }

  // ---------- what damage the checksum detects ----------

  /** The polynomial's top bit tells a step that mixed it in from one that did not. */
  lemma ShiftInjective(a: Register, b: Register)
    requires Shift(a) == Shift(b)
    ensures a == b
  {
    if a % 2 == 1 && b % 2 == 1 {
      XorCancelsLeft(a / 2, b / 2, POLY);
    } else if a % 2 == 1 {
      PolyRaisesTopBit(a / 2);
    } else if b % 2 == 1 {
      PolyRaisesTopBit(b / 2);
    }
  }

  lemma PolyRaisesTopBit(x: nat)
    requires x < 0x8000_0000
    ensures Xor(POLY, x) >= 0x8000_0000
  {
    Pow2Bytes();
    XorAssociates(POLY, x, x);
    XorZero(x);
    XorZero(POLY);
    if Xor(POLY, x) < 0x8000_0000 {
      XorBelow(Xor(POLY, x), x, 31);
    }
  }

  lemma {:induction false} ShiftsInjective(a: Register, b: Register, n: nat)
    requires Shifts(a, n) == Shifts(b, n)
    ensures a == b
    decreases n
  {
    if n != 0 {
      ShiftsInjective(Shift(a), Shift(b), n - 1);
      ShiftInjective(a, b);
    }
  }

  /** Different registers stay different over any common data. */
  lemma {:induction false} RunInjective(c: Register, d: Register, data: Bytes)
    requires Run(c, data) == Run(d, data)
    ensures c == d
  {
    if data != [] {
      var front, b := data[..|data| - 1], data[|data| - 1];
      Pow2Bytes();
      FeedBitsIsShifts(Run(c, front), b, 8);
      FeedBitsIsShifts(Run(d, front), b, 8);
      ShiftsInjective(Xor32(Run(c, front), b), Xor32(Run(d, front), b), 8);
      XorCancels(Run(c, front), Run(d, front), b);
      RunInjective(c, d, front);
    }
  }

  lemma RunOfFirstByte(c: Register, b: Byte, rest: Bytes)
    ensures Run(c, [b] + rest) == Run(FeedBits(c, b, 8), rest)
  {
    RunConcat(c, [b], rest);
    assert [b][..0] == [];
    assert Run(c, []) == c;
  }

  /** Feeding the first byte leaves the other bytes of the word mixed in. */
  lemma WordStep(c: Register, b: Byte, m: nat)
    requires b + 256 * m < U32_LIMIT
    ensures Shifts(Xor32(c, b + 256 * m), 8) == Xor32(FeedBits(c, b, 8), m)
  {
    hide Xor, Shifts, FeedBits, Up, Down;
    Pow2Bytes();
    FeedBitsIsShifts(c, b, 8);
    UpDownEight(m);
    XorDisjoint(b, m, 8);
    XorAssociates(c, b, 256 * m);
    ShiftsOfMultiple(Xor32(c, b), m, 8);
  }

  /** At most four bytes enter the register as one word. */
  lemma {:induction false} RunOfWord(c: Register, w: Bytes)
    requires |w| <= 4 && Number(w) < U32_LIMIT
    ensures Run(c, w) == Shifts(Xor32(c, Number(w)), 8 * |w|)
    decreases |w|
  {
    hide Xor, FeedBits;
    if w == [] {
      XorZero(c);
    } else {
      var b: Byte, rest := w[0], w[1..];
      assert w == [b] + rest;
      RunOfFirstByte(c, b, rest);
      RunOfWord(FeedBits(c, b, 8), rest);
      WordStep(c, b, Number(rest));
      ShiftsAdd(Xor32(c, Number(w)), 8, 8 * |rest|);
    }
  }

  lemma {:induction false} NumberFits(w: Bytes)
    requires |w| <= 4
    ensures Number(w) < U32_LIMIT
  {
    LittleOfNumber(w);
    assert Limit(0) == 1 && Limit(1) == 256 && Limit(2) == 65536 && Limit(3) == 0x100_0000;
    Limits();
  }

  /**
   Damage confined to a window of at most four bytes always changes the checksum, wherever the
   window is and whatever surrounds it.
   */
  lemma BurstDetected(before: Bytes, good: Bytes, bad: Bytes, after: Bytes)
    requires |good| == |bad| <= 4 && good != bad
    ensures Checksum(before + good + after) != Checksum(before + bad + after)
  {
    if Checksum(before + good + after) == Checksum(before + bad + after) {
      var c := Run(ONES, before);
      XorCancels(Run(ONES, before + good + after), Run(ONES, before + bad + after), ONES);
      RunConcat(ONES, before + good, after);
      RunConcat(ONES, before + bad, after);
      RunConcat(ONES, before, good);
      RunConcat(ONES, before, bad);
      RunInjective(Run(c, good), Run(c, bad), after);
      NumberFits(good);
      NumberFits(bad);
      RunOfWord(c, good);
      RunOfWord(c, bad);
      ShiftsInjective(Xor32(c, Number(good)), Xor32(c, Number(bad)), 8 * |good|);
      XorCancelsLeft(Number(good), Number(bad), c);
      LittleOfNumber(good);
      LittleOfNumber(bad);
    }
  }
}
