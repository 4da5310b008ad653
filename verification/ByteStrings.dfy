/** Byte strings: their text order, and the little-endian fields that the log and the tables write. */
module ByteStrings {
  type Byte = b: int | 0 <= b < 256
  type Bytes = seq<Byte>

  const U32_LIMIT: nat := 0x1_0000_0000
  const U64_LIMIT: nat := 0x1_0000_0000_0000_0000

  // ---------- text order ----------

  /** The order of std::string::operator< on unsigned bytes; also the order of a text by code point. */
  predicate Less(a: seq<int>, b: seq<int>) {
    b != [] && (a == [] || a[0] < b[0] || (a[0] == b[0] && Less(a[1..], b[1..])))
  }

  predicate HasPrefix(s: seq<int>, p: seq<int>) {
    |p| <= |s| && s[..|p|] == p
  }

  lemma {:induction false} LessIrreflexive(a: seq<int>)
    ensures !Less(a, a)
  {
    if a != [] { LessIrreflexive(a[1..]); }
  }

  lemma {:induction false} LessTransitive(a: seq<int>, b: seq<int>, c: seq<int>)
    requires Less(a, b) && Less(b, c)
    ensures Less(a, c)
  {
    if a != [] && a[0] == b[0] == c[0] { LessTransitive(a[1..], b[1..], c[1..]); }
  }

  lemma {:induction false} LessTotal(a: seq<int>, b: seq<int>)
    ensures Less(a, b) || a == b || Less(b, a)
  {
    if a != [] && b != [] && a[0] == b[0] {
      LessTotal(a[1..], b[1..]);
      if a[1..] == b[1..] { assert a == [a[0]] + a[1..] == b; }
    }
  }

  lemma LessAsymmetric(a: seq<int>, b: seq<int>)
    requires Less(a, b)
    ensures !Less(b, a) && a != b
  {
  }

  /** A common prefix does not matter to the order. */
  lemma {:induction false} LessCommonPrefix(p: seq<int>, a: seq<int>, b: seq<int>)
    ensures Less(p + a, p + b) <==> Less(a, b)
  {
    if p == [] {
      assert p + a == a && p + b == b;
    } else {
      assert (p + a)[1..] == p[1..] + a && (p + b)[1..] == p[1..] + b;
      LessCommonPrefix(p[1..], a, b);
    }
  }

  /** A string that extends p is not below p. */
  lemma {:induction false} PrefixNotBelow(s: seq<int>, p: seq<int>)
    requires HasPrefix(s, p)
    ensures !Less(s, p)
  {
    if p != [] {
      assert s[1..][..|p| - 1] == p[1..];
      PrefixNotBelow(s[1..], p[1..]);
    }
  }

  /** The strings that extend p are one block of the order, which starts at p itself. */
  lemma {:induction false} PrefixesAreABlock(p: seq<int>, b: seq<int>, c: seq<int>)
    requires !Less(b, p) && Less(b, c) && HasPrefix(c, p)
    ensures HasPrefix(b, p)
  {
    if p != [] {
      assert c[0] == p[0] && b[0] == p[0];
      assert c[1..][..|p| - 1] == p[1..];
      PrefixesAreABlock(p[1..], b[1..], c[1..]);
      assert b[..|p|] == [b[0]] + b[1..][..|p| - 1] == p;
    }
  }

  /** The code points of a text, so that texts and byte strings share one order. */
  function Codes(s: string): (r: seq<int>)
    ensures |r| == |s|
    ensures forall i | 0 <= i < |s| :: r[i] == s[i] as int
  {
    seq(|s|, i requires 0 <= i < |s| => s[i] as int)
  }

  lemma CodesInjective(s: string, t: string)
    requires Codes(s) == Codes(t)
    ensures s == t
  {
  }

  lemma CodesConcat(s: string, t: string)
    ensures Codes(s + t) == Codes(s) + Codes(t)
  {
  }

  // ---------- powers of two ----------

  function Pow2(n: nat): (p: nat)
    ensures p > 0
  {
    if n == 0 then 1 else 2 * Pow2(n - 1)
  }

  // ---------- little-endian fields ----------

  /** n in w bytes, lowest first. */
  function Little(n: nat, w: nat): (r: Bytes)
    ensures |r| == w
    decreases w, n
  {
    if w == 0 then [] else [n % 256] + Little(n / 256, w - 1)
  }

  /** The number that a little-endian field holds. */
  function Number(b: Bytes): nat {
    if b == [] then 0 else var low: int := b[0]; low + 256 * Number(b[1..])
  }

  function Limit(w: nat): (l: nat)
    ensures l > 0
  {
    if w == 0 then 1 else 256 * Limit(w - 1)
  }

  lemma Limits()
    ensures Limit(4) == U32_LIMIT && Limit(8) == U64_LIMIT
  {
  }

  lemma {:induction false} NumberOfLittle(n: nat, w: nat)
    requires n < Limit(w)
    ensures Number(Little(n, w)) == n
    decreases w
  {
    if w != 0 { NumberOfLittle(n / 256, w - 1); }
  }

  lemma NumberStep(low: Byte, rest: Bytes)
    ensures var n: int := low; Number([low] + rest) == n + 256 * Number(rest)
    ensures Number(rest) < Limit(|rest|) ==> Number([low] + rest) < Limit(|[low] + rest|)
  {
    assert ([low] + rest)[1..] == rest;
  }

  lemma LittleStep(low: nat, high: nat, w: nat)
    requires low < 256
    ensures Little(low + 256 * high, w + 1) == [low] + Little(high, w)
  {
    assert (low + 256 * high) % 256 == low && (low + 256 * high) / 256 == high;
  }

  lemma {:induction false} LittleOfNumber(b: Bytes)
    ensures Little(Number(b), |b|) == b && Number(b) < Limit(|b|)
  {
    if b != [] {
      hide Little, Number, Limit;
      LittleOfNumber(b[1..]);
      NumberStep(b[0], b[1..]);
      LittleStep(b[0], Number(b[1..]), |b| - 1);
      assert b == [b[0]] + b[1..];
    }
  }

  function U32(n: nat): (r: Bytes)
    requires n < U32_LIMIT
    ensures |r| == 4
  {
    Little(n, 4)
  }

  function U64(n: nat): (r: Bytes)
    requires n < U64_LIMIT
    ensures |r| == 8
  {
    Little(n, 8)
  }

  function ReadU32(b: Bytes): (n: nat)
    requires |b| == 4
    ensures n < U32_LIMIT && U32(n) == b
  {
    LittleOfNumber(b);
    Limits();
    Number(b)
  }

  function ReadU64(b: Bytes): (n: nat)
    requires |b| == 8
    ensures n < U64_LIMIT && U64(n) == b
  {
    LittleOfNumber(b);
    Limits();
    Number(b)
  }

  /** The lowest byte comes first. */
  lemma U32Bytes(n: nat)
    requires n < 0x1_0000_0000
    ensures U32(n) == [n % 0x100, n / 0x100 % 0x100, n / 0x1_0000 % 0x100, n / 0x100_0000]
  {
    assert Little(n, 4) == [n % 256] + Little(n / 256, 3);
    assert Little(n / 256, 3) == [n / 256 % 256] + Little(n / 256 / 256, 2);
    assert Little(n / 256 / 256, 2) == [n / 256 / 256 % 256] + Little(n / 256 / 256 / 256, 1);
    assert Little(n / 256 / 256 / 256, 1) == [n / 256 / 256 / 256 % 256];
    assert n / 256 / 256 == n / 0x1_0000 && n / 256 / 256 / 256 == n / 0x100_0000;
  }

  /** A 64-bit field is two 32-bit fields, the lower half first. */
  lemma U64Halves(n: nat)
    requires n < 0x1_0000_0000_0000_0000
    ensures U64(n) == U32(n % 0x1_0000_0000) + U32(n / 0x1_0000_0000)
  {
    Limits();
    LittleOfNumber(U32(n % 0x1_0000_0000) + U32(n / 0x1_0000_0000));
    NumberOfLittle(n % 0x1_0000_0000, 4);
    NumberOfLittle(n / 0x1_0000_0000, 4);
    NumberConcat(U32(n % 0x1_0000_0000), U32(n / 0x1_0000_0000));
  }

  lemma LimitStep(w: nat)
    requires w > 0
    ensures Limit(w) == 256 * Limit(w - 1)
  {
  }

  lemma Regroup(x: nat, y: nat)
    ensures 256 * (x * y) == (256 * x) * y
  {
  }

  lemma {:induction false} NumberConcat(a: Bytes, b: Bytes)
    ensures Number(a + b) == Number(a) + Limit(|a|) * Number(b)
  {
    if a == [] {
      assert a + b == b;
    } else {
      hide Number, Limit;
      assert a + b == [a[0]] + (a[1..] + b) && a == [a[0]] + a[1..];
      NumberConcat(a[1..], b);
      NumberStep(a[0], a[1..] + b);
      NumberStep(a[0], a[1..]);
      LimitStep(|a|);
      Regroup(Limit(|a| - 1), Number(b));
    }
  }

  lemma U32RoundTrip(n: nat)
    requires n < U32_LIMIT
    ensures ReadU32(U32(n)) == n
  {
    Limits();
    NumberOfLittle(n, 4);
  }

  lemma U64RoundTrip(n: nat)
    requires n < U64_LIMIT
    ensures ReadU64(U64(n)) == n
  {
    Limits();
    NumberOfLittle(n, 8);
  }
}
