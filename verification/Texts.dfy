/** The text operations that key building and key parsing use: splitting and joining at colons, upper case, padding. */
module Texts {
  predicate ColonFree(s: string) {
    ':' !in s
  }

  predicate StartsWith(s: string, p: string) {
    |p| <= |s| && s[..|p|] == p
  }

  /** Python's s.split(":"). */
  function Split(s: string): (parts: seq<string>)
    ensures parts != []
  {
    if s == [] then [""]
    else
      var rest := Split(s[1..]);
      if s[0] == ':' then [""] + rest else [[s[0]] + rest[0]] + rest[1..]
  }

  /** Python's ":".join(parts). */
  function Join(parts: seq<string>): string {
    if parts == [] then "" else if |parts| == 1 then parts[0] else parts[0] + ":" + Join(parts[1..])
  }

  function LastPart(s: string): string {
    var parts := Split(s);
    parts[|parts| - 1]
  }

  lemma {:induction false} SplitParts(s: string)
    ensures forall i | 0 <= i < |Split(s)| :: ColonFree(Split(s)[i])
  {
    if s != [] { SplitParts(s[1..]); }
  }

  lemma {:induction false} SplitColonFree(s: string)
    requires ColonFree(s)
    ensures Split(s) == [s]
  {
    if s != [] {
      SplitColonFree(s[1..]);
      assert s == [s[0]] + s[1..];
    }
  }

  function Glue(c: char, parts: seq<string>): seq<string>
    requires parts != []
  {
    if c == ':' then [""] + parts else [[c] + parts[0]] + parts[1..]
  }

  lemma SplitCons(c: char, s: string)
    ensures Split([c] + s) == Glue(c, Split(s))
  {
  }

  lemma GlueConcat(c: char, a: seq<string>, b: seq<string>)
    requires a != []
    ensures Glue(c, a + b) == Glue(c, a) + b
  {
  }

  /** A colon cuts a text into the parts of both sides, whatever they hold. */
  lemma {:induction false} SplitAtColon(a: string, b: string)
    ensures Split(a + ":" + b) == Split(a) + Split(b)
  {
    if a == [] {
      SplitCons(':', b);
      assert a + ":" + b == [':'] + b;
    } else {
      hide Split, Glue;
      SplitAtColon(a[1..], b);
      SplitCons(a[0], a[1..]);
      SplitCons(a[0], a[1..] + ":" + b);
      GlueConcat(a[0], Split(a[1..]), Split(b));
      assert a == [a[0]] + a[1..];
      assert a + ":" + b == [a[0]] + (a[1..] + ":" + b);
    }
  }

  lemma {:induction false} JoinOfSplit(s: string)
    ensures Join(Split(s)) == s
  {
    if s != [] {
      JoinOfSplit(s[1..]);
      var rest := Split(s[1..]);
      if s[0] == ':' {
        assert ([""] + rest)[1..] == rest;
        assert s == "" + ":" + s[1..];
      } else {
        assert ([[s[0]] + rest[0]] + rest[1..])[1..] == rest[1..];
        assert s == [s[0]] + s[1..];
        if |rest| > 1 {
          assert [s[0]] + (rest[0] + ":" + Join(rest[1..])) == [s[0]] + rest[0] + ":" + Join(rest[1..]);
        }
      }
    }
  }

  lemma {:induction false} JoinConcat(a: seq<string>, b: seq<string>)
    requires a != [] && b != []
    ensures Join(a + b) == Join(a) + ":" + Join(b)
  {
    if |a| == 1 {
      assert a + b == [a[0]] + b && (a + b)[1..] == b;
    } else {
      assert (a + b)[1..] == a[1..] + b;
      JoinConcat(a[1..], b);
      assert a[0] + ":" + (Join(a[1..]) + ":" + Join(b)) == a[0] + ":" + Join(a[1..]) + ":" + Join(b);
    }
  }

  /** The text after the last colon of a key built with one. */
  lemma LastPartOf(a: string, id: string)
    requires ColonFree(id)
    ensures LastPart(a + ":" + id) == id
  {
    SplitAtColon(a, id);
    SplitColonFree(id);
  }

  // ---------- letters ----------

  /** Upper case, ASCII letters only. */
  function UpperChar(c: char): char {
    if 'a' <= c <= 'z' then ((c as int - 32) as char) else c
  }

  function Upper(s: string): (r: string)
    ensures |r| == |s|
  {
    if s == [] then [] else [UpperChar(s[0])] + Upper(s[1..])
  }

  predicate IsSpace(c: char) {
    '\t' <= c <= '\r' || '\U{1C}' <= c <= ' '
  }

  function Strip(s: string): string {
    if s == [] then []
    else if IsSpace(s[0]) then Strip(s[1..])
    else if IsSpace(s[|s| - 1]) then Strip(s[..|s| - 1])
    else s
  }

  predicate IsRefChar(c: char) {
    'A' <= c <= 'Z' || 'a' <= c <= 'z' || '0' <= c <= '9' || c == '-' || c == '_'
  }

  /** The cleaned reference: upper case, then only letters, digits, hyphen and underscore. */
  function CleanRef(s: string): (r: string)
    ensures ColonFree(r)
  {
    if s == [] then [] else
    var c := UpperChar(s[0]);
    if IsRefChar(c) then [c] + CleanRef(s[1..]) else CleanRef(s[1..])
  }

  // ---------- numbers ----------

  function DigitOf(d: nat): char
    requires d < 10
  {
    "0123456789"[d]
  }

  function Decimal(n: nat): (s: string)
    ensures s != []
  {
    if n < 10 then [DigitOf(n)] else Decimal(n / 10) + [DigitOf(n % 10)]
  }

  function Zeros(n: nat): (s: string)
    ensures |s| == n
  {
    if n == 0 then "" else "0" + Zeros(n - 1)
  }

  /** Python's format spec 010d: at least ten characters, zero-padded after the sign. */
  function TenDigits(n: int): string {
    if n >= 0 then
      var d := Decimal(n); if |d| < 10 then Zeros(10 - |d|) + d else d
    else
      var d := Decimal(-n); if |d| < 9 then "-" + Zeros(9 - |d|) + d else "-" + d
  }

  /** The last w decimal digits of n, zero-padded. */
  function Padded(n: nat, w: nat): (s: string)
    ensures |s| == w
    decreases w, n
  {
    if w == 0 then "" else Padded(n / 10, w - 1) + [DigitOf(n % 10)]
  }

  /** The value of a text of digits. */
  function NatOf(s: string): int {
    if s == [] then 0 else 10 * NatOf(s[..|s| - 1]) + (s[|s| - 1] as int - '0' as int)
  }

  /** Python's int() of a text of digits, with or without a minus sign. */
  function IntOf(s: string): int {
    if s != [] && s[0] == '-' then -NatOf(s[1..]) else NatOf(s)
  }

  function Pow10(w: nat): (p: nat)
    ensures p > 0
  {
    if w == 0 then 1 else 10 * Pow10(w - 1)
  }

  lemma {:induction false} ZerosEnd(n: nat)
    ensures Zeros(n + 1) == Zeros(n) + "0"
  {
    if n != 0 { ZerosEnd(n - 1); }
  }

  lemma {:induction false} PaddedZero(w: nat)
    ensures Padded(0, w) == Zeros(w)
    decreases w
  {
    if w != 0 {
      PaddedZero(w - 1);
      ZerosEnd(w - 1);
    }
  }

  lemma {:induction false} PaddedIsDecimal(n: nat, w: nat)
    requires w > 0 && n < Pow10(w)
    ensures |Decimal(n)| <= w && Padded(n, w) == Zeros(w - |Decimal(n)|) + Decimal(n)
    decreases w
  {
    if n < 10 {
      PaddedZero(w - 1);
    } else {
      assert w > 1;
      PaddedIsDecimal(n / 10, w - 1);
    }
  }

  /** Time stamps below 10^10 get exactly ten digits. */
  lemma TenDigitsPadded(n: nat)
    requires n < Pow10(10)
    ensures TenDigits(n) == Padded(n, 10)
  {
    hide Padded, Decimal, Pow10, Zeros;
    PaddedIsDecimal(n, 10);
  }

  ghost predicate Digits(s: string) {
    forall i | 0 <= i < |s| :: 48 <= s[i] as int <= 57
  }

  lemma {:induction false} DecimalReads(n: nat)
    ensures var s := Decimal(n); Digits(s) && NatOf(s) == n && (|s| > 1 ==> s[0] != '0')
  {
    hide DigitOf, NatOf;
    DigitReads(n % 10);
    if n >= 10 {
      DecimalReads(n / 10);
      DigitReads((n / 10) % 10);
      NatOfNext(Decimal(n / 10), DigitOf(n % 10));
    } else {
      NatOfNone();
      NatOfNext([], DigitOf(n));
      assert [] + [DigitOf(n)] == Decimal(n);
    }
  }

  lemma DigitReads(d: nat)
    requires d < 10
    ensures DigitOf(d) as int == 48 + d
  {
  }

  lemma NatOfNone()
    ensures NatOf([]) == 0
  {
  }

  lemma NatOfNext(s: string, c: char)
    ensures NatOf(s + [c]) == 10 * NatOf(s) + (c as int - 48)
  {
    assert (s + [c])[..|s|] == s;
  }

  lemma {:induction false} ZerosInFront(k: nat, s: string)
    requires Digits(s)
    ensures Digits(Zeros(k) + s) && NatOf(Zeros(k) + s) == NatOf(s)
    decreases |s|, k
  {
    hide NatOf, Zeros;
    if s != [] {
      var front, last := s[..|s| - 1], s[|s| - 1];
      ZerosInFront(k, front);
      NatOfNext(front, last);
      NatOfNext(Zeros(k) + front, last);
      assert s == front + [last] && Zeros(k) + s == (Zeros(k) + front) + [last];
    } else if k != 0 {
      ZerosInFront(k - 1, s);
      ZerosEnd(k - 1);
      NatOfNone();
      NatOfNext(Zeros(k - 1), '0');
      assert Zeros(k) + s == Zeros(k - 1) + "0" && Zeros(k - 1) + s == Zeros(k - 1);
    } else {
      assert Zeros(0) + s == s;
    }
  }

  /** The padded text of a number is its decimal digits after the sign, of ten characters unless it needs more. */
  lemma TenDigitsReads(n: int)
    ensures var s := TenDigits(n);
            && |s| >= 10
            && (n >= 0 ==> Digits(s) && NatOf(s) == n && (|s| > 10 ==> s[0] != '0'))
            && (n < 0 ==> s[0] == '-' && Digits(s[1..]) && NatOf(s[1..]) == -n && (|s| > 10 ==> s[1] != '0'))
  {
    hide Digits, Decimal, NatOf, Zeros;
    var d := Decimal(if n < 0 then -n else n);
    var width := if n < 0 then 9 else 10;
    DecimalReads(if n < 0 then -n else n);
    if |d| < width { ZerosInFront(width - |d|, d); }
    if n < 0 { assert TenDigits(n)[1..] == if |d| < 9 then Zeros(9 - |d|) + d else d; }
  }

  /** It reads back as the number, and has no colon. */
  lemma PrintedReads(n: int)
    ensures IntOf(TenDigits(n)) == n && ColonFree(TenDigits(n))
  {
    hide TenDigits, NatOf;
    TenDigitsReads(n);
    var s := TenDigits(n);
    assert n < 0 ==> s == ['-'] + s[1..];
  }
}
