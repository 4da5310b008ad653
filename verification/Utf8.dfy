/**
 The UTF-8 encoding of texts (section 3 of RFC 3629), by which the client passes keys to the store
 (recon/storage.py:143-154, 177-190): it keeps order, prefixes and difference.
 */
module Utf8 {
  import opened ByteStrings
  import opened Texts

  function EncodeChar(c: char): (b: Bytes)
    ensures b != []
  {
    var n := c as int;
    if n < 0x80 then [n]
    else if n < 0x800 then [0xC0 + n / 64, 0x80 + n % 64]
    else if n < 0x1_0000 then [0xE0 + n / 4096, 0x80 + n / 64 % 64, 0x80 + n % 64]
    else [0xF0 + n / 262144, 0x80 + n / 4096 % 64, 0x80 + n / 64 % 64, 0x80 + n % 64]
  }

  function Encode(s: string): Bytes {
    if s == [] then [] else EncodeChar(s[0]) + Encode(s[1..])
  }

  /** The two part at some byte, and a has the smaller one there. */
  ghost predicate PartsBelow(a: Bytes, b: Bytes, i: nat) {
    i < |a| && i < |b| && a[..i] == b[..i] && a[i] < b[i]
  }

  /** How many bytes a character takes is seen from the first one. */
  lemma LeadTellsLength(c: char)
    ensures var b := EncodeChar(c);
            && (|b| == 1 <==> b[0] < 0x80) && (|b| == 2 <==> 0xC0 <= b[0] < 0xE0) && (|b| == 3 <==> 0xE0 <= b[0] < 0xF0)
            && (|b| == 4 <==> b[0] >= 0xF0) && |b| <= 4
  {
  }

  /** The number of a character from the bytes that encode it. */
  function Decoded(b: seq<int>): int
    requires 1 <= |b| <= 4
  {
    if |b| == 1 then b[0]
    else if |b| == 2 then (b[0] - 0xC0) * 64 + (b[1] - 0x80)
    else if |b| == 3 then (b[0] - 0xE0) * 4096 + (b[1] - 0x80) * 64 + (b[2] - 0x80)
    else (b[0] - 0xF0) * 262144 + (b[1] - 0x80) * 4096 + (b[2] - 0x80) * 64 + (b[3] - 0x80)
  }

  /** The examples of section 7 of RFC 3629. */
  lemma Examples()
    ensures Encode("A\U{2262}\U{0391}.") == [0x41, 0xE2, 0x89, 0xA2, 0xCE, 0x91, 0x2E]
    ensures Encode("\U{FEFF}\U{233B4}") == [0xEF, 0xBB, 0xBF, 0xF0, 0xA3, 0x8E, 0xB4]
  {
  }

  lemma Sixes(n: nat)
    ensures n == 64 * (n / 64) + n % 64 && n / 64 == 64 * (n / 4096) + n / 64 % 64 && n / 4096 == 64 * (n / 262144) + n / 4096 % 64
  {
    assert n / 64 / 64 == n / 4096 && n / 4096 / 64 == n / 262144;
  }

  /** The table of section 3 of RFC 3629: how many bytes, the bits of the character in order, and the range of all bytes but the first. */
  lemma DecodeEncoded(c: char)
    ensures var n := c as int; |EncodeChar(c)| == if n <= 0x7F then 1 else if n <= 0x7FF then 2 else if n <= 0xFFFF then 3 else 4
    ensures Decoded(EncodeChar(c)) == c as int
    ensures forall i | 1 <= i < |EncodeChar(c)| :: 0x80 <= EncodeChar(c)[i] < 0xC0
  {
    Sixes(c as int);
  }

  lemma LongerIsLater(c: char, d: char)
    requires |EncodeChar(c)| < |EncodeChar(d)|
    ensures c < d && EncodeChar(c)[0] < EncodeChar(d)[0]
  {
    LeadTellsLength(c);
    LeadTellsLength(d);
  }

  /** The first byte in which two encodings of one length differ decides. */
  lemma FirstByteDecides(a: Bytes, b: Bytes) returns (i: nat)
    requires 1 <= |a| == |b| <= 4 && Decoded(a) < Decoded(b)
    requires forall j | 1 <= j < |a| :: 0x80 <= a[j] < 0xC0 && 0x80 <= b[j] < 0xC0
    ensures PartsBelow(a, b, i)
  {
    if a[0] != b[0] {
      i := 0;
    } else if a[1] != b[1] {
      i := 1;
    } else if a[2] != b[2] {
      i := 2;
    } else {
      i := 3;
    }
  }

  /** Of two characters the smaller one has the smaller encoding, and neither encoding starts the other. */
  lemma CharsPart(c: char, d: char) returns (i: nat)
    requires c < d
    ensures PartsBelow(EncodeChar(c), EncodeChar(d), i)
  {
    hide EncodeChar, Decoded;
    DecodeEncoded(c);
    DecodeEncoded(d);
    if |EncodeChar(c)| == |EncodeChar(d)| {
      i := FirstByteDecides(EncodeChar(c), EncodeChar(d));
    } else {
      if |EncodeChar(c)| < |EncodeChar(d)| { LongerIsLater(c, d); } else { LongerIsLater(d, c); }
      i := 0;
    }
  }

  lemma {:induction false} PartedIsLess(a: Bytes, b: Bytes, i: nat, x: Bytes, y: Bytes)
    requires PartsBelow(a, b, i)
    ensures Less(a + x, b + y) && !HasPrefix(a + x, b) && !HasPrefix(b + y, a)
  {
    assert (a + x)[i] == a[i] && (b + y)[i] == b[i];
    assert a + x == a[..i] + (a[i..] + x) && b + y == a[..i] + (b[i..] + y);
    LessCommonPrefix(a[..i], a[i..] + x, b[i..] + y);
    assert Less(a[i..] + x, b[i..] + y);
  }

  /** Encoding keeps the order of texts. */
  lemma {:induction false} EncodeKeepsOrder(s: string, t: string)
    requires Less(Codes(s), Codes(t))
    ensures Less(Encode(s), Encode(t))
  {
    hide EncodeChar;
    if s != [] {
      assert Codes(s)[1..] == Codes(s[1..]) && Codes(t)[1..] == Codes(t[1..]);
      if s[0] == t[0] {
        EncodeKeepsOrder(s[1..], t[1..]);
        LessCommonPrefix(EncodeChar(s[0]), Encode(s[1..]), Encode(t[1..]));
      } else {
        var i := CharsPart(s[0], t[0]);
        PartedIsLess(EncodeChar(s[0]), EncodeChar(t[0]), i, Encode(s[1..]), Encode(t[1..]));
      }
    }
  }

  lemma CommonHead(a: Bytes, x: Bytes, y: Bytes)
    ensures HasPrefix(a + x, a + y) <==> HasPrefix(x, y)
  {
    assert |y| <= |x| ==> (a + x)[..|a + y|] == a + x[..|y|];
    assert (a + y)[|a|..] == y;
  }

  /** A longer prefix includes every shorter one. */
  lemma ShorterPrefix(s: Bytes, a: Bytes, y: Bytes)
    requires HasPrefix(s, a + y)
    ensures HasPrefix(s, a)
  {
    assert s[..|a + y|][..|a|] == s[..|a|] && (a + y)[..|a|] == a;
  }

  /** An encoded text starts with an encoded prefix exactly when the text starts with the prefix. */
  lemma {:induction false} EncodeKeepsPrefixes(k: string, p: string)
    ensures HasPrefix(Encode(k), Encode(p)) <==> StartsWith(k, p)
  {
    hide EncodeChar, HasPrefix;
    if p == [] {
      assert HasPrefix(Encode(k), []) by { NothingFirst(Encode(k)); }
    } else if k == [] {
      TooLong(Encode(p));
    } else {
      var a, b, x, y := EncodeChar(k[0]), EncodeChar(p[0]), Encode(k[1..]), Encode(p[1..]);
      StartsWithCons(k, p);
      if k[0] == p[0] {
        EncodeKeepsPrefixes(k[1..], p[1..]);
        CommonHead(a, x, y);
      } else {
        if k[0] < p[0] {
          var i := CharsPart(k[0], p[0]);
          PartedIsLess(a, b, i, x, y);
        } else {
          var i := CharsPart(p[0], k[0]);
          PartedIsLess(b, a, i, y, x);
        }
        if HasPrefix(a + x, b + y) { ShorterPrefix(a + x, b, y); }
      }
    }
  }

  lemma NothingFirst(s: Bytes)
    ensures HasPrefix(s, [])
  {
  }

  lemma TooLong(p: Bytes)
    requires p != []
    ensures !HasPrefix([], p)
  {
  }

  lemma StartsWithCons(k: string, p: string)
    requires k != [] && p != []
    ensures StartsWith(k, p) <==> k[0] == p[0] && StartsWith(k[1..], p[1..])
  {
    if |p| <= |k| {
      assert k[..|p|] == [k[0]] + k[1..][..|p| - 1];
      assert p == [p[0]] + p[1..];
    }
  }

  /** Different texts have different encodings. */
  lemma EncodeInjective(s: string, t: string)
    requires Encode(s) == Encode(t)
    ensures s == t
  {
    hide Encode;
    assert HasPrefix(Encode(s), Encode(t));
    EncodeKeepsPrefixes(s, t);
    EncodeKeepsPrefixes(t, s);
  }
}
