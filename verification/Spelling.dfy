/**
 When two texts count as the same: currency codes up to case and blanks at the ends, references up to
 case and punctuation (recon/rules.py:300-302, recon/matcher.py:537, ingestion/schemas.py:128, 145).
 Characters are told by their code points.
 */
module Spelling {
  import opened Texts

  /** The same character, or the two cases of one ASCII letter. */
  predicate EqualUpToCase(c: char, d: char) {
    || c == d
    || (65 <= c as int <= 90 && d as int == c as int + 32)
    || (65 <= d as int <= 90 && c as int == d as int + 32)
  }

  /** Tab to carriage return, the four separators, and the space. */
  predicate Blank(c: char) {
    9 <= c as int <= 13 || 28 <= c as int <= 32
  }

  /** What is neither an ASCII letter nor a digit nor a hyphen nor an underscore. */
  predicate Punctuation(c: char) {
    var n := c as int;
    !(65 <= n <= 90 || 97 <= n <= 122 || 48 <= n <= 57 || n == 45 || n == 95)
  }

  // ---------- currency codes ----------

  /** Before i and from j on there are only blanks, and what is left neither starts nor ends with one. */
  ghost predicate Core(s: string, i: nat, j: nat) {
    && i <= j <= |s|
    && (forall m | 0 <= m < i :: Blank(s[m])) && (forall m | j <= m < |s| :: Blank(s[m]))
    && (i < j ==> !Blank(s[i]) && !Blank(s[j - 1]))
  }

  /** As long as each other, and place by place equal up to case. */
  ghost predicate Alike(x: string, y: string) {
    |x| == |y| && forall m | 0 <= m < |x| :: EqualUpToCase(x[m], y[m])
  }

  /** Two codes that differ at most in the case of letters and in blanks at the ends. */
  ghost predicate SameCode(a: string, b: string) {
    exists i: nat, j: nat, k: nat, l: nat :: Core(a, i, j) && Core(b, k, l) && Alike(a[i..j], b[k..l])
  }

  lemma BlankIsSpace(c: char)
    ensures Blank(c) <==> IsSpace(c)
  {
  }

  /** Any core of a text is what stripping leaves. */
  lemma {:induction false} StripIsCore(s: string, i: nat, j: nat)
    requires Core(s, i, j)
    ensures Strip(s) == s[i..j]
    decreases |s|
  {
    if s != [] {
      var last := |s| - 1;
      BlankIsSpace(s[0]);
      BlankIsSpace(s[last]);
      if IsSpace(s[0]) {
        if i == 0 {
          assert j == 0;
          StripIsCore(s[1..], 0, 0);
        } else {
          StripIsCore(s[1..], i - 1, j - 1);
          assert s[1..][i - 1..j - 1] == s[i..j];
        }
      } else if IsSpace(s[last]) {
        StripIsCore(s[..last], i, j);
        assert s[..last][i..j] == s[i..j];
      } else {
        assert i == 0 && j == |s|;
      }
    }
  }

  lemma {:induction false} CoreOf(s: string) returns (i: nat, j: nat)
    ensures Core(s, i, j)
    decreases |s|
  {
    i, j := 0, |s|;
    if s != [] {
      var last := |s| - 1;
      if Blank(s[last]) {
        i, j := CoreOf(s[..last]);
      } else if Blank(s[0]) {
        i, j := CoreOf(s[1..]);
        i, j := i + 1, j + 1;
        assert forall m | 0 < m < |s| :: s[1..][m - 1] == s[m];
        assert forall m | j <= m < |s| :: s[m] == s[1..][m - 1];
      }
    }
  }

  lemma UpperUpToCase(c: char, d: char)
    ensures UpperChar(c) == UpperChar(d) <==> EqualUpToCase(c, d)
  {
  }

  lemma {:induction false} UpperAt(s: string, m: nat)
    requires m < |s|
    ensures Upper(s)[m] == UpperChar(s[m])
  {
    if m != 0 { UpperAt(s[1..], m - 1); }
  }

  /** Upper case makes two texts equal exactly when they are as long and alike up to case, place by place. */
  lemma UpperMakesEqual(a: string, b: string)
    ensures Upper(a) == Upper(b) <==> Alike(a, b)
  {
    hide Upper, UpperChar, EqualUpToCase;
    if |a| == |b| {
      forall m | 0 <= m < |a|
        ensures Upper(a)[m] == Upper(b)[m] <==> EqualUpToCase(a[m], b[m])
      {
        UpperAt(a, m);
        UpperAt(b, m);
        UpperUpToCase(a[m], b[m]);
      }
    }
  }

  /** Stripping and upper case make two codes equal exactly when they are the same but for case and outer blanks. */
  lemma SameCodeExactly(a: string, b: string)
    ensures Upper(Strip(a)) == Upper(Strip(b)) <==> SameCode(a, b)
  {
    hide Upper, Strip, Alike, Blank;
    forall i: nat, j: nat, k: nat, l: nat | Core(a, i, j) && Core(b, k, l)
      ensures Upper(Strip(a)) == Upper(Strip(b)) <==> Alike(a[i..j], b[k..l])
    {
      CoresAlike(a, i, j, b, k, l);
    }
    var i, j := CoreOf(a);
    var k, l := CoreOf(b);
  }

  lemma CoresAlike(a: string, i: nat, j: nat, b: string, k: nat, l: nat)
    requires Core(a, i, j) && Core(b, k, l)
    ensures Upper(Strip(a)) == Upper(Strip(b)) <==> Alike(a[i..j], b[k..l])
  {
    hide Upper, Strip, Alike, Blank;
    StripIsCore(a, i, j);
    StripIsCore(b, k, l);
    UpperMakesEqual(a[i..j], b[k..l]);
  }

  ghost predicate UpperLetters(s: string) {
    forall m | 0 <= m < |s| :: 65 <= s[m] as int <= 90
  }

  /** Codes of upper-case letters are the same code only if they are equal. */
  lemma PlainCodes(a: string, b: string)
    requires UpperLetters(a) && UpperLetters(b)
    ensures SameCode(a, b) <==> a == b
  {
    hide Upper, Strip;
    CoresAlike(a, 0, |a|, b, 0, |b|);
    SameCodeExactly(a, b);
    assert a[0..|a|] == a && b[0..|b|] == b;
  }

  // ---------- references ----------

  /** Two references that are alike up to case once punctuation is passed over. */
  predicate SpelledAlike(x: string, y: string)
    decreases |x| + |y|
  {
    if x != [] && Punctuation(x[0]) then SpelledAlike(x[1..], y)
    else if y != [] && Punctuation(y[0]) then SpelledAlike(x, y[1..])
    else if x == [] || y == [] then x == y
    else EqualUpToCase(x[0], y[0]) && SpelledAlike(x[1..], y[1..])
  }

  /** What one character leaves in a cleaned reference. */
  lemma CleanedChar(c: char)
    ensures Punctuation(c) ==> CleanRef([c]) == []
    ensures !Punctuation(c) ==> |CleanRef([c])| == 1
    ensures 97 <= c as int <= 122 ==> CleanRef([c]) == [(c as int - 32) as char]
    ensures !Punctuation(c) && !(97 <= c as int <= 122) ==> CleanRef([c]) == [c]
  {
    assert CleanRef([c][1..]) == [];
  }

  lemma {:induction false} CleanConcat(a: string, b: string)
    ensures CleanRef(a + b) == CleanRef(a) + CleanRef(b)
  {
    hide IsRefChar, UpperChar;
    if a == [] {
      assert a + b == b;
    } else {
      assert (a + b)[1..] == a[1..] + b;
      CleanConcat(a[1..], b);
    }
  }

  ghost predicate CleanChars(s: string) {
    forall m | 0 <= m < |s| :: var n := s[m] as int; 65 <= n <= 90 || 48 <= n <= 57 || n == 45 || n == 95
  }

  /** A cleaned reference has only upper-case letters, digits, hyphens and underscores. */
  lemma {:induction false} CleanedChars(s: string)
    ensures CleanChars(CleanRef(s))
  {
    if s != [] { CleanedChars(s[1..]); }
  }

  /** A reference of such characters is its own cleaning. */
  lemma {:induction false} CleanAlready(s: string)
    requires CleanChars(s)
    ensures CleanRef(s) == s
  {
    if s != [] {
      CleanAlready(s[1..]);
      assert s == [s[0]] + s[1..];
    }
  }

  lemma CleanStep(c: char, d: char)
    ensures Punctuation(c) <==> !IsRefChar(UpperChar(c))
    ensures UpperChar(c) == UpperChar(d) <==> EqualUpToCase(c, d)
  {
  }

  /** Two references clean to the same text exactly when they are spelled alike. */
  lemma {:induction false} CleanedExactlyAlike(x: string, y: string)
    ensures CleanRef(x) == CleanRef(y) <==> SpelledAlike(x, y)
    decreases |x| + |y|
  {
    hide IsRefChar, UpperChar, EqualUpToCase, Punctuation;
    var c, d := if x == [] then 'A' else x[0], if y == [] then 'A' else y[0];
    CleanStep(c, d);
    CleanStep(d, c);
    if x != [] && Punctuation(c) {
      CleanedExactlyAlike(x[1..], y);
    } else if y != [] && Punctuation(d) {
      CleanedExactlyAlike(x, y[1..]);
    } else if x != [] && y != [] {
      CleanedExactlyAlike(x[1..], y[1..]);
      var s, t := CleanRef(x[1..]), CleanRef(y[1..]);
      assert ([UpperChar(c)] + s)[0] == UpperChar(c) && ([UpperChar(c)] + s)[1..] == s;
      assert ([UpperChar(d)] + t)[0] == UpperChar(d) && ([UpperChar(d)] + t)[1..] == t;
    }
  }
}
