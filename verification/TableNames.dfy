/** Names of table files, and the text order in which a reopened store lists them (MiniVaultDB/src/db/db.cpp:213-214, 225-246). */
module TableNames {
  import opened ByteStrings
  import opened Wrappers
  import opened Sorting
  import opened Texts

  function Name(id: nat): string {
    "sst_" + Decimal(id) + ".sst"
  }

  /** The name of a table as a text: the decimal number, without leading zeros, between "sst_" and ".sst". */
  lemma NameText(id: nat) returns (d: string)
    ensures Name(id) == "sst_" + d + ".sst" && Digits(d) && NatOf(d) == id && (|d| > 1 ==> d[0] != '0')
  {
    DecimalReads(id);
    d := Decimal(id);
  }

  // ---------- back from a name to its number ----------

  predicate IsDigit(c: char) {
    '0' <= c <= '9'
  }

  /** std::stoull: the value of the leading digits; None stands for the exception when there are none. */
  function Stoull(s: string): Option<nat> {
    if s == [] || !IsDigit(s[0]) then None else Some(DigitsValue(s, 0))
  }

  function DigitsValue(s: string, acc: nat): nat {
    if s == [] || !IsDigit(s[0]) then acc else DigitsValue(s[1..], 10 * acc + (s[0] - '0') as int)
  }

  /** A file name without its extension: everything before the last dot, if there is one. */
  function Stem(name: string): string {
    if name == [] then []
    else if '.' in name[1..] then [name[0]] + Stem(name[1..])
    else if name[0] == '.' then []
    else if '.' !in name then name
    else [name[0]] + Stem(name[1..])
  }

  /** What follows the first underscore. */
  function AfterUnderscore(s: string): Option<string> {
    if s == [] then None else if s[0] == '_' then Some(s[1..]) else AfterUnderscore(s[1..])
  }

  function IdOf(name: string): Option<nat> {
    match AfterUnderscore(Stem(name))
    case None => None
    case Some(rest) => Stoull(rest)
  }

  lemma {:induction false} DecimalIsDigits(n: nat)
    ensures forall i | 0 <= i < |Decimal(n)| :: IsDigit(Decimal(n)[i])
  {
    if n >= 10 { DecimalIsDigits(n / 10); }
  }

  lemma {:induction false} DigitsValueAppend(s: string, d: nat, acc: nat)
    requires d < 10 && forall i | 0 <= i < |s| :: IsDigit(s[i])
    ensures DigitsValue(s + [DigitOf(d)], acc) == 10 * DigitsValue(s, acc) + d
  {
    if s == [] {
      assert s + [DigitOf(d)] == [DigitOf(d)];
      assert DigitsValue([DigitOf(d)][1..], 10 * acc + d) == 10 * acc + d;
    } else {
      assert (s + [DigitOf(d)])[1..] == s[1..] + [DigitOf(d)];
      DigitsValueAppend(s[1..], d, 10 * acc + (s[0] - '0') as int);
    }
  }

  lemma {:induction false} DecimalValue(n: nat)
    ensures DigitsValue(Decimal(n), 0) == n
  {
    if n < 10 {
      assert Decimal(n) == [] + [DigitOf(n)];
      DigitsValueAppend([], n, 0);
    } else {
      DecimalValue(n / 10);
      DecimalIsDigits(n / 10);
      DigitsValueAppend(Decimal(n / 10), n % 10, 0);
    }
  }

  lemma {:induction false} StemOf(s: string)
    requires '.' !in s
    ensures Stem(s + ".sst") == s
  {
    if s == [] {
      assert s + ".sst" == ".sst";
    } else {
      assert (s + ".sst")[1..] == s[1..] + ".sst";
      assert (s[1..] + ".sst")[|s| - 1] == '.';
      StemOf(s[1..]);
      assert s == [s[0]] + s[1..];
    }
  }

  lemma {:induction false} AfterFirstUnderscore(head: string, rest: string)
    requires '_' !in head
    ensures AfterUnderscore(head + ("_" + rest)) == Some(rest)
  {
    if head == [] {
      assert head + ("_" + rest) == "_" + rest;
      assert ("_" + rest)[1..] == rest;
    } else {
      assert (head + ("_" + rest))[1..] == head[1..] + ("_" + rest);
      AfterFirstUnderscore(head[1..], rest);
    }
  }

  /** load_sstables recovers the number of every table that flush_immutable named. */
  lemma IdOfName(id: nat)
    ensures IdOf(Name(id)) == Some(id)
  {
    var d := Decimal(id);
    DecimalIsDigits(id);
    DecimalValue(id);
    StemOf("sst_" + d);
    assert Stem(Name(id)) == "sst_" + d;
    AfterFirstUnderscore("sst", d);
    assert "sst_" + d == "sst" + ("_" + d);
  }

  lemma NameInjective(i: nat, j: nat)
    requires Name(i) == Name(j)
    ensures i == j
  {
    IdOfName(i);
    IdOfName(j);
  }

  // ---------- text order ----------

  function TextKey(): string -> seq<int> {
    s => Codes(s)
  }

  function Names(n: nat): (r: seq<string>)
    ensures |r| == n && forall i | 0 <= i < n :: r[i] == Name(i)
  {
    seq(n, i requires 0 <= i => Name(i))
  }

  lemma OneDigitOrder(i: nat, j: nat)
    requires i < j < 10
    ensures Less(Codes(Name(i)), Codes(Name(j)))
  {
    var head := Codes("sst_");
    assert Codes(Name(i)) == head + Codes([DigitOf(i)] + ".sst") && Codes(Name(j)) == head + Codes([DigitOf(j)] + ".sst");
    LessCommonPrefix(head, Codes([DigitOf(i)] + ".sst"), Codes([DigitOf(j)] + ".sst"));
  }

  /** The table after the tenth comes before the tenth in text order. */
  lemma TenBeforeNine()
    ensures Less(Codes(Name(10)), Codes(Name(9)))
  {
    var head := Codes("sst_");
    assert Decimal(10) == "10";
    assert Codes(Name(10)) == head + Codes("10.sst") && Codes(Name(9)) == head + Codes("9.sst");
    LessCommonPrefix(head, Codes("10.sst"), Codes("9.sst"));
  }

  /** Listing the tables by text is listing them by age exactly up to ten tables. */
  lemma TextOrderIsAge(n: nat)
    ensures Ascending(TextKey(), Names(n)) <==> n <= 10
  {
    if n <= 10 {
      forall i, j | 0 <= i < j < n
        ensures Less(TextKey()(Names(n)[i]), TextKey()(Names(n)[j]))
      {
        OneDigitOrder(i, j);
      }
    } else {
      TenBeforeNine();
      LessAsymmetric(Codes(Name(10)), Codes(Name(9)));
      assert !Less(TextKey()(Names(n)[9]), TextKey()(Names(n)[10]));
    }
  }
}
