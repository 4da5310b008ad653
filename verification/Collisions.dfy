/**
 Orders with two or more processor transactions: when they can never match, and how a settlement
 that shares an id with one of them lets them match after all (recon/matcher.py:290-327, 522-523).
 */
module Collisions {
  import opened Wrappers
  import opened ByteStrings
  import opened Texts
  import opened Spelling
  import opened Schemas
  import opened Storage
  import opened Rules
  import opened Matching
  import opened Entries
  import opened Runs
  import opened RecordLevel

  /** No stored settlement has the same id. */
  ghost predicate Unshared(records: set<Record>, r: Record) {
    forall s | s in records && s.Settlement? :: Id(s) != Id(r)
  }

  /** The order has two processor transactions that share their ids with no settlement. */
  ghost predicate HasUnsharedPair(records: set<Record>, order: string) {
    exists u, v :: u != v && u in ProcessorsOf(records, order) && v in ProcessorsOf(records, order) && Unshared(records, u) && Unshared(records, v)
  }

  lemma ProcessorsDiffer(data: Data, records: set<Record>, u: Record, v: Record)
    requires Holds(data, records) && u in records && v in records && u.Processor? && v.Processor? && Id(u) == Id(v)
    ensures u == v
  {
    hide Holds;
    HeldOnce(data, records, u, v);
  }

  // ---------- why such an order does not match ----------

  /** While two processor transactions of an order are not consumed, no payment of the order matches. */
  lemma PairBlocks(data: Data, records: set<Record>, rules: Rules, consumed: set<string>, pay: Record, u: Record, v: Record)
    requires Holds(data, records) && rules.book.Valid() && pay.Payment? && Clean(pay)
    requires u != v && u in ProcessorsOf(records, pay.orderId) && v in ProcessorsOf(records, pay.orderId)
    requires Id(u) !in consumed && Id(v) !in consumed
    ensures !OutcomeOf(Simple(data), rules, consumed, pay).OrderMatch?
  {
    hide OutcomeOf, Holds, Clean, Id, Agrees;
    if OutcomeOf(Simple(data), rules, consumed, pay).OrderMatch? {
      var r := MatchesAreSound(data, records, rules, consumed, pay);
    }
  }

  /** Two such transactions that share no id with a settlement are never consumed. */
  lemma {:induction false} UnsharedPairStays(data: Data, records: set<Record>, rules: Rules, pays: seq<Record>, order: string, u: Record, v: Record)
    requires Holds(data, records) && rules.book.Valid() && AllPayments(pays) && AllClean(pays)
    requires u != v && u in ProcessorsOf(records, order) && v in ProcessorsOf(records, order) && Unshared(records, u) && Unshared(records, v)
    ensures var consumed := RunOf(Simple(data), rules, pays).consumed; Id(u) !in consumed && Id(v) !in consumed
  {
    hide OutcomeOf, Holds, Clean, Id;
    if pays != [] {
      var front, pay := pays[..|pays| - 1], pays[|pays| - 1];
      UnsharedPairStays(data, records, rules, front, order, u, v);
      var consumed := RunOf(Simple(data), rules, front).consumed;
      if OutcomeOf(Simple(data), rules, consumed, pay).OrderMatch? {
        var r := MatchesAreSound(data, records, rules, consumed, pay);
        if r.Processor? && Id(r) == Id(u) { ProcessorsDiffer(data, records, r, u); }
        if r.Processor? && Id(r) == Id(v) { ProcessorsDiffer(data, records, r, v); }
        if pay.orderId == order { PairBlocks(data, records, rules, consumed, pay, u, v); }
      }
    }
  }

  /** An order with two processor transactions that share no id with a settlement never matches, whatever ran before. */
  lemma TwoProcessorsNeverMatch(data: Data, records: set<Record>, rules: Rules, pays: seq<Record>, i: nat)
    requires Holds(data, records) && rules.book.Valid() && AllPayments(pays) && AllClean(pays) && i < |pays|
    requires HasUnsharedPair(records, pays[i].orderId)
    ensures !RunOf(Simple(data), rules, pays).outcomes[i].OrderMatch?
  {
    hide OutcomeOf, Holds, Clean, Id, Unshared;
    var order := pays[i].orderId;
    var u, v :| u != v && u in ProcessorsOf(records, order) && v in ProcessorsOf(records, order) && Unshared(records, u) && Unshared(records, v);
    OutcomeAt(Simple(data), rules, pays, i);
    UnsharedPairStays(data, records, rules, pays[..i], order, u, v);
    PairBlocks(data, records, rules, RunOf(Simple(data), rules, pays[..i]).consumed, pays[i], u, v);
  }

  lemma RefundBlocks(data: Data, records: set<Record>, rules: Rules, consumed: set<string>, pay: Record)
    requires Holds(data, records) && rules.book.Valid() && pay.Payment? && Clean(pay) && RefundsOf(records, pay.orderId) != {}
    ensures !OutcomeOf(Simple(data), rules, consumed, pay).OrderMatch?
  {
    hide OutcomeOf, Holds, Clean, Id, Agrees;
    if OutcomeOf(Simple(data), rules, consumed, pay).OrderMatch? {
      var r := MatchesAreSound(data, records, rules, consumed, pay);
    }
  }

  // ---------- how it matches otherwise ----------

  lemma {:induction false} ZerosAreColonFree(n: nat)
    ensures ColonFree(Zeros(n))
  {
    if n != 0 { ZerosAreColonFree(n - 1); }
  }

  /** Amounts and order ids of finitely many records stay below some bound. */
  ghost predicate Within(records: set<Record>, bound: nat) {
    forall r | r in records ::
      && (HasOrder(r) ==> |r.orderId| < bound)
      && (r.Processor? ==> Abs(r.gross) <= bound)
      && (r.Invoice? ==> Abs(r.amount) <= bound)
  }

  lemma {:induction false} SomeBound(records: set<Record>) returns (bound: nat)
    ensures Within(records, bound)
    decreases |records|
  {
    if records == {} {
      bound := 0;
    } else {
      var r :| r in records;
      var rest := SomeBound(records - {r});
      var own: nat := (if HasOrder(r) then |r.orderId| + 1 else 0) + if r.Processor? then Abs(r.gross) else if r.Invoice? then Abs(r.amount) else 0;
      bound := rest + own;
      forall s | s in records
        ensures && (HasOrder(s) ==> |s.orderId| < bound) && (s.Processor? ==> Abs(s.gross) <= bound)
                && (s.Invoice? ==> Abs(s.amount) <= bound)
      {
        if s != r { assert s in records - {r}; }
      }
    }
  }

  /** Rules of a bank ledger without fee checks and with a wide tolerance. */
  function LaxRules(tolerance: nat): Rules {
    Rules(Settings(tolerance, 0, 0, 0.0, 0, false, BankGl, (a: string, b: string) => 1.0), Book(map[], []), false)
  }

  /** A payment without a time stamp that fits a target exactly. */
  function FittingPayment(order: string, txn: string, currency: string, amount: int): Record {
    Payment("", currency, 0, txn, order, amount, "", false, Partial(true, false), "", "")
  }

  lemma FittingPaymentIsClean(order: string, txn: string, currency: string, amount: int)
    requires ColonFree(order) && ColonFree(txn)
    ensures Clean(FittingPayment(order, txn, currency, amount)) && FittingPayment(order, txn, currency, amount).Payment?
  {
    hide ColonFree;
    assert ColonFree("") by { ZerosAreColonFree(0); }
  }

  lemma FittingAgrees(tolerance: nat, order: string, txn: string, r: Record)
    requires r.Processor? || r.Settlement?
    ensures LaxRules(tolerance).book.Valid() && Agrees(LaxRules(tolerance), FittingPayment(order, txn, r.currency, r.gross), r)
  {
    hide SameCode;
    assert SameCode(r.currency, r.currency) by { SameCodeExactly(r.currency, r.currency); }
  }

  lemma CleanSettlement(s: Record)
    requires Clean(s) && s.Settlement?
    ensures ColonFree(s.transactionId)
  {
  }

  /** No stored record names the order. */
  ghost predicate Unused(records: set<Record>, order: string) {
    ColonFree(order) && forall r | r in records && HasOrder(r) :: r.orderId != order
  }

  lemma UnusedIsEmpty(records: set<Record>, order: string, consumed: set<string>)
    requires Unused(records, order)
    ensures PaymentsOf(records, order) == RefundsOf(records, order) == InvoicesOf(records, order) == ProcessorsOf(records, order) == {}
    ensures AtMostOneLeft({}, consumed)
  {
  }

  /** The first settlement of a transaction that is not consumed. */
  lemma ForemostSettlement(data: Data, records: set<Record>, consumed: set<string>, s: Record) returns (r: Record)
    requires Holds(data, records) && s in records && s.Settlement? && Id(s) !in consumed
    ensures r in records && r.Settlement? && r.transactionId == s.transactionId && Id(r) !in consumed
    ensures Foremost(SettlementsOf(records, s.transactionId), consumed, r)
  {
    hide Holds, Clean, Id, EntriesFor, SettlementEntries, Less, ColonFree;
    HeldClean(data, records, s);
    CleanSettlement(s);
    TransactionEntriesFor(data, records, s.transactionId);
    var first := FirstLeft(data, SettlementEntries(Simple(data), s.transactionId), SettlementsOf(records, s.transactionId),
                           "TXN", s.transactionId, "SETTLEMENT", consumed);
    assert s in SettlementsOf(records, s.transactionId);
    r := first.value;
  }

  /** Any settlement that is not consumed lets some payment of an unused order consume a settlement. */
  lemma SomePaymentConsumes(data: Data, records: set<Record>, rules: Rules, consumed: set<string>, s: Record, order: string, tolerance: nat)
    returns (pay: Record, r: Record)
    requires Holds(data, records) && s in records && s.Settlement? && Id(s) !in consumed
    requires Unused(records, order) && rules == LaxRules(tolerance) && rules.book.Valid()
    ensures pay.Payment? && Clean(pay) && pay.orderId == order && r in records && r.Settlement? && r.transactionId == s.transactionId
    ensures Id(r) !in consumed
    ensures var o := OutcomeOf(Simple(data), rules, consumed, pay); o.OrderMatch? && o.targetId == Id(r)
  {
    hide OutcomeOf, Holds, Clean, Id, ColonFree, AmountAndTimeAgree, FeeFits, SameCode, Less, AtMostOneLeft, Explains, Failures, IsCopy, PassOf, AsTarget;
    r := ForemostSettlement(data, records, consumed, s);
    pay := FittingPayment(order, s.transactionId, r.currency, r.gross);
    HeldClean(data, records, s);
    CleanSettlement(s);
    FittingPaymentIsClean(order, s.transactionId, r.currency, r.gross);
    FittingAgrees(tolerance, order, s.transactionId, r);
    UnusedIsEmpty(records, order, consumed);
    var x, target := OutcomeFromRecords(data, records, rules, consumed, pay);
    assert r in SettlementsOf(records, s.transactionId);
    OneForemost(SettlementsOf(records, s.transactionId), consumed, target, Some(r));
  }

  /** Then a payment of the order matches it, if no refund is stored for the order. */
  lemma SomePaymentMatches(data: Data, records: set<Record>, rules: Rules, consumed: set<string>, order: string, s: Record, bound: nat)
    returns (pay: Record)
    requires Holds(data, records) && ColonFree(order) && s in ProcessorsOf(records, order) && Id(s) !in consumed
    requires forall r | r in ProcessorsOf(records, order) && r != s :: Id(r) in consumed
    requires RefundsOf(records, order) == {} && Within(records, bound) && rules == LaxRules(2 * bound) && rules.book.Valid()
    ensures pay.Payment? && Clean(pay) && pay.orderId == order && OutcomeOf(Simple(data), rules, consumed, pay).OrderMatch?
  {
    hide OutcomeOf, Holds, Clean, Id, ColonFree, AmountAndTimeAgree, FeeFits, SameCode, PaymentsOf, Less, Explains, Failures, IsCopy, PassOf, AsTarget;
    pay := FittingPayment(order, "", s.currency, s.gross);
    assert ColonFree("") by { ZerosAreColonFree(0); }
    FittingPaymentIsClean(order, "", s.currency, s.gross);
    FittingAgrees(2 * bound, order, "", s);
    var x, target := OutcomeFromRecords(data, records, rules, consumed, pay);
    assert target == Some(s) && AtMostOneLeft(ProcessorsOf(records, order), consumed);
    assert Abs(s.gross) <= bound && (x.invoice.Some? ==> Abs(x.invoice.value.amount) <= bound);
  }

  // ---------- exactly when ----------

  ghost function SettlementsLeft(records: set<Record>, consumed: set<string>): set<Record> {
    set s | s in records && s.Settlement? && Id(s) !in consumed
  }

  lemma {:induction false} FewerLeft(a: set<Record>, b: set<Record>, x: Record)
    requires a <= b && x in b && x !in a
    ensures |a| < |b|
  {
    if a == {} {
      assert b != {};
    } else {
      var y :| y in a;
      FewerLeft(a - {y}, b - {y}, x);
    }
  }

  /** A run of payments whose last one is of the order and matches. */
  ghost predicate EndsInMatch(data: Data, rules: Rules, pays: seq<Record>, order: string)
    requires rules.book.Valid()
  {
    && pays != [] && AllPayments(pays) && AllClean(pays) && pays[|pays| - 1].orderId == order
    && RunOf(Simple(data), rules, pays).outcomes[|pays| - 1].OrderMatch?
  }

  /**
   From any run that has left a processor transaction of the order, settlements are consumed one by
   one until only one such transaction is left; that one is then matched.
   */
  lemma {:induction false} RunToMatch(data: Data, records: set<Record>, rules: Rules, order: string, unused: string, bound: nat,
                                      pays: seq<Record>, s: Record)
    returns (all: seq<Record>)
    requires Holds(data, records) && ColonFree(order) && RefundsOf(records, order) == {} && !HasUnsharedPair(records, order)
    requires Unused(records, unused) && Within(records, bound) && rules == LaxRules(2 * bound) && rules.book.Valid()
    requires AllPayments(pays) && AllClean(pays)
    requires s in ProcessorsOf(records, order) && Id(s) !in RunOf(Simple(data), rules, pays).consumed
    ensures EndsInMatch(data, rules, all, order)
    decreases |SettlementsLeft(records, RunOf(Simple(data), rules, pays).consumed)|
  {
    hide OutcomeOf, Holds, Clean, Id, Within, LaxRules, Unused, RunOf, ColonFree, RefundsOf, ProcessorsOf;
    var consumed := RunOf(Simple(data), rules, pays).consumed;
    if r :| r in ProcessorsOf(records, order) && r != s && Id(r) !in consumed {
      var t := SharedWithSettlement(records, order, r, s);
      var pay, x := SomePaymentConsumes(data, records, rules, consumed, t, unused, 2 * bound);
      RunNext(Simple(data), rules, pays, pay);
      var more := pays + [pay];
      assert RunOf(Simple(data), rules, more).consumed == consumed + {Id(x)};
      FewerLeft(SettlementsLeft(records, consumed + {Id(x)}), SettlementsLeft(records, consumed), x);
      PairDiffers(data, records, order, r, s);
      all := RunToMatch(data, records, rules, order, unused, bound, more, if Id(s) != Id(x) then s else r);
    } else {
      var pay := SomePaymentMatches(data, records, rules, consumed, order, s, bound);
      RunNext(Simple(data), rules, pays, pay);
      all := pays + [pay];
    }
  }

  lemma PairDiffers(data: Data, records: set<Record>, order: string, r: Record, s: Record)
    requires Holds(data, records) && r in ProcessorsOf(records, order) && s in ProcessorsOf(records, order) && r != s
    ensures Id(r) != Id(s)
  {
    hide Holds, Id;
    if Id(r) == Id(s) { ProcessorsDiffer(data, records, r, s); }
  }

  /** Of two processor transactions one shares its id with a settlement, unless the order has an unshared pair. */
  lemma SharedWithSettlement(records: set<Record>, order: string, r: Record, s: Record) returns (t: Record)
    requires !HasUnsharedPair(records, order) && r != s && r in ProcessorsOf(records, order) && s in ProcessorsOf(records, order)
    ensures t in records && t.Settlement? && (Id(t) == Id(r) || Id(t) == Id(s))
  {
    hide Id;
    if Unshared(records, r) {
      t :| t in records && t.Settlement? && Id(t) == Id(s);
    } else {
      t :| t in records && t.Settlement? && Id(t) == Id(r);
    }
  }

  /** No payment of the order ever matches, under any rules and whatever ran before. */
  ghost predicate NeverMatches(data: Data, order: string) {
    forall rules: Rules, pays: seq<Record> | rules.book.Valid() :: !EndsInMatch(data, rules, pays, order)
  }

  /**
   An order with at least two processor transactions never matches exactly when a refund is stored
   for it or two of those transactions share their ids with no settlement. Otherwise settlements
   with the same ids can be consumed by other payments until one transaction is left to match.
   */
  lemma NeverMatchesExactlyWhen(data: Data, records: set<Record>, order: string, r: Record, s: Record)
    requires Holds(data, records) && r != s && r in ProcessorsOf(records, order) && s in ProcessorsOf(records, order)
    ensures NeverMatches(data, order) <==> RefundsOf(records, order) != {} || HasUnsharedPair(records, order)
  {
    hide OutcomeOf, Holds, Clean, Id, RunOf, RefundsOf, HasUnsharedPair, Within, LaxRules, Unused, ColonFree, EndsInMatch;
    if RefundsOf(records, order) != {} || HasUnsharedPair(records, order) {
      forall rules: Rules, pays: seq<Record> | rules.book.Valid()
        ensures !EndsInMatch(data, rules, pays, order)
      {
        NoMatchAtEnd(data, records, rules, pays, order);
      }
    } else {
      HeldClean(data, records, r);
      CleanProcessorOrder(r);
      var bound := SomeBound(records);
      UnusedByLength(records, bound);
      var rules := LaxRules(2 * bound);
      LaxRulesValid(2 * bound);
      RunNone(Simple(data), rules);
      var all := RunToMatch(data, records, rules, order, Zeros(bound), bound, [], s);
      assert EndsInMatch(data, rules, all, order);
    }
  }

  lemma LaxRulesValid(tolerance: nat)
    ensures LaxRules(tolerance).book.Valid()
  {
  }

  lemma CleanProcessorOrder(r: Record)
    requires Clean(r) && r.Processor?
    ensures ColonFree(r.orderId)
  {
  }

  lemma UnusedByLength(records: set<Record>, bound: nat)
    requires Within(records, bound)
    ensures Unused(records, Zeros(bound))
  {
    ZerosAreColonFree(bound);
  }

  lemma NoMatchAtEnd(data: Data, records: set<Record>, rules: Rules, pays: seq<Record>, order: string)
    requires Holds(data, records) && rules.book.Valid() && (RefundsOf(records, order) != {} || HasUnsharedPair(records, order))
    ensures !EndsInMatch(data, rules, pays, order)
  {
    hide OutcomeOf, Holds, Clean, RunOf, RefundsOf, HasUnsharedPair;
    if pays != [] && AllPayments(pays) && AllClean(pays) && pays[|pays| - 1].orderId == order {
      var i := |pays| - 1;
      OutcomeAt(Simple(data), rules, pays, i);
      if RefundsOf(records, order) != {} {
        RefundBlocks(data, records, rules, RunOf(Simple(data), rules, pays[..i]).consumed, pays[i]);
      } else {
        TwoProcessorsNeverMatch(data, records, rules, pays, i);
      }
    }
  }

  // ---------- a store in which such an order can match ----------

  function Captured(id: string): Record {
    Processor("", "INR", 0, id, "O", "GATEWAY", 100, 0, 100, "", "", "")
  }

  /** Two processor transactions of one order, and a settlement that has the id of the first. */
  function CollidingRecords(): seq<Record> {
    [Captured("A"), Captured("B"), Settlement("", "INR", 0, "A", "T", 100, 0, 100, "")]
  }

  ghost function Colliding(): set<Record> {
    set r | r in CollidingRecords()
  }

  lemma CollidingAreClean(r: Record)
    requires r in CollidingRecords()
    ensures Clean(r)
  {
    hide Pow10;
  }

  lemma SameKindKeys(kind: string, a: string, b: string)
    requires a != b
    ensures PrimaryKey(kind, a) != PrimaryKey(kind, b)
  {
    var p := "REC:" + kind + ":";
    assert (p + a)[|p|..] == a && (p + b)[|p|..] == b;
  }

  lemma CollidingKeysDiffer(i: nat, j: nat)
    requires i < j < 3
    ensures ToKey(CollidingRecords()[i]) != ToKey(CollidingRecords()[j])
  {
    hide PrimaryKey;
    var r, s := CollidingRecords()[i], CollidingRecords()[j];
    KindsColonFree(r);
    KindsColonFree(s);
    if j == 1 {
      assert "A"[0] != "B"[0];
      SameKindKeys("PROCESSOR", "A", "B");
    } else {
      assert "PROCESSOR"[0] != "SETTLEMENT"[0];
      if ToKey(r) == ToKey(s) { KindAloneInKey(KeyKind(r), Id(r), KeyKind(s), Id(s)); }
    }
  }

  lemma CollidingHeld()
    ensures Holds(Loaded(CollidingRecords()), Colliding())
  {
    hide Clean, ToKey, Holds, Loaded;
    var rs := CollidingRecords();
    forall i | 0 <= i < |rs|
      ensures Clean(rs[i])
    {
      CollidingAreClean(rs[i]);
    }
    forall i, j | 0 <= i < j < |rs|
      ensures ToKey(rs[i]) != ToKey(rs[j])
    {
      CollidingKeysDiffer(i, j);
    }
    LoadedHolds(rs);
  }

  lemma CollidingPair()
    ensures Captured("A") in ProcessorsOf(Colliding(), "O") && Captured("B") in ProcessorsOf(Colliding(), "O") && Captured("A") != Captured("B")
    ensures RefundsOf(Colliding(), "O") == {} && !HasUnsharedPair(Colliding(), "O")
  {
    var rs, a, b := CollidingRecords(), Captured("A"), Captured("B");
    assert a == rs[0] && b == rs[1] && Id(a)[0] != Id(b)[0];
    assert rs[2] in Colliding() && rs[2].Settlement? && Id(rs[2]) == Id(a);
    assert !Unshared(Colliding(), a);
  }

  /** Here an order with two processor transactions does match, in some run under some rules. */
  lemma SomeSuchOrderMatches()
    ensures Captured("A") in ProcessorsOf(Colliding(), "O") && Captured("B") in ProcessorsOf(Colliding(), "O") && Captured("A") != Captured("B")
    ensures !NeverMatches(Loaded(CollidingRecords()), "O")
  {
    hide Holds, NeverMatches, ProcessorsOf, RefundsOf, HasUnsharedPair, Colliding, Captured, Loaded;
    CollidingHeld();
    CollidingPair();
    NeverMatchesExactlyWhen(Loaded(CollidingRecords()), Colliding(), "O", Captured("A"), Captured("B"));
  }
}
