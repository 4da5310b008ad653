/**
 What the matcher decides, said about the stored records themselves: no keys, index entries or lists
 (recon/matcher.py:197-524, recon/storage.py:198-232).
 */
module RecordLevel {
  import opened ByteStrings
  import opened Wrappers
  import opened Texts
  import opened Schemas
  import opened Sorting
  import opened Storage
  import opened BulkIndex
  import opened Spelling
  import opened Rules
  import opened Matching
  import opened Entries
  import opened Runs

  // ---------- the records of an order and of a transaction ----------

  ghost function PaymentsOf(records: set<Record>, order: string): set<Record> {
    set r | r in records && r.Payment? && r.orderId == order
  }

  ghost function RefundsOf(records: set<Record>, order: string): set<Record> {
    set r | r in records && r.Refund? && r.orderId == order
  }

  ghost function InvoicesOf(records: set<Record>, order: string): set<Record> {
    set r | r in records && r.Invoice? && r.orderId == order
  }

  ghost function ProcessorsOf(records: set<Record>, order: string): set<Record> {
    set r | r in records && r.Processor? && r.orderId == order
  }

  ghost function SettlementsOf(records: set<Record>, txn: string): set<Record> {
    set r | r in records && r.Settlement? && r.transactionId == txn
  }

  /** Of the records of a set that are not consumed, the one with the least id as text. */
  ghost predicate Foremost(s: set<Record>, consumed: set<string>, r: Record) {
    && r in s && Id(r) !in consumed
    && forall q | q in s && Id(q) !in consumed && q != r :: Less(Codes(Id(r)), Codes(Id(q)))
  }

  ghost predicate IsForemost(s: set<Record>, consumed: set<string>, first: Option<Record>) {
    match first
    case Some(r) => Foremost(s, consumed, r)
    case None => forall r | r in s :: Id(r) in consumed
  }

  ghost predicate AtMostOneLeft(s: set<Record>, consumed: set<string>) {
    forall q, r | q in s && r in s && Id(q) !in consumed && Id(r) !in consumed :: q == r
  }

  lemma OneForemost(s: set<Record>, consumed: set<string>, q: Option<Record>, r: Option<Record>)
    requires IsForemost(s, consumed, q) && IsForemost(s, consumed, r)
    ensures q == r
  {
    hide Less, Id;
    if q.Some? && r.Some? && q != r { LessAsymmetric(Codes(Id(q.value)), Codes(Id(r.value))); }
  }

  // ---------- lists of entries as sets of records ----------

  /** The entries scanned under an owner lead to the records of a set, one each. */
  ghost predicate EntriesFor(data: Data, es: Items, s: set<Record>, name: string, owner: string, kind: string) {
    && es == ScanOf(data, OwnerPrefix(name, owner, kind))
    && (forall r | r in s :: EntryUnder(name, owner, kind, r) in es)
    && (forall e | e in es :: exists r :: Leads(data, e, s, name, owner, kind, r))
    && (forall q, r | q in s && r in s && EntryUnder(name, owner, kind, q) == EntryUnder(name, owner, kind, r) :: q == r)
  }

  ghost predicate Leads(data: Data, e: Item, s: set<Record>, name: string, owner: string, kind: string, r: Record) {
    r in s && e == EntryUnder(name, owner, kind, r) && Fetch(data, KeyText(e.1)) == Some(r) && EntryId(e) == Id(r)
  }

  lemma EntryOfOne(data: Data, records: set<Record>, name: string, owner: string, kind: string, q: Record, r: Record)
    requires Holds(data, records) && q in records && r in records && EntryUnder(name, owner, kind, q) == EntryUnder(name, owner, kind, r)
    ensures q == r
  {
    hide Holds, ToKey, IndexKey;
    HeldOnce(data, records, q, r);
  }

  ghost function OfOrder(records: set<Record>, order: string, kind: string): set<Record> {
    set r | r in records && InOrder(r, order, kind)
  }

  lemma OrderEntriesFor(data: Data, records: set<Record>, order: string, kind: string)
    requires Holds(data, records) && ColonFree(order) && ColonFree(kind)
    ensures EntriesFor(data, OrderEntries(Simple(data), order, kind), OfOrder(records, order, kind), "ORDER", order, kind)
  {
    hide Holds, EntryUnder, InOrder, ColonFree, Fetch, KeyText, EntryId, Id, EntityKeys, KeyKind, Clean, OwnerPrefix;
    var es, s := OrderEntries(Simple(data), order, kind), OfOrder(records, order, kind);
    OrderEntriesExactly(data, records, order, kind);
    forall e | e in es
      ensures exists r :: Leads(data, e, s, "ORDER", order, kind, r)
    {
      var r := EntryLeadsTo(data, records, "ORDER", order, kind, e);
      var q :| q in records && InOrder(q, order, kind) && e == EntryUnder("ORDER", order, kind, q);
      EntryOfOne(data, records, "ORDER", order, kind, q, r);
      assert Leads(data, e, s, "ORDER", order, kind, r);
    }
    forall q, r | q in s && r in s && EntryUnder("ORDER", order, kind, q) == EntryUnder("ORDER", order, kind, r)
      ensures q == r
    {
      EntryOfOne(data, records, "ORDER", order, kind, q, r);
    }
  }

  lemma TransactionEntriesFor(data: Data, records: set<Record>, txn: string)
    requires Holds(data, records) && ColonFree(txn)
    ensures EntriesFor(data, SettlementEntries(Simple(data), txn), SettlementsOf(records, txn), "TXN", txn, "SETTLEMENT")
  {
    hide Holds, EntryUnder, ColonFree, Fetch, KeyText, EntryId, Id, EntityKeys, KeyKind, Clean, OwnerPrefix, IndexKey;
    var es, s := SettlementEntries(Simple(data), txn), SettlementsOf(records, txn);
    KindsAreNames();
    forall e | e in es
      ensures exists r :: Leads(data, e, s, "TXN", txn, "SETTLEMENT", r)
    {
      var r := EntryLeadsTo(data, records, "TXN", txn, "SETTLEMENT", e);
      var q := SettlementEntry(data, records, txn, e);
      assert q == r && Leads(data, e, s, "TXN", txn, "SETTLEMENT", r);
    }
    forall r | r in s
      ensures EntryUnder("TXN", txn, "SETTLEMENT", r) in es
    {
      OwnSettlementKey(r);
      RecordEntry(data, records, "TXN", txn, "SETTLEMENT", r);
    }
    forall q, r | q in s && r in s && EntryUnder("TXN", txn, "SETTLEMENT", q) == EntryUnder("TXN", txn, "SETTLEMENT", r)
      ensures q == r
    {
      EntryOfOne(data, records, "TXN", txn, "SETTLEMENT", q, r);
    }
  }

  lemma OwnSettlementKey(s: Record)
    requires s.Settlement?
    ensures IndexKey("TXN", s.transactionId, "SETTLEMENT", Id(s)) in EntityKeys(s)
  {
    hide IndexKey;
  }

  lemma KeyOrderIsIdOrder(name: string, owner: string, kind: string, a: string, b: string)
    ensures Less(Codes(IndexKey(name, owner, kind, a)), Codes(IndexKey(name, owner, kind, b))) <==> Less(Codes(a), Codes(b))
  {
    hide Less, IndexPrefix;
    var p := IndexPrefix(name) + owner + ":" + kind + ":";
    CodesConcat(p, a);
    CodesConcat(p, b);
    LessCommonPrefix(Codes(p), Codes(a), Codes(b));
  }

  lemma {:induction false} AvailableAscending(es: Items, consumed: set<string>)
    requires Ascending(ItemKey(), es)
    ensures Ascending(ItemKey(), Available(es, consumed))
  {
    hide EntryId, Less, ItemKey;
    if es != [] {
      var front, e := es[..|es| - 1], es[|es| - 1];
      AvailableAscending(front, consumed);
      AvailableMembers(front, consumed);
      forall i | 0 <= i < |Available(front, consumed)|
        ensures Less(ItemKey()(Available(front, consumed)[i]), ItemKey()(e))
      {
        assert Available(front, consumed)[i] in front;
        var j :| 0 <= j < |front| && front[j] == Available(front, consumed)[i];
        assert es[j] == front[j];
      }
    }
  }

  /** The first entry that is not consumed leads to the foremost record, and a second one is there exactly when a second record is left. */
  lemma FirstLeft(data: Data, es: Items, s: set<Record>, name: string, owner: string, kind: string, consumed: set<string>)
    returns (first: Option<Record>)
    requires EntriesFor(data, es, s, name, owner, kind)
    ensures IsForemost(s, consumed, first) && First(data, Available(es, consumed)) == first
    ensures |Available(es, consumed)| <= 1 <==> AtMostOneLeft(s, consumed)
  {
    hide Available, EntryId, Fetch, KeyText, Id, EntryUnder, Less, OwnerPrefix, StartsWith;
    var av := Available(es, consumed);
    AvailableMembers(es, consumed);
    AvailableAscending(es, consumed);
    forall r | r in s
      ensures Leads(data, EntryUnder(name, owner, kind, r), s, name, owner, kind, r)
    {
    }
    first := None;
    if av != [] {
      assert av[0] in av;
      var r :| Leads(data, av[0], s, name, owner, kind, r);
      first := Some(r);
      forall q | q in s && Id(q) !in consumed && q != r
        ensures Less(Codes(Id(r)), Codes(Id(q))) && |av| > 1
      {
        var e := EntryUnder(name, owner, kind, q);
        assert e in av;
        var j :| 0 <= j < |av| && av[j] == e;
        assert Less(ItemKey()(av[0]), ItemKey()(av[j]));
        EntryKeyOrder(name, owner, kind, r, q);
      }
      if |av| > 1 {
        assert av[1] in av && Less(ItemKey()(av[0]), ItemKey()(av[1]));
        LessIrreflexive(ItemKey()(av[0]));
        var q :| Leads(data, av[1], s, name, owner, kind, q);
      }
    }
  }

  lemma EntryKeyOrder(name: string, owner: string, kind: string, q: Record, r: Record)
    ensures Less(ItemKey()(EntryUnder(name, owner, kind, q)), ItemKey()(EntryUnder(name, owner, kind, r))) <==> Less(Codes(Id(q)), Codes(Id(r)))
  {
    hide Less, IndexKey, Id;
    KeyOrderIsIdOrder(name, owner, kind, Id(q), Id(r));
  }

  // ---------- what a payment is matched against ----------

  /**
   The unconsumed processor transaction of the order with the least id. Without one it is the
   unconsumed settlement with the least id of those that name the payment's transaction or, only
   if none names it, of those that name the order.
   */
  ghost predicate IsTarget(records: set<Record>, consumed: set<string>, pay: Record, target: Option<Record>)
    requires pay.Payment?
  {
    var own, named := ProcessorsOf(records, pay.orderId), SettlementsOf(records, pay.transactionId);
    if exists r :: r in own && Id(r) !in consumed then IsForemost(own, consumed, target)
    else IsForemost(if named != {} then named else SettlementsOf(records, pay.orderId), consumed, target)
  }

  lemma KindSets(records: set<Record>, order: string)
    ensures OfOrder(records, order, "PAYMENT") == PaymentsOf(records, order)
    ensures OfOrder(records, order, "REFUND") == RefundsOf(records, order)
    ensures OfOrder(records, order, "INVOICE") == InvoicesOf(records, order)
    ensures OfOrder(records, order, "PROCESSOR") == ProcessorsOf(records, order)
  {
    hide KeyKind;
    forall r {
      KindTells(r);
    }
  }

  /** The lists that are looked up for a payment lead to the records that name its order or its transaction. */
  lemma ListedRecords(data: Data, records: set<Record>, pay: Record)
    requires Holds(data, records) && pay.Payment? && Clean(pay)
    ensures var lists, order, txn := ListsOf(Simple(data), pay), pay.orderId, pay.transactionId;
            && EntriesFor(data, lists.payments, PaymentsOf(records, order), "ORDER", order, "PAYMENT")
            && EntriesFor(data, lists.refunds, RefundsOf(records, order), "ORDER", order, "REFUND")
            && EntriesFor(data, lists.invoices, InvoicesOf(records, order), "ORDER", order, "INVOICE")
            && EntriesFor(data, lists.processors, ProcessorsOf(records, order), "ORDER", order, "PROCESSOR")
            && EntriesFor(data, lists.ofTransaction, SettlementsOf(records, txn), "TXN", txn, "SETTLEMENT")
            && EntriesFor(data, lists.ofOrder, SettlementsOf(records, order), "TXN", order, "SETTLEMENT")
  {
    hide Holds, Clean, ColonFree, EntriesFor, OrderEntries, SettlementEntries;
    CleanPayment(pay);
    KindsAreNames();
    KindSets(records, pay.orderId);
    OrderEntriesFor(data, records, pay.orderId, "PAYMENT");
    OrderEntriesFor(data, records, pay.orderId, "REFUND");
    OrderEntriesFor(data, records, pay.orderId, "INVOICE");
    OrderEntriesFor(data, records, pay.orderId, "PROCESSOR");
    TransactionEntriesFor(data, records, pay.transactionId);
    TransactionEntriesFor(data, records, pay.orderId);
  }

  /** The target that is looked up is the one that the stored records tell, read into the common fields. */
  lemma TargetFromRecords(data: Data, records: set<Record>, consumed: set<string>, pay: Record) returns (target: Option<Record>)
    requires Holds(data, records) && pay.Payment? && Clean(pay)
    ensures IsTarget(records, consumed, pay, target)
    ensures match target
            case Some(r) => (r.Processor? || r.Settlement?) && TargetFor(data, ListsOf(Simple(data), pay), consumed) == Some(AsTarget(r))
            case None => TargetFor(data, ListsOf(Simple(data), pay), consumed) == None
  {
    hide Holds, Clean, ListsOf, EntriesFor, Available, First, AsTarget, Less, Id;
    var lists := ListsOf(Simple(data), pay);
    ListedRecords(data, records, pay);
    var own := FirstLeft(data, lists.processors, ProcessorsOf(records, pay.orderId), "ORDER", pay.orderId, "PROCESSOR", consumed);
    var named := FirstLeft(data, lists.ofTransaction, SettlementsOf(records, pay.transactionId), "TXN", pay.transactionId, "SETTLEMENT", consumed);
    var other := FirstLeft(data, lists.ofOrder, SettlementsOf(records, pay.orderId), "TXN", pay.orderId, "SETTLEMENT", consumed);
    NoneListed(data, lists.ofTransaction, SettlementsOf(records, pay.transactionId), "TXN", pay.transactionId, "SETTLEMENT");
    target := if own.Some? then own else if lists.ofTransaction != [] then named else other;
  }

  lemma NoneListed(data: Data, es: Items, s: set<Record>, name: string, owner: string, kind: string)
    requires EntriesFor(data, es, s, name, owner, kind)
    ensures es == [] <==> s == {}
  {
    hide EntryUnder, Fetch, OwnerPrefix;
    if es != [] {
      assert es[0] in es;
      var r :| Leads(data, es[0], s, name, owner, kind, r);
    }
  }

  // ---------- when a record agrees with a payment ----------

  /** Up to a cent and in time, or within the tolerances and about the same business. */
  ghost predicate AmountAndTimeAgree(s: Settings, pay: Record, r: Record)
    requires pay.Payment? && (r.Processor? || r.Settlement?)
  {
    var off, tolerance := pay.amount - r.gross, s.amountTolerance;
    || (-1 <= off <= 1 && (WithinDays(pay.timestamp, r.timestamp, 0) || WithinDays(pay.timestamp, r.timestamp, s.timingWindowDays)))
    || (&& -tolerance <= off <= tolerance && WithinDays(pay.timestamp, r.timestamp, s.toleranceWindowDays)
        && (|| (r.Processor? && pay.orderId == r.orderId != "")
            || s.fuzzyThreshold <= if r.Settlement? || r.description == "" || pay.memo == "" then 1.0 else s.similarity(pay.memo, r.description)))
  }

  /** The fee that is due on the payment: a policy that the target names goes before one that the payment names, and that before any search. */
  ghost predicate FeeDue(rules: Rules, pay: Record, r: Record, fee: int)
    requires pay.Payment? && (r.Processor? || r.Settlement?) && rules.book.Valid()
  {
    var named := if r.Processor? && r.feePolicyId != "" then r.feePolicyId else pay.feePolicyId;
    var processor := if r.Processor? then r.processorName else "SETTLEMENT";
    FeeIs(rules, pay.amount, Context(processor, pay.paymentMethod, pay.currency), named, fee)
  }

  ghost predicate FeeFits(rules: Rules, pay: Record, r: Record)
    requires pay.Payment? && (r.Processor? || r.Settlement?) && rules.book.Valid()
  {
    var s := rules.settings;
    s.enableFeeValidation && s.topology != BankGl ==>
      exists fee :: FeeDue(rules, pay, r, fee) && -s.amountTolerance <= fee - r.fee <= s.amountTolerance
  }

  /** Currency, amount, time and fee agree. */
  ghost predicate Agrees(rules: Rules, pay: Record, r: Record)
    requires pay.Payment? && (r.Processor? || r.Settlement?) && rules.book.Valid()
  {
    SameCode(pay.currency, r.currency) && AmountAndTimeAgree(rules.settings, pay, r) && FeeFits(rules, pay, r)
  }

  /** The pass in which a record that agrees is matched. */
  ghost function PassOf(s: Settings, pay: Record, r: Record): Strategy
    requires pay.Payment? && (r.Processor? || r.Settlement?)
  {
    var close := -1 <= pay.amount - r.gross <= 1;
    if close && WithinDays(pay.timestamp, r.timestamp, 0) then Exact
    else if close && WithinDays(pay.timestamp, r.timestamp, s.timingWindowDays) then Timing
    else Tolerance
  }

  lemma TargetFields(rules: Rules, pay: Record, r: Record)
    requires pay.Payment? && (r.Processor? || r.Settlement?) && rules.book.Valid()
    ensures var s, t := rules.settings, AsTarget(r);
            && t.currency == r.currency && t.id == Id(r) && t.fee == r.fee && t.net == r.net && t.batchId == r.settlementBatchId
            && (AmountAndTimeAgree(s, pay, r) <==> InTime(s, pay, t) || InTolerance(s, pay, t))
            && (AmountAndTimeAgree(s, pay, r) ==> StrategyFor(s, pay, t) == Some(PassOf(s, pay, r)))
            && (forall fee :: FeeDue(rules, pay, r, fee) <==> DueFee(rules, pay, t, fee))
            && (FeeFits(rules, pay, r) <==> FeeAgrees(rules, pay, t))
  {
    hide FeeIs, WithinDays, Id, StrategyFor;
    FirstPassThatHolds(rules.settings, pay, AsTarget(r));
  }

  // ---------- the outcome of a payment ----------

  /** What a payment meets, told by the stored records. */
  ghost predicate Meets(records: set<Record>, consumed: set<string>, pay: Record, x: Situation, target: Option<Record>)
    requires pay.Payment?
  {
    && x.Valid()
    && (x.copies == [] <==> AtMostOneLeft(PaymentsOf(records, pay.orderId), {}))
    && IsForemost(RefundsOf(records, pay.orderId), {}, x.refund) && IsForemost(InvoicesOf(records, pay.orderId), {}, x.invoice)
    && (x.rivals == [] <==> AtMostOneLeft(ProcessorsOf(records, pay.orderId), consumed))
    && IsTarget(records, consumed, pay, target) && (target.Some? ==> target.value.Processor? || target.value.Settlement?)
    && x.target == (if target.Some? then Some(AsTarget(target.value)) else None)
    && (x.copies != [] ==> AreKeysOf(x.copies, PaymentsOf(records, pay.orderId)))
    && (x.rivals != [] ==> AreKeysOf(x.rivals, ProcessorsOf(records, pay.orderId)))
  }

  ghost predicate AreKeysOf(keys: seq<string>, s: set<Record>) {
    forall k :: k in keys <==> exists r :: r in s && k == ToKey(r)
  }

  lemma MeetsKinds(s: set<Record>, first: Option<Record>)
    requires IsForemost(s, {}, first) && first.Some?
    ensures (forall r | r in s :: r.Refund?) ==> first.value.Refund?
    ensures (forall r | r in s :: r.Invoice?) ==> first.value.Invoice?
  {
  }

  lemma KeysOfEntries(data: Data, es: Items, s: set<Record>, name: string, owner: string, kind: string)
    requires EntriesFor(data, es, s, name, owner, kind)
    ensures AreKeysOf(Keys(es), s) && |Keys(es)| == |es|
  {
    hide ToKey, Fetch, IndexKey, OwnerPrefix;
    forall k
      ensures k in Keys(es) <==> exists r :: r in s && k == ToKey(r)
    {
      if k in Keys(es) {
        var i :| 0 <= i < |es| && KeyText(es[i].1) == k;
        var r :| Leads(data, es[i], s, name, owner, kind, r);
      }
      forall r | r in s && k == ToKey(r)
        ensures k in Keys(es)
      {
        var i :| 0 <= i < |es| && es[i] == EntryUnder(name, owner, kind, r);
        assert Keys(es)[i] == k;
      }
    }
  }

  lemma SituationFromRecords(data: Data, records: set<Record>, consumed: set<string>, pay: Record) returns (target: Option<Record>)
    requires Holds(data, records) && pay.Payment? && Clean(pay)
    ensures Meets(records, consumed, pay, SituationOf(data, ListsOf(Simple(data), pay), consumed), target)
  {
    hide Holds, Clean, ListsOf, EntriesFor, Available, First, AsTarget, Foremost, TargetFor, IsTarget, AtMostOneLeft, Keys, AreKeysOf;
    var lists, order := ListsOf(Simple(data), pay), pay.orderId;
    ListedRecords(data, records, pay);
    AvailableAll(lists.payments);
    AvailableAll(lists.refunds);
    AvailableAll(lists.invoices);
    var copy := FirstLeft(data, lists.payments, PaymentsOf(records, order), "ORDER", order, "PAYMENT", {});
    var refund := FirstLeft(data, lists.refunds, RefundsOf(records, order), "ORDER", order, "REFUND", {});
    var invoice := FirstLeft(data, lists.invoices, InvoicesOf(records, order), "ORDER", order, "INVOICE", {});
    var own := FirstLeft(data, lists.processors, ProcessorsOf(records, order), "ORDER", order, "PROCESSOR", consumed);
    KeysOfEntries(data, lists.payments, PaymentsOf(records, order), "ORDER", order, "PAYMENT");
    KeysOfEntries(data, lists.processors, ProcessorsOf(records, order), "ORDER", order, "PROCESSOR");
    AvailableMembers(lists.processors, consumed);
    if refund.Some? { MeetsKinds(RefundsOf(records, order), refund); }
    if invoice.Some? { MeetsKinds(InvoicesOf(records, order), invoice); }
    target := TargetFromRecords(data, records, consumed, pay);
  }

  predicate AmountsAgree(s: Settings, pay: Record, invoice: Record)
    requires pay.Payment? && invoice.Invoice?
  {
    var over := pay.amount - invoice.amount;
    over <= s.amountTolerance && (-over <= s.amountTolerance || pay.partial.given)
  }

  /** No other posting, no refund, an invoice that agrees, no rivals, and a target that agrees. */
  ghost predicate AllIsWell(rules: Rules, pay: Record, x: Situation, target: Option<Record>)
    requires pay.Payment? && rules.book.Valid() && x.Valid() && (target.Some? ==> target.value.Processor? || target.value.Settlement?)
  {
    && !pay.isDuplicate && (x.copies == [] || rules.settings.topology == BankGl) && x.refund == None && x.rivals == []
    && (x.invoice.Some? ==> AmountsAgree(rules.settings, pay, x.invoice.value))
    && target.Some? && Agrees(rules, pay, target.value)
  }

  lemma NothingFails(records: set<Record>, rules: Rules, consumed: set<string>, pay: Record, x: Situation, target: Option<Record>)
    requires pay.Payment? && rules.book.Valid() && Meets(records, consumed, pay, x, target)
    ensures Failures(rules, pay, x) == [] <==> AllIsWell(rules, pay, x, target)
  {
    hide AmountAndTimeAgree, FeeFits, FeeDue, DueFee, SameCode, TargetFailures, AsTarget, IsForemost, IsTarget;
    if target.Some? {
      TargetFields(rules, pay, target.value);
      NoTargetFailure(rules, pay, AsTarget(target.value));
    }
  }

  /**
   For every store of clean records and whatever was consumed before: a payment matches exactly when
   all is well with the stored records, and then its target is consumed and the match has its figures;
   otherwise there is one exception, with one finding for each check that fails.
   */
  lemma OutcomeFromRecords(data: Data, records: set<Record>, rules: Rules, consumed: set<string>, pay: Record)
    returns (x: Situation, target: Option<Record>)
    requires Holds(data, records) && rules.book.Valid() && pay.Payment? && Clean(pay)
    ensures Meets(records, consumed, pay, x, target)
    ensures var o := OutcomeOf(Simple(data), rules, consumed, pay);
            if AllIsWell(rules, pay, x, target) then
              && o.OrderMatch? && o.orderId == pay.orderId && o.paymentId == pay.transactionId && o.amount == pay.amount
              && o.partial == pay.partial.stated && o.strategy == PassOf(rules.settings, pay, target.value)
              && o.targetId == Id(target.value) && o.fees == target.value.fee && o.net == target.value.net
              && o.batchId == target.value.settlementBatchId && Consumes(o) == {Id(target.value)}
            else
              && o.Exception? && o.findings != [] && Explains(o.findings, Failures(rules, pay, x), rules, pay, x) && Consumes(o) == {}
              && (o.primaryType, o.primaryId) == if target.Some? && target.value.Processor? && !IsCopy(rules, pay, x)
                                                 then ("PROCESSOR", Id(target.value)) else ("PAYMENT", pay.transactionId)
  {
    hide Holds, Clean, Failures, SituationOf, Decide, ListsOf, AsTarget, StrategyFor, AtMostOneLeft, AmountAndTimeAgree, PassOf, FeeFits, FeeDue, DueFee,
         SameCode, Id, IsForemost, IsTarget, IsCopy, Tells;
    MatchesExactlyWhen(data, ListsOf(Simple(data), pay), rules, consumed, pay);
    x := SituationOf(data, ListsOf(Simple(data), pay), consumed);
    target := SituationFromRecords(data, records, consumed, pay);
    NothingFails(records, rules, consumed, pay, x, target);
    if target.Some? { TargetFields(rules, pay, target.value); }
  }

  /** Any match has a stored record as its target that was not consumed, belongs to the payment and agrees with it. */
  lemma MatchesAreSound(data: Data, records: set<Record>, rules: Rules, consumed: set<string>, pay: Record) returns (r: Record)
    requires Holds(data, records) && rules.book.Valid() && pay.Payment? && Clean(pay)
    requires OutcomeOf(Simple(data), rules, consumed, pay).OrderMatch?
    ensures r in records && Id(r) !in consumed && OutcomeOf(Simple(data), rules, consumed, pay).targetId == Id(r)
    ensures (r.Processor? && r.orderId == pay.orderId) || (r.Settlement? && r.transactionId in [pay.transactionId, pay.orderId])
    ensures var o := OutcomeOf(Simple(data), rules, consumed, pay);
            && Agrees(rules, pay, r) && o.strategy == PassOf(rules.settings, pay, r)
            && o.amount == pay.amount && o.fees == r.fee && o.net == r.net && o.batchId == r.settlementBatchId
    ensures AtMostOneLeft(ProcessorsOf(records, pay.orderId), consumed) && RefundsOf(records, pay.orderId) == {}
  {
    hide Holds, Clean, Decide, ListsOf, AtMostOneLeft, AmountAndTimeAgree, PassOf, FeeFits, SameCode, Id, Explains, Failures, IsCopy;
    var x, target := OutcomeFromRecords(data, records, rules, consumed, pay);
    r := target.value;
  }

  // ---------- a payment alone, without settlements ----------

  /** The order of a payment is in order: no copies, no refund, the first invoice agrees, and its one processor transaction agrees. */
  ghost predicate FitsAlone(records: set<Record>, rules: Rules, pay: Record)
    requires pay.Payment? && rules.book.Valid()
  {
    && !pay.isDuplicate && (rules.settings.topology == BankGl || AtMostOneLeft(PaymentsOf(records, pay.orderId), {}))
    && RefundsOf(records, pay.orderId) == {}
    && (forall i | Foremost(InvoicesOf(records, pay.orderId), {}, i) :: AmountsAgree(rules.settings, pay, i))
    && exists r :: ProcessorsOf(records, pay.orderId) == {r} && r.Processor? && Agrees(rules, pay, r)
  }

  lemma OnlyOneLeft(s: set<Record>, r: Record)
    requires AtMostOneLeft(s, {}) && r in s
    ensures s == {r}
  {
    hide Id;
    assert forall q | q in s :: Id(q) !in {} && q == r;
  }

  lemma WellAlone(records: set<Record>, rules: Rules, pay: Record, x: Situation, target: Option<Record>)
    requires NoSettlements(records) && rules.book.Valid() && pay.Payment? && Meets(records, {}, pay, x, target)
    ensures AllIsWell(rules, pay, x, target) <==> FitsAlone(records, rules, pay)
    ensures forall r | ProcessorsOf(records, pay.orderId) == {r} :: target == Some(r)
  {
    hide AtMostOneLeft, AmountAndTimeAgree, FeeFits, FeeDue, SameCode, Id, PaymentsOf, Less, AsTarget;
    var order := pay.orderId;
    forall i | Foremost(InvoicesOf(records, order), {}, i)
      ensures x.invoice == Some(i)
    {
      OneForemost(InvoicesOf(records, order), {}, x.invoice, Some(i));
    }
    forall r | ProcessorsOf(records, order) == {r}
      ensures target == Some(r) && AtMostOneLeft(ProcessorsOf(records, order), {})
    {
      OnlyTarget(ProcessorsOf(records, order), r, target);
    }
    if target.Some? && AtMostOneLeft(ProcessorsOf(records, order), {}) { OnlyOneLeft(ProcessorsOf(records, order), target.value); }
  }

  lemma OnlyTarget(s: set<Record>, r: Record, target: Option<Record>)
    requires s == {r} && IsForemost(s, {}, target)
    ensures target == Some(r) && AtMostOneLeft(s, {})
  {
    hide Id;
    assert r in s;
  }

  /**
   In a store without settlements a payment matches alone exactly when its order fits and has one
   processor transaction, which agrees; the match then names that transaction.
   */
  lemma MatchesAloneExactlyWhen(data: Data, records: set<Record>, rules: Rules, pay: Record)
    requires Holds(data, records) && NoSettlements(records) && rules.book.Valid() && pay.Payment? && Clean(pay)
    ensures Alone(data, rules, pay).OrderMatch? <==> FitsAlone(records, rules, pay)
    ensures Alone(data, rules, pay).OrderMatch? ==>
              forall r | ProcessorsOf(records, pay.orderId) == {r} && r.Processor? ::
                var o := Alone(data, rules, pay);
                && o.targetId == Id(r) && o.fees == r.fee && o.net == r.net && o.batchId == r.settlementBatchId
                && o.orderId == pay.orderId && o.paymentId == pay.transactionId && o.amount == pay.amount
  {
    hide Holds, NoSettlements, Clean, Decide, ListsOf, FitsAlone, AllIsWell, Meets, Id, Explains, Failures, IsCopy, PassOf;
    var x, target := OutcomeFromRecords(data, records, rules, {}, pay);
    WellAlone(records, rules, pay, x, target);
  }

  // ---------- whole runs ----------

  /** Payments that match alone want the same target exactly when they name the same order. */
  lemma SameTargetIsSameOrder(data: Data, records: set<Record>, rules: Rules, p: Record, q: Record)
    requires Holds(data, records) && NoSettlements(records) && rules.book.Valid()
    requires p.Payment? && q.Payment? && Clean(p) && Clean(q)
    requires Alone(data, rules, p).OrderMatch? && Alone(data, rules, q).OrderMatch?
    ensures Alone(data, rules, p).targetId == Alone(data, rules, q).targetId <==> p.orderId == q.orderId
  {
    hide Alone, Holds, NoSettlements, Clean, OrderEntries, EntryId;
    var e := AloneHasOneEntry(data, records, rules, p);
    var f := AloneHasOneEntry(data, records, rules, q);
    if EntryId(e) == EntryId(f) {
      SameEntry(data, records, p, q, e, f);
    }
  }

  /** In a store without settlements, over every run, the first payment of an order that fits alone matches, and no other one does. */
  lemma FirstFittingPaymentMatches(data: Data, records: set<Record>, rules: Rules, pays: seq<Record>, i: nat)
    requires Holds(data, records) && NoSettlements(records) && rules.book.Valid() && AllPayments(pays) && AllClean(pays) && i < |pays|
    ensures RunOf(Simple(data), rules, pays).outcomes[i].OrderMatch?
            <==> && FitsAlone(records, rules, pays[i])
                 && forall j | 0 <= j < i && pays[j].orderId == pays[i].orderId :: !FitsAlone(records, rules, pays[j])
  {
    hide Alone, Holds, NoSettlements, Clean, FitsAlone, RunOf;
    FirstComeFirstServed(data, records, rules, pays, i);
    forall j | 0 <= j <= i
      ensures Alone(data, rules, pays[j]).OrderMatch? <==> FitsAlone(records, rules, pays[j])
      ensures Alone(data, rules, pays[j]).OrderMatch? && Alone(data, rules, pays[i]).OrderMatch? ==>
                (Alone(data, rules, pays[j]).targetId == Alone(data, rules, pays[i]).targetId <==> pays[j].orderId == pays[i].orderId)
    {
      MatchesAloneExactlyWhen(data, records, rules, pays[j]);
      if Alone(data, rules, pays[j]).OrderMatch? && Alone(data, rules, pays[i]).OrderMatch? {
        SameTargetIsSameOrder(data, records, rules, pays[j], pays[i]);
      }
    }
  }
}
