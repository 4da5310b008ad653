/** The reconciliation engine: it finds targets in the store, collects findings and consumes what it matches (recon/matcher.py:75-653). */
module Engine {
  import opened Wrappers
  import opened Texts
  import opened Schemas
  import opened Storage
  import opened BulkIndex
  import opened Rules
  import opened Matching
  import opened Entries
  import opened Runs
  import opened Reports

  class ReconciliationEngine {
    const db: Client
    const rules: ReconciliationRules
    var consumedTargetIds: set<string>

    constructor (db: Client, rules: ReconciliationRules)
      ensures this.db == db && this.rules == rules && consumedTargetIds == {}
    {
      this.db := db;
      this.rules := rules;
      consumedTargetIds := {};
    }

    method ResetState()
      modifies this
      ensures consumedTargetIds == {}
    {
      consumedTargetIds := {};
    }

    // ---------- lookups ----------

    method LookUpOrder(order: string, kind: string, orders: Option<IndexMap>) returns (es: Items)
      ensures es == EntriesOf(db.data, orders, "ORDER", order, kind)
    {
      match orders {
        case Some(m) => es := LookUp(m, order, kind);
        case None => es := db.ScanPrefix(OwnerPrefix("ORDER", order, kind));
      }
    }

    method LookUpSettlements(pay: Record, settlements: Option<OwnerMap>) returns (es: Items)
      requires pay.Payment?
      ensures es == ListsOf(View(db.data, None, settlements, None), pay).Settlements()
    {
      match settlements {
        case Some(m) =>
          es := LookUpOwner(m, pay.transactionId);
          if es == [] { es := LookUpOwner(m, pay.orderId); }
        case None =>
          es := db.ScanPrefix(OwnerPrefix("TXN", pay.transactionId, "SETTLEMENT"));
          if es == [] { es := db.ScanPrefix(OwnerPrefix("TXN", pay.orderId, "SETTLEMENT")); }
      }
    }

    method ReadFirst(es: Items) returns (r: Option<Record>)
      ensures r == First(db.data, es)
    {
      r := None;
      if es != [] {
        var raw := db.Get(KeyText(es[0].1));
        if raw.Some? && raw.value.Json? { r := Some(raw.value.record); }
      }
    }

    method Unconsumed(es: Items) returns (available: Items)
      ensures available == Available(es, consumedTargetIds)
    {
      hide EntryId;
      available := [];
      var i := 0;
      while i < |es|
        invariant 0 <= i <= |es| && available == Available(es[..i], consumedTargetIds)
      {
        assert es[..i + 1][..i] == es[..i];
        if EntryId(es[i]) !in consumedTargetIds { available := available + [es[i]]; }
        i := i + 1;
      }
      assert es[..i] == es;
    }

    // ---------- the checks of one payment ----------

    method CheckRefundAndInvoice(pay: Record, orders: Option<IndexMap>, settlements: Option<OwnerMap>) returns (findings: seq<Finding>)
      requires pay.Payment?
      ensures var lists := ListsOf(View(db.data, orders, settlements, None), pay);
              findings == RefundFindings(db.data, lists, pay) + InvoiceFindings(db.data, lists, rules.settings, pay)
    {
      hide EntriesOf, SettlementEntries, First;
      findings := [];
      var tolerance := rules.settings.amountTolerance;
      var refundIndexes := LookUpOrder(pay.orderId, "REFUND", orders);
      var refund := ReadFirst(refundIndexes);
      if refund.Some? && refund.value.Refund? {
        var r := refund.value;
        var kind := if r.amount < pay.amount then PartialRefund else FullRefund;
        findings := findings + [AmountFinding(kind, pay.amount, r.amount, pay.amount - r.amount, [r.refundId, pay.orderId])];
      }
      var invoiceIndexes := LookUpOrder(pay.orderId, "INVOICE", orders);
      var invoice := ReadFirst(invoiceIndexes);
      if invoice.Some? && invoice.value.Invoice? {
        var i := invoice.value;
        if pay.amount > i.amount + tolerance {
          findings := findings + [AmountFinding(Overpayment, i.amount, pay.amount, pay.amount - i.amount, [i.invoiceId, pay.orderId])];
        } else if pay.amount < i.amount - tolerance && !pay.partial.given {
          findings := findings + [AmountFinding(AmountMismatch, i.amount, pay.amount, i.amount - pay.amount, [i.invoiceId, pay.orderId])];
        }
      }
    }

    method CheckOrder(pay: Record, processors: Items, orders: Option<IndexMap>, settlements: Option<OwnerMap>, ghost lists: Lists)
      returns (findings: seq<Finding>)
      requires pay.Payment? && lists == ListsOf(View(db.data, orders, settlements, None), pay) && lists.processors == processors
      ensures findings == EarlyFindings(db.data, lists, rules.settings, consumedTargetIds, pay)
    {
      hide RefundFindings, InvoiceFindings, ListsOf, Available, Keys;
      findings := CheckRefundAndInvoice(pay, orders, settlements);
      var available := Unconsumed(processors);
      if |processors| > 1 && |available| > 1 {
        findings := findings + [AmountFinding(DuplicateProcessor, pay.amount, pay.amount, 0, Keys(processors))];
      }
    }

    /** The processor transaction of the order that is still available, or else a settlement. */
    method FindTarget(pay: Record, processors: Items, settlements: Option<OwnerMap>, ghost lists: Lists) returns (target: Option<Target>)
      requires pay.Payment? && lists.processors == processors
      requires lists.Settlements() == ListsOf(View(db.data, None, settlements, None), pay).Settlements()
      ensures target == TargetFor(db.data, lists, consumedTargetIds)
    {
      hide First, Available, ListsOf, Lists.Settlements, AsTarget;
      target := None;
      var available := Unconsumed(processors);
      var processor := ReadFirst(available);
      if processor.Some? && processor.value.Processor? {
        target := Some(AsTarget(processor.value));
      }
      if target.None? {
        var entries := LookUpSettlements(pay, settlements);
        available := Unconsumed(entries);
        var settlement := ReadFirst(available);
        if settlement.Some? && settlement.value.Settlement? {
          target := Some(AsTarget(settlement.value));
        }
      }
    }

    method CheckTarget(pay: Record, t: Target) returns (findings: seq<Finding>, strategy: Option<Strategy>)
      requires pay.Payment? && rules.registry.book.Valid()
      ensures findings == TargetFindings(rules.Value(), pay, t) && strategy == StrategyFor(rules.settings, pay, t)
    {
      hide FeeFindings, IsCurrencyMatching, Book.Valid;
      findings := [];
      var s := rules.settings;
      if !IsCurrencyMatching(pay.currency, t.currency) {
        findings := findings + [Finding(CurrencyMismatch, Currency(pay.currency), Currency(t.currency), 0, [t.id, pay.orderId])];
      }
      var days := if pay.timestamp != 0 && t.timestamp != 0 then Abs(pay.timestamp - t.timestamp) / 86400 else 0;
      var cents := Abs(pay.amount - t.gross);
      var similarity := if pay.memo != "" && t.description != "" then s.similarity(pay.memo, t.description) else 1.0;
      strategy := None;
      if cents <= 1 && days == 0 {
        strategy := Some(Exact);
      } else if cents <= 1 && days <= s.timingWindowDays {
        strategy := Some(Timing);
      } else if cents <= s.amountTolerance && days <= s.toleranceWindowDays {
        if similarity >= s.fuzzyThreshold || (pay.orderId != "" && pay.orderId == t.orderId) {
          strategy := Some(Tolerance);
        } else {
          findings := findings + [AmountFinding(AmountMismatch, pay.amount, t.gross, pay.amount - t.gross, [t.id, pay.orderId])];
        }
      } else {
        findings := findings + [AmountFinding(AmountMismatch, pay.amount, t.gross, pay.amount - t.gross, [t.id, pay.orderId])];
      }
      assert findings == CurrencyFindings(pay, t) + StrategyFindings(s, pay, t);
      var feeFindings := CheckFee(pay, t);
      findings := findings + feeFindings;
    }

    method CheckFee(pay: Record, t: Target) returns (findings: seq<Finding>)
      requires pay.Payment? && rules.registry.book.Valid()
      ensures findings == FeeFindings(rules.Value(), pay, t)
    {
      hide ExpectedFee, Book.Valid;
      findings := [];
      var s := rules.settings;
      if s.enableFeeValidation && s.topology != BankGl {
        var policyId := if t.feePolicyId != "" then t.feePolicyId else pay.feePolicyId;
        var expected := rules.ComputeExpectedFee(pay.amount, Context(t.processorName, pay.paymentMethod, pay.currency), policyId);
        if expected.None? {
          findings := [AmountFinding(UnknownFeePolicy, 0, t.fee, t.fee, [pay.transactionId, pay.orderId])];
        } else if !IsAmountMatching(s, expected.value, t.fee) {
          findings := [AmountFinding(FeeMismatch, expected.value, t.fee, t.fee - expected.value, [pay.transactionId, pay.orderId])];
        }
      }
    }

    /** Matches a payment against what is still available, or reports why not. Only a match consumes. */
    method ReconcileOrder(pay: Record, orders: Option<IndexMap>, settlements: Option<OwnerMap>) returns (o: Outcome)
      requires pay.Payment? && rules.registry.book.Valid()
      modifies this
      ensures o == OutcomeOf(View(db.data, orders, settlements, None), rules.Value(), old(consumedTargetIds), pay)
      ensures consumedTargetIds == old(consumedTargetIds) + Consumes(o)
    {
      hide First, Available, TargetFor, TargetFindings, StrategyFor, EarlyFindings, Keys, Book.Valid, EntriesOf;
      ghost var lists := ListsOf(View(db.data, orders, settlements, None), pay);
      if pay.isDuplicate { return Duplicated(pay, [pay.orderId]); }
      var payIndexes := LookUpOrder(pay.orderId, "PAYMENT", orders);
      if |payIndexes| > 1 && rules.settings.topology != BankGl {
        return Duplicated(pay, Keys(payIndexes));
      }
      var processors := LookUpOrder(pay.orderId, "PROCESSOR", orders);
      var findings := CheckOrder(pay, processors, orders, settlements, lists);
      var target := FindTarget(pay, processors, settlements, lists);
      if target.None? {
        if |payIndexes| > 1 { return Duplicated(pay, Keys(payIndexes)); }
        findings := findings + [AmountFinding(MissingProcessor, pay.amount, 0, pay.amount, [pay.orderId])];
        return Exception("PAYMENT", pay.transactionId, findings);
      }
      var t := target.value;
      var more, strategy := CheckTarget(pay, t);
      findings := findings + more;
      if findings != [] {
        return Exception(if t.isProcessor then "PROCESSOR" else "PAYMENT", if t.isProcessor then t.id else pay.transactionId, findings);
      }
      o := MatchOf(pay, t, strategy);
      consumedTargetIds := consumedTargetIds + {t.id};
    }

    // ---------- settlement batches ----------

    /** Matches a settlement batch against the bank entry that names it. Nothing is consumed. */
    method ReconcileBatch(batch: Record, references: Option<IndexMap>) returns (o: Outcome)
      requires batch.Batch?
      ensures o == BatchOutcome(View(db.data, None, None, references), rules.settings, batch)
    {
      hide First, IsCurrencyMatching, CleanRef, Keys;
      var ref := CleanRef(batch.batchId);
      var entries: Items;
      match references {
        case Some(m) => entries := LookUp(m, ref, "BANK");
        case None => entries := db.ScanPrefix(OwnerPrefix("REF", ref, "BANK"));
      }
      if |entries| > 1 {
        return BatchException(batch, AmountFinding(DuplicateBankEntry, batch.totalNet, batch.totalNet, 0, Keys(entries)));
      }
      var first := ReadFirst(entries);
      if first.None? || !first.value.Bank? {
        return BatchException(batch, AmountFinding(MissingBankSettlement, batch.totalNet, 0, batch.totalNet, []));
      }
      var bank := first.value;
      if !IsCurrencyMatching(batch.currency, bank.currency) {
        return BatchException(batch, Finding(CurrencyMismatch, Currency(batch.currency), Currency(bank.currency), 0, [bank.bankTransactionId]));
      }
      if !IsAmountMatching(rules.settings, batch.totalNet, bank.amount) {
        return BatchException(batch, AmountFinding(AmountMismatch, batch.totalNet, bank.amount, batch.totalNet - bank.amount,
                                                   [bank.bankTransactionId]));
      }
      if !IsWithinTimeWindow(rules.settings, batch.timestamp, bank.timestamp) {
        return BatchException(batch, Finding(LateSettlement, Instant(batch.timestamp), Instant(bank.timestamp),
                                             Abs(batch.timestamp - bank.timestamp), [bank.bankTransactionId]));
      }
      o := BatchMatch(batch.batchId, bank.bankTransactionId, batch.totalGross, batch.totalFees, batch.totalNet);
    }

    // ---------- a whole reconciliation ----------

    method ReadStored(kind: string) returns (records: seq<Record>, scanned: nat)
      ensures records == StoredIn(db.data, kind) && scanned == |ScanOf(db.data, PrimaryKey(kind, ""))|
    {
      hide KeyKind;
      var raw := db.ScanPrefix(PrimaryKey(kind, ""));
      records := [];
      var i := 0;
      while i < |raw|
        invariant 0 <= i <= |raw| && records == Stored(raw[..i], kind)
      {
        assert raw[..i + 1][..i] == raw[..i];
        if raw[i].1.Json? && KeyKind(raw[i].1.record) == kind { records := records + [raw[i].1.record]; }
        i := i + 1;
      }
      assert raw[..i] == raw;
      scanned := |raw|;
    }

    /** One pass over each index builds the maps for all later lookups. */
    method Prefetch() returns (orders: IndexMap, settlements: OwnerMap, references: IndexMap)
      ensures Bulk(View(db.data, Some(orders), Some(settlements), Some(references)))
    {
      hide Grouped, LookUp, LookUpOwner;
      var rawOrders := db.ScanPrefix(IndexPrefix("ORDER"));
      orders := BuildIndexMap(rawOrders);
      var rawReferences := db.ScanPrefix(IndexPrefix("REF"));
      references := BuildIndexMap(rawReferences);
      var rawSettlements := db.ScanPrefix(IndexPrefix("TXN"));
      settlements := BuildSettlementMap(rawSettlements);
    }

    method ReconcileOrders(pays: seq<Record>, orders: IndexMap, settlements: OwnerMap, ghost v: View)
      returns (matches: seq<Outcome>, exceptions: seq<Outcome>)
      requires AllPayments(pays) && rules.registry.book.Valid() && consumedTargetIds == {}
      requires v.data == db.data && v.orders == Some(orders) && v.settlements == Some(settlements)
      modifies this
      ensures var run := RunOf(v, rules.Value(), pays);
              matches == Matches(run.outcomes) && exceptions == Exceptions(run.outcomes) && consumedTargetIds == run.consumed
    {
      hide Decide, Book.Valid, OrderEntries, SettlementEntries, Consumes, RunOf;
      matches, exceptions := [], [];
      var i := 0;
      RunNone(v, rules.Value());
      while i < |pays|
        invariant 0 <= i <= |pays|
        invariant matches == Matches(RunOf(v, rules.Value(), pays[..i]).outcomes)
        invariant exceptions == Exceptions(RunOf(v, rules.Value(), pays[..i]).outcomes)
        invariant consumedTargetIds == RunOf(v, rules.Value(), pays[..i]).consumed
      {
        var o := ReconcileOrder(pays[i], Some(orders), Some(settlements));
        ReferencesDoNotMatter(v, pays[i]);
        RunNext(v, rules.Value(), pays[..i], pays[i]);
        assert pays[..i] + [pays[i]] == pays[..i + 1];
        if o.Exception? { exceptions := exceptions + [o]; } else { matches := matches + [o]; }
        i := i + 1;
      }
      assert pays[..i] == pays;
    }

    /** Processor transactions that nothing consumed and whose order has no payment. */
    method ReportOrphans(orders: IndexMap, ghost v: View) returns (exceptions: seq<Outcome>)
      requires v.data == db.data && v.orders == Some(orders)
      ensures AllProcessors(StoredIn(db.data, "PROCESSOR"))
      ensures exceptions == Orphans(v, consumedTargetIds, StoredIn(db.data, "PROCESSOR"))
    {
      hide LookUp, Stored;
      StoredTypes(db.data);
      var processors, scanned := ReadStored("PROCESSOR");
      exceptions := [];
      var i := 0;
      while i < |processors|
        invariant 0 <= i <= |processors| && exceptions == Orphans(v, consumedTargetIds, processors[..i])
      {
        assert processors[..i + 1][..i] == processors[..i];
        var r := processors[i];
        if r.processorTransactionId !in consumedTargetIds {
          if LookUp(orders, r.orderId, "PAYMENT") == [] { exceptions := exceptions + [OrphanException(r)]; }
        }
        i := i + 1;
      }
      assert processors[..i] == processors;
    }

    method ReconcileBatches(references: IndexMap, ghost v: View) returns (matches: seq<Outcome>, exceptions: seq<Outcome>, scanned: nat)
      requires v.data == db.data && v.references == Some(references)
      ensures AllBatches(StoredIn(db.data, "BATCH")) && scanned == |ScanOf(db.data, PrimaryKey("BATCH", ""))|
      ensures var outcomes := BatchOutcomes(v, rules.settings, StoredIn(db.data, "BATCH"));
              matches == Matches(outcomes) && exceptions == Exceptions(outcomes)
    {
      hide LookUp, Stored, DecideBatch, PrimaryKey;
      StoredTypes(db.data);
      var batches;
      batches, scanned := ReadStored("BATCH");
      ghost var outcomes := BatchOutcomes(v, rules.settings, batches);
      matches, exceptions := [], [];
      var i := 0;
      while i < |batches|
        invariant 0 <= i <= |batches| && matches == Matches(outcomes[..i]) && exceptions == Exceptions(outcomes[..i])
      {
        assert outcomes[..i + 1][..i] == outcomes[..i];
        var o := ReconcileBatch(batches[i], Some(references));
        assert o == outcomes[i];
        if o.Exception? { exceptions := exceptions + [o]; } else { matches := matches + [o]; }
        i := i + 1;
      }
      assert outcomes[..i] == outcomes;
    }

    /** Reconciles the given payments, or else all stored ones, then reports orphans and settles the batches. */
    method ReconcileAll(payments: Option<seq<Record>>) returns (report: Report, ghost v: View, ghost pays: seq<Record>)
      requires payments.Some? ==> AllPayments(payments.value)
      requires rules.registry.book.Valid()
      modifies this
      ensures v.data == db.data && Bulk(v)
      ensures pays == if payments.Some? then payments.value else StoredIn(db.data, "PAYMENT")
      ensures AllPayments(pays) && AllProcessors(StoredIn(db.data, "PROCESSOR")) && AllBatches(StoredIn(db.data, "BATCH"))
      ensures report == ReportOf(v, rules.Value(), pays, StoredIn(db.data, "PROCESSOR"), StoredIn(db.data, "BATCH"),
                                 |ScanOf(db.data, PrimaryKey("BATCH", ""))|)
      ensures consumedTargetIds == RunOf(v, rules.Value(), pays).consumed
      ensures forall records | Holds(db.data, records) && AllClean(pays) ::
                report == ReportOf(Simple(db.data), rules.Value(), pays, StoredIn(db.data, "PROCESSOR"), StoredIn(db.data, "BATCH"),
                                   |ScanOf(db.data, PrimaryKey("BATCH", ""))|)
    {
      hide Bulk, RunOf, Orphans, BatchOutcomes, Book.Valid, StoredIn, Clean, Holds, PrimaryKey;
      ResetState();
      StoredTypes(db.data);
      var list: seq<Record>;
      if payments.Some? {
        list := payments.value;
      } else {
        var stored, scannedPayments := ReadStored("PAYMENT");
        list := stored;
      }
      pays := list;
      var orders, settlements, references := Prefetch();
      v := View(db.data, Some(orders), Some(settlements), Some(references));
      var orderMatches, exceptions := ReconcileOrders(list, orders, settlements, v);
      var orphans := ReportOrphans(orders, v);
      var batchMatches, batchExceptions, scanned := ReconcileBatches(references, v);
      report := Report(|list| + scanned, orderMatches + batchMatches, exceptions + orphans + batchExceptions, orderMatches, batchMatches);
      forall records | Holds(db.data, records) && AllClean(pays) {
        BulkReportIsSimpleReport(v, records, rules.Value(), pays);
      }
    }
  }

  lemma ReferencesDoNotMatter(v: View, pay: Record)
    requires pay.Payment?
    ensures ListsOf(View(v.data, v.orders, v.settlements, None), pay) == ListsOf(v, pay)
  {
  }
}
