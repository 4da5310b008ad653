/** What the matcher's lookups find in a store of clean records, with and without the bulk maps (recon/matcher.py:103-128, 229-320). */
module Entries {
  import opened Wrappers
  import opened Texts
  import opened Spelling
  import opened Schemas
  import opened Storage
  import opened BulkIndex
  import opened Matching

  /** The store and the index maps, if any, that the lookups go to. */
  datatype View = View(data: Data, orders: Option<IndexMap>, settlements: Option<OwnerMap>, references: Option<IndexMap>)

  /** Every lookup is a prefix scan. */
  function Simple(data: Data): View {
    View(data, None, None, None)
  }

  ghost function EntriesOf(data: Data, m: Option<IndexMap>, name: string, owner: string, kind: string): Items {
    match m
    case Some(m) => LookUp(m, owner, kind)
    case None => ScanOf(data, OwnerPrefix(name, owner, kind))
  }

  ghost function OrderEntries(v: View, order: string, kind: string): Items {
    EntriesOf(v.data, v.orders, "ORDER", order, kind)
  }

  ghost function SettlementEntries(v: View, txn: string): Items {
    match v.settlements
    case Some(m) => LookUpOwner(m, txn)
    case None => ScanOf(v.data, OwnerPrefix("TXN", txn, "SETTLEMENT"))
  }

  ghost function BankEntries(v: View, batchId: string): Items {
    EntriesOf(v.data, v.references, "REF", CleanRef(batchId), "BANK")
  }

  ghost function ListsOf(v: View, pay: Record): Lists
    requires pay.Payment?
  {
    Lists(OrderEntries(v, pay.orderId, "PAYMENT"), OrderEntries(v, pay.orderId, "REFUND"), OrderEntries(v, pay.orderId, "INVOICE"),
          OrderEntries(v, pay.orderId, "PROCESSOR"), SettlementEntries(v, pay.transactionId), SettlementEntries(v, pay.orderId))
  }

  // ---------- the bulk maps against the scans ----------

  ghost predicate MapOf(data: Data, name: string, m: IndexMap) {
    forall owner, kind :: LookUp(m, owner, kind) == Grouped(ScanOf(data, IndexPrefix(name)), Place(owner, kind))
  }

  ghost predicate SettlementMapOf(data: Data, m: OwnerMap) {
    forall owner :: LookUpOwner(m, owner) == Grouped(ScanOf(data, IndexPrefix("TXN")), Place(owner, "SETTLEMENT"))
  }

  /** The view holds the maps that reconcile_all builds from its store. */
  ghost predicate Bulk(v: View) {
    && v.orders.Some? && MapOf(v.data, "ORDER", v.orders.value)
    && v.settlements.Some? && SettlementMapOf(v.data, v.settlements.value)
    && v.references.Some? && MapOf(v.data, "REF", v.references.value)
  }

  lemma KindsAreNames()
    ensures forall kind | kind in {"PAYMENT", "REFUND", "INVOICE", "PROCESSOR", "SETTLEMENT", "BANK", "BATCH"} :: ColonFree(kind) && kind != ""
    ensures ColonFree("ORDER") && ColonFree("TXN") && ColonFree("REF")
  {
  }

  lemma OrderEntriesAgree(v: View, order: string, kind: string)
    requires Bulk(v) && kind in {"PAYMENT", "REFUND", "INVOICE", "PROCESSOR"}
    ensures OrderEntries(v, order, kind) == OrderEntries(Simple(v.data), order, kind) <==> Regular(v.data, "ORDER", order, kind)
  {
    hide Regular, Grouped, LookUp, SettlementMapOf;
    KindsAreNames();
    BulkAgreesWithScan(v.data, "ORDER", order, kind);
  }

  lemma SettlementEntriesAgree(v: View, txn: string)
    requires Bulk(v)
    ensures SettlementEntries(v, txn) == SettlementEntries(Simple(v.data), txn) <==> Regular(v.data, "TXN", txn, "SETTLEMENT")
  {
    hide Regular, Grouped, LookUpOwner, MapOf;
    KindsAreNames();
    BulkAgreesWithScan(v.data, "TXN", txn, "SETTLEMENT");
  }

  /** For any store: the maps and the scans give a payment the same lists exactly when the store is regular at its six places. */
  lemma SameListsExactlyWhen(v: View, pay: Record)
    requires Bulk(v) && pay.Payment?
    ensures ListsOf(v, pay) == ListsOf(Simple(v.data), pay)
            <==> && (forall kind | kind in {"PAYMENT", "REFUND", "INVOICE", "PROCESSOR"} :: Regular(v.data, "ORDER", pay.orderId, kind))
                 && Regular(v.data, "TXN", pay.transactionId, "SETTLEMENT") && Regular(v.data, "TXN", pay.orderId, "SETTLEMENT")
  {
    hide Regular, Bulk, OrderEntries, SettlementEntries;
    forall kind | kind in {"PAYMENT", "REFUND", "INVOICE", "PROCESSOR"} {
      OrderEntriesAgree(v, pay.orderId, kind);
    }
    SettlementEntriesAgree(v, pay.transactionId);
    SettlementEntriesAgree(v, pay.orderId);
  }

  lemma CleanPayment(pay: Record)
    requires Clean(pay) && pay.Payment?
    ensures ColonFree(pay.orderId) && ColonFree(pay.transactionId)
  {
  }

  /** In a store of clean records every payment with clean ids gets the same lists on both paths. */
  lemma SameLists(v: View, records: set<Record>, pay: Record)
    requires Bulk(v) && Holds(v.data, records) && pay.Payment? && Clean(pay)
    ensures ListsOf(v, pay) == ListsOf(Simple(v.data), pay)
  {
    hide Regular, Bulk, OrderEntries, SettlementEntries, Holds, Clean, ListsOf;
    CleanPayment(pay);
    KindsAreNames();
    SameListsExactlyWhen(v, pay);
    forall kind | kind in {"PAYMENT", "REFUND", "INVOICE", "PROCESSOR"} {
      HeldIsRegular(v.data, records, "ORDER", pay.orderId, kind);
    }
    HeldIsRegular(v.data, records, "TXN", pay.transactionId, "SETTLEMENT");
    HeldIsRegular(v.data, records, "TXN", pay.orderId, "SETTLEMENT");
  }

  /** The bank entries agree as well, and for every batch id, as cleaned references have no colons. */
  lemma SameBankEntries(v: View, records: set<Record>, batchId: string)
    requires Bulk(v) && Holds(v.data, records)
    ensures BankEntries(v, batchId) == BankEntries(Simple(v.data), batchId)
  {
    hide Regular, Grouped, LookUp, SettlementMapOf, Holds;
    KindsAreNames();
    BulkAgreesWithScan(v.data, "REF", CleanRef(batchId), "BANK");
    HeldIsRegular(v.data, records, "REF", CleanRef(batchId), "BANK");
  }

  // ---------- what an entry leads to ----------

  lemma KindTells(r: Record)
    ensures KeyKind(r) == "PAYMENT" <==> r.Payment?
    ensures KeyKind(r) == "PROCESSOR" <==> r.Processor?
    ensures KeyKind(r) == "SETTLEMENT" <==> r.Settlement?
    ensures KeyKind(r) == "BANK" <==> r.Bank?
    ensures KeyKind(r) == "REFUND" <==> r.Refund?
    ensures KeyKind(r) == "INVOICE" <==> r.Invoice?
  {
  }

  /** An entry under an owner leads to a stored record of the right kind, and names its id. */
  lemma EntryLeadsTo(data: Data, records: set<Record>, name: string, owner: string, kind: string, e: Item) returns (r: Record)
    requires Holds(data, records) && name in {"ORDER", "TXN", "REF"} && ColonFree(owner) && ColonFree(kind)
    requires e in ScanOf(data, OwnerPrefix(name, owner, kind))
    ensures r in records && KeyKind(r) == kind && e.0 in EntityKeys(r) && e == EntryUnder(name, owner, kind, r)
    ensures Fetch(data, KeyText(e.1)) == Some(r) && EntryId(e) == Id(r)
  {
    hide EntityKeys, ToKey, IndexKey, OwnerPrefix, ColonFree, Clean, Id, KeyKind, TemporalKey, RecordType, TenDigits, LastPart;
    r := EntryRecord(data, records, name, owner, kind, e);
    HeldClean(data, records, r);
    SplitOfTemporal(r);
  }

  predicate HasOrder(r: Record) {
    r.Payment? || r.Invoice? || r.Processor? || r.Refund?
  }

  /** The owner in an index key of a record is the one that the record names. */
  lemma OwnerNamed(name: string, owner: string, r: Record)
    requires Clean(r) && name in {"ORDER", "TXN", "REF"} && ColonFree(owner)
    requires IndexKey(name, owner, KeyKind(r), Id(r)) in EntityKeys(r)
    ensures name == "ORDER" ==> HasOrder(r) && r.orderId == owner
    ensures name == "TXN" && r.Settlement? ==> r.transactionId == owner
    ensures r.Bank? ==> CleanRef(r.reference) == owner
  {
    hide IndexKey, CleanRef, Pow10, OwnerPrefix, IndexPrefix, ColonFree;
    KindsColonFree(r);
    NamesOfIndexes(name);
    var k := IndexKey(name, owner, KeyKind(r), Id(r));
    OwnKeyUnder(name, owner, KeyKind(r), Id(r));
    match r {
      case Payment(_, _, _, id, order, _, _, _, _, _, _) => SameOwner(name, owner, "ORDER", order, "PAYMENT", id);
      case Processor(_, _, _, id, order, _, _, _, _, batch, _, _) =>
        if k == IndexKey("ORDER", order, "PROCESSOR", id) {
          SameOwner(name, owner, "ORDER", order, "PROCESSOR", id);
        } else {
          SameOwner(name, owner, "BATCH", batch, "PROCESSOR", id);
        }
      case Invoice(_, _, _, id, order, _) => SameOwner(name, owner, "ORDER", order, "INVOICE", id);
      case Refund(_, _, _, id, txn, order, _) =>
        if k == IndexKey("ORDER", order, "REFUND", id) {
          SameOwner(name, owner, "ORDER", order, "REFUND", id);
        } else {
          SameOwner(name, owner, "TXN", txn, "REFUND", id);
        }
      case Settlement(_, _, _, id, txn, _, _, _, batch) =>
        if k == IndexKey("TXN", txn, "SETTLEMENT", id) {
          SameOwner(name, owner, "TXN", txn, "SETTLEMENT", id);
        } else {
          SameOwner(name, owner, "BATCH", batch, "SETTLEMENT", id);
        }
      case Batch(_, _, _, id, _, _, _) => SameOwner(name, owner, "REF", CleanRef(id), "BATCH", id);
      case Bank(_, _, _, id, reference, _) => SameOwner(name, owner, "REF", CleanRef(reference), "BANK", id);
      case Adjustment(_, _, _, _) =>
    }
  }

  lemma OwnKeyUnder(name: string, owner: string, kind: string, id: string)
    ensures StartsWith(IndexKey(name, owner, kind, id), IndexPrefix(name))
    ensures StartsWith(IndexKey(name, owner, kind, id), OwnerPrefix(name, owner, kind))
  {
  }

  lemma SameOwner(name: string, owner: string, name2: string, owner2: string, kind: string, id: string)
    requires name in {"ORDER", "TXN", "REF"} && name2 in {"ORDER", "TXN", "REF", "BATCH"}
    requires ColonFree(owner) && ColonFree(owner2) && ColonFree(kind) && ColonFree(id)
    requires IndexKey(name, owner, kind, id) == IndexKey(name2, owner2, kind, id)
    ensures name == name2 && owner == owner2
  {
    hide IndexKey, OwnerPrefix, IndexPrefix, ColonFree;
    NamesOfIndexes(name);
    OwnKeyUnder(name, owner, kind, id);
    SameIndexName(name, name2, owner2, kind, id);
    OwnerOfKey(name, owner, kind, owner2, kind, id);
  }

  /** The processor entries of an order are its stored processor transactions, one each. */
  lemma ProcessorEntry(data: Data, records: set<Record>, order: string, e: Item) returns (r: Record)
    requires Holds(data, records) && ColonFree(order) && e in OrderEntries(Simple(data), order, "PROCESSOR")
    ensures r in records && r.Processor? && r.orderId == order && e == EntryUnder("ORDER", order, "PROCESSOR", r)
    ensures Fetch(data, KeyText(e.1)) == Some(r) && EntryId(e) == Id(r)
  {
    hide Holds, EntityKeys, ToKey, IndexKey, OwnerPrefix, ColonFree, Clean, Id, KeyKind, Fetch, EntryId;
    KindsAreNames();
    r := EntryLeadsTo(data, records, "ORDER", order, "PROCESSOR", e);
    KindTells(r);
    HeldClean(data, records, r);
    OwnerNamed("ORDER", order, r);
  }

  lemma SettlementEntry(data: Data, records: set<Record>, txn: string, e: Item) returns (r: Record)
    requires Holds(data, records) && ColonFree(txn) && e in SettlementEntries(Simple(data), txn)
    ensures r in records && r.Settlement? && r.transactionId == txn
    ensures Fetch(data, KeyText(e.1)) == Some(r) && EntryId(e) == Id(r)
  {
    hide Holds, EntityKeys, ToKey, IndexKey, OwnerPrefix, ColonFree, Clean, Id, KeyKind, Fetch, EntryId;
    KindsAreNames();
    r := EntryLeadsTo(data, records, "TXN", txn, "SETTLEMENT", e);
    KindTells(r);
    HeldClean(data, records, r);
    OwnerNamed("TXN", txn, r);
  }

  /** A record of a kind that names an order. */
  predicate InOrder(r: Record, order: string, kind: string) {
    HasOrder(r) && KeyKind(r) == kind && r.orderId == order
  }

  lemma OwnOrderKey(r: Record)
    requires HasOrder(r)
    ensures IndexKey("ORDER", r.orderId, KeyKind(r), Id(r)) in EntityKeys(r)
  {
    hide IndexKey;
  }

  /** The entries of a kind under an order are exactly the stored records of that kind that name the order. */
  lemma OrderEntriesExactly(data: Data, records: set<Record>, order: string, kind: string)
    requires Holds(data, records) && ColonFree(order) && ColonFree(kind)
    ensures forall r | r in records && InOrder(r, order, kind) ::
              EntryUnder("ORDER", order, kind, r) in OrderEntries(Simple(data), order, kind)
    ensures forall e | e in OrderEntries(Simple(data), order, kind) ::
              exists r :: r in records && InOrder(r, order, kind) && e == EntryUnder("ORDER", order, kind, r)
  {
    hide Holds, ToKey, IndexKey, OwnerPrefix, ColonFree, Clean, Fetch, EntryId, KeyKind, HasOrder, EntityKeys;
    forall r | r in records && InOrder(r, order, kind)
      ensures EntryUnder("ORDER", order, kind, r) in OrderEntries(Simple(data), order, kind)
    {
      OwnOrderKey(r);
      RecordEntry(data, records, "ORDER", order, kind, r);
    }
    forall e | e in OrderEntries(Simple(data), order, kind)
      ensures exists r :: r in records && InOrder(r, order, kind) && e == EntryUnder("ORDER", order, kind, r)
    {
      var r := EntryLeadsTo(data, records, "ORDER", order, kind, e);
      HeldClean(data, records, r);
      OwnerNamed("ORDER", order, r);
    }
  }

  /** The payment entries of an order are the stored payments that name it. */
  lemma PaymentEntries(data: Data, records: set<Record>, order: string)
    requires Holds(data, records) && ColonFree(order)
    ensures forall p | p in records && p.Payment? && p.orderId == order ::
              EntryUnder("ORDER", order, "PAYMENT", p) in OrderEntries(Simple(data), order, "PAYMENT")
    ensures forall e | e in OrderEntries(Simple(data), order, "PAYMENT") ::
              exists p :: p in records && p.Payment? && p.orderId == order && e == EntryUnder("ORDER", order, "PAYMENT", p)
  {
    hide Holds, ColonFree, OrderEntries, EntryUnder, KeyKind;
    KindsAreNames();
    OrderEntriesExactly(data, records, order, "PAYMENT");
    forall p {
      KindTells(p);
    }
  }

  /** A bank entry leads to a bank transaction whose reference is spelled like the batch id, up to case and punctuation. */
  lemma BankEntry(data: Data, records: set<Record>, batchId: string, e: Item) returns (r: Record)
    requires Holds(data, records) && e in BankEntries(Simple(data), batchId)
    ensures r in records && r.Bank? && SpelledAlike(r.reference, batchId)
    ensures e == EntryUnder("REF", CleanRef(batchId), "BANK", r)
    ensures Fetch(data, KeyText(e.1)) == Some(r) && EntryId(e) == Id(r)
  {
    hide Holds, EntityKeys, ToKey, IndexKey, OwnerPrefix, ColonFree, Clean, Id, KeyKind, Fetch, EntryId, CleanRef, SpelledAlike;
    KindsAreNames();
    r := EntryLeadsTo(data, records, "REF", CleanRef(batchId), "BANK", e);
    KindTells(r);
    HeldClean(data, records, r);
    OwnerNamed("REF", CleanRef(batchId), r);
    CleanedExactlyAlike(r.reference, batchId);
  }
}
