/** Records and the keys they are stored and found under (ingestion/schemas.py). Amounts are in cents. */
module Schemas {
  import opened Wrappers
  import opened Texts

  /** Python's str(metadata["is_partial"]) is read twice: as a truth value and as one of the texts "true" and "1". */
  datatype Partial = Partial(given: bool, stated: bool)

  datatype Record =
    | Payment(merchantId: string, currency: string, timestamp: int, transactionId: string, orderId: string, amount: int,
              paymentMethod: string, isDuplicate: bool, partial: Partial, memo: string, feePolicyId: string)
    | Invoice(merchantId: string, currency: string, timestamp: int, invoiceId: string, orderId: string, amount: int)
    | Processor(merchantId: string, currency: string, timestamp: int, processorTransactionId: string, orderId: string,
                processorName: string, gross: int, fee: int, net: int, settlementBatchId: string, description: string,
                feePolicyId: string)
    | Settlement(merchantId: string, currency: string, timestamp: int, settlementId: string, transactionId: string,
                 gross: int, fee: int, net: int, settlementBatchId: string)
    | Batch(merchantId: string, currency: string, timestamp: int, batchId: string, totalGross: int, totalFees: int, totalNet: int)
    | Bank(merchantId: string, currency: string, timestamp: int, bankTransactionId: string, reference: string, amount: int)
    | Refund(merchantId: string, currency: string, timestamp: int, refundId: string, transactionId: string, orderId: string, amount: int)
    | Adjustment(merchantId: string, currency: string, timestamp: int, adjustmentId: string)

  function RecordType(r: Record): string {
    match r
    case Payment(_, _, _, _, _, _, _, _, _, _, _) => "PAYMENT"
    case Invoice(_, _, _, _, _, _) => "INVOICE"
    case Processor(_, _, _, _, _, _, _, _, _, _, _, _) => "PROCESSOR"
    case Settlement(_, _, _, _, _, _, _, _, _) => "SETTLEMENT"
    case Batch(_, _, _, _, _, _, _) => "BATCH"
    case Bank(_, _, _, _, _, _) => "BANK_TRANSACTION"
    case Refund(_, _, _, _, _, _, _) => "REFUND"
    case Adjustment(_, _, _, _) => "ADJUSTMENT"
  }

  /** The kind inside a key; only bank transactions are keyed under a shorter name. */
  function KeyKind(r: Record): string {
    if r.Bank? then "BANK" else RecordType(r)
  }

  function Id(r: Record): string {
    match r
    case Payment(_, _, _, id, _, _, _, _, _, _, _) => id
    case Invoice(_, _, _, id, _, _) => id
    case Processor(_, _, _, id, _, _, _, _, _, _, _, _) => id
    case Settlement(_, _, _, id, _, _, _, _, _) => id
    case Batch(_, _, _, id, _, _, _) => id
    case Bank(_, _, _, id, _, _) => id
    case Refund(_, _, _, id, _, _, _) => id
    case Adjustment(_, _, _, id) => id
  }

  function PrimaryKey(kind: string, id: string): string {
    "REC:" + kind + ":" + id
  }

  function ToKey(r: Record): string {
    PrimaryKey(KeyKind(r), Id(r))
  }

  function TemporalPrefix(merchant: string): string {
    "IDX:MERCHANT:" + merchant + ":"
  }

  function TemporalKey(r: Record): string {
    TemporalPrefix(r.merchantId) + TenDigits(r.timestamp) + ":" + RecordType(r) + ":" + LastPart(ToKey(r))
  }

  /** Every entity index key has this shape. */
  function IndexPrefix(name: string): string {
    "IDX:" + name + ":"
  }

  function IndexKey(name: string, owner: string, kind: string, id: string): string {
    IndexPrefix(name) + owner + ":" + kind + ":" + id
  }

  /** The entity index keys that put_record writes for a record, in its order. */
  function EntityKeys(r: Record): seq<string> {
    match r
    case Payment(_, _, _, id, order, _, _, _, _, _, _) => [IndexKey("ORDER", order, "PAYMENT", id)]
    case Invoice(_, _, _, id, order, _) => [IndexKey("ORDER", order, "INVOICE", id)]
    case Processor(_, _, _, id, order, _, _, _, _, batch, _, _) =>
      [IndexKey("ORDER", order, "PROCESSOR", id)] + if batch != "" then [IndexKey("BATCH", batch, "PROCESSOR", id)] else []
    case Settlement(_, _, _, id, txn, _, _, _, batch) =>
      [IndexKey("TXN", txn, "SETTLEMENT", id)] + if batch != "" then [IndexKey("BATCH", batch, "SETTLEMENT", id)] else []
    case Batch(_, _, _, id, _, _, _) => [IndexKey("REF", CleanRef(id), "BATCH", id)]
    case Bank(_, _, _, id, reference, _) => [IndexKey("REF", CleanRef(reference), "BANK", id)]
    case Refund(_, _, _, id, txn, order, _) => [IndexKey("ORDER", order, "REFUND", id), IndexKey("TXN", txn, "REFUND", id)]
    case Adjustment(_, _, _, _) => []
  }

  function AllIndexKeys(r: Record): seq<string> {
    [TemporalKey(r)] + EntityKeys(r)
  }

  // ---------- reading an index key back ----------

  datatype Place = Place(owner: string, kind: string)

  /** How reconcile_all takes an index key apart: the last part is the id, the one before it the kind, the rest the owner. */
  function ParseIndex(key: string): Option<Place> {
    var parts := Split(key);
    if |parts| >= 4 then Some(Place(Join(parts[2..|parts| - 2]), parts[|parts| - 2])) else None
  }

  lemma SplitOfIndexPrefix(name: string, rest: string)
    requires ColonFree(name)
    ensures Split(IndexPrefix(name) + rest) == ["IDX", name] + Split(rest)
  {
    hide Split;
    SplitColonFree("IDX");
    SplitColonFree(name);
    SplitAtColon(name, rest);
    SplitAtColon("IDX", name + ":" + rest);
    assert IndexPrefix(name) + rest == "IDX" + ":" + (name + ":" + rest);
  }

  /** Owners may hold colons: the key still comes apart into owner and kind, if kind and id have none. */
  lemma ParseOfIndexKey(name: string, owner: string, kind: string, id: string)
    requires ColonFree(name) && ColonFree(kind) && ColonFree(id)
    ensures ParseIndex(IndexKey(name, owner, kind, id)) == Some(Place(owner, kind))
  {
    hide Split, Join;
    SplitOfIndexPrefix(name, owner + ":" + kind + ":" + id);
    SplitAtColon(owner, kind + ":" + id);
    SplitAtColon(kind, id);
    SplitColonFree(kind);
    SplitColonFree(id);
    JoinOfSplit(owner);
    var key := IndexKey(name, owner, kind, id);
    assert key == IndexPrefix(name) + (owner + ":" + kind + ":" + id);
    assert owner + ":" + (kind + ":" + id) == owner + ":" + kind + ":" + id;
    var parts := Split(key);
    assert parts == ["IDX", name] + Split(owner) + [kind, id];
    assert parts[2..|parts| - 2] == Split(owner);
  }

  /** The keys of one owner and kind in an index, for the prefix scan of the simple path. */
  function OwnerPrefix(name: string, owner: string, kind: string): string {
    IndexPrefix(name) + owner + ":" + kind + ":"
  }

  /** What a parse to a given place says about a key: either a regular key of the owner, or one with no owner at all. */
  lemma PlaceOfKey(name: string, key: string, owner: string, kind: string)
    requires ColonFree(name) && ColonFree(kind) && StartsWith(key, IndexPrefix(name))
    ensures ParseIndex(key) == Some(Place(owner, kind))
            <==> (exists id :: ColonFree(id) && key == OwnerPrefix(name, owner, kind) + id)
                 || (owner == "" && exists id :: ColonFree(id) && key == IndexPrefix(name) + kind + ":" + id)
  {
    hide Split, Join, CleanRef;
    if exists id :: ColonFree(id) && key == OwnerPrefix(name, owner, kind) + id {
      var id :| ColonFree(id) && key == OwnerPrefix(name, owner, kind) + id;
      ParseOfIndexKey(name, owner, kind, id);
      assert key == IndexKey(name, owner, kind, id);
    } else if owner == "" && exists id :: ColonFree(id) && key == IndexPrefix(name) + kind + ":" + id {
      var id :| ColonFree(id) && key == IndexPrefix(name) + kind + ":" + id;
      OwnerlessKey(name, kind, id);
      assert key == IndexPrefix(name) + (kind + ":" + id);
    }
    if ParseIndex(key) == Some(Place(owner, kind)) {
      KeyOfPlace(name, key, owner, kind);
    }
  }

  lemma OwnerlessKey(name: string, kind: string, id: string)
    requires ColonFree(name) && ColonFree(kind) && ColonFree(id)
    ensures ParseIndex(IndexPrefix(name) + (kind + ":" + id)) == Some(Place("", kind))
  {
    hide Split;
    SplitOfIndexPrefix(name, kind + ":" + id);
    SplitAtColon(kind, id);
    SplitColonFree(kind);
    SplitColonFree(id);
    var parts := Split(IndexPrefix(name) + (kind + ":" + id));
    assert parts == ["IDX", name, kind, id];
    assert parts[2..2] == [];
  }

  lemma KeyOfPlace(name: string, key: string, owner: string, kind: string)
    requires ColonFree(name) && StartsWith(key, IndexPrefix(name))
    requires ParseIndex(key) == Some(Place(owner, kind))
    ensures (exists id :: ColonFree(id) && key == OwnerPrefix(name, owner, kind) + id)
            || (owner == "" && exists id :: ColonFree(id) && key == IndexPrefix(name) + kind + ":" + id)
  {
    hide Split, Join;
    var rest := key[|IndexPrefix(name)|..];
    assert key == IndexPrefix(name) + rest;
    SplitOfIndexPrefix(name, rest);
    var q := Split(rest);
    var n := |q|;
    var parts := Split(key);
    var id := q[n - 1];
    SplitParts(rest);
    JoinOfSplit(rest);
    assert parts[2..|parts| - 2] == q[..n - 2];
    assert q == q[..n - 2] + [kind, id];
    JoinTwo(kind, id);
    if n == 2 {
      assert q[..0] == [];
      assert rest == kind + ":" + id;
      assert key == IndexPrefix(name) + kind + ":" + id;
    } else {
      JoinConcat(q[..n - 2], [kind, id]);
      assert rest == owner + ":" + (kind + ":" + id);
      assert key == OwnerPrefix(name, owner, kind) + id;
    }
  }

  lemma JoinTwo(a: string, b: string)
    ensures Join([a, b]) == a + ":" + b && Join([]) == ""
  {
  }

  // ---------- the keys as texts ----------

  lemma PrimaryText(kind: string, id: string, head: string)
    requires head == "REC:" + kind + ":"
    ensures PrimaryKey(kind, id) == head + id
  {
  }

  lemma IndexText(name: string, owner: string, kind: string, id: string, head: string, middle: string)
    requires head == "IDX:" + name + ":" && middle == ":" + kind + ":"
    ensures IndexKey(name, owner, kind, id) == head + owner + middle + id
  {
    assert head + owner + ":" + kind + ":" + id == head + owner + (":" + kind + ":") + id;
  }

  /** The keys of a payment, invoice or refund as texts. */
  lemma OrderRecordKeys(r: Record)
    ensures r.Payment? ==>
              && ToKey(r) == "REC:PAYMENT:" + r.transactionId
              && EntityKeys(r) == ["IDX:ORDER:" + r.orderId + ":PAYMENT:" + r.transactionId]
    ensures r.Invoice? ==>
              && ToKey(r) == "REC:INVOICE:" + r.invoiceId
              && EntityKeys(r) == ["IDX:ORDER:" + r.orderId + ":INVOICE:" + r.invoiceId]
    ensures r.Refund? ==>
              && ToKey(r) == "REC:REFUND:" + r.refundId
              && EntityKeys(r) == ["IDX:ORDER:" + r.orderId + ":REFUND:" + r.refundId, "IDX:TXN:" + r.transactionId + ":REFUND:" + r.refundId]
  {
    hide IndexKey, PrimaryKey;
    match r {
      case Payment(_, _, _, id, order, _, _, _, _, _, _) =>
        PrimaryText("PAYMENT", id, "REC:PAYMENT:");
        IndexText("ORDER", order, "PAYMENT", id, "IDX:ORDER:", ":PAYMENT:");
      case Invoice(_, _, _, id, order, _) =>
        PrimaryText("INVOICE", id, "REC:INVOICE:");
        IndexText("ORDER", order, "INVOICE", id, "IDX:ORDER:", ":INVOICE:");
      case Refund(_, _, _, id, txn, order, _) =>
        PrimaryText("REFUND", id, "REC:REFUND:");
        IndexText("ORDER", order, "REFUND", id, "IDX:ORDER:", ":REFUND:");
        IndexText("TXN", txn, "REFUND", id, "IDX:TXN:", ":REFUND:");
      case _ =>
    }
  }

  /** The keys of a processor transaction; that of its batch only if it has one. */
  lemma ProcessorKeys(r: Record)
    ensures r.Processor? ==>
              var id := r.processorTransactionId;
              && ToKey(r) == "REC:PROCESSOR:" + id
              && EntityKeys(r) == ["IDX:ORDER:" + r.orderId + ":PROCESSOR:" + id]
                                  + if r.settlementBatchId == "" then [] else ["IDX:BATCH:" + r.settlementBatchId + ":PROCESSOR:" + id]
  {
    hide IndexKey, PrimaryKey;
    if r.Processor? {
      var id := r.processorTransactionId;
      PrimaryText("PROCESSOR", id, "REC:PROCESSOR:");
      IndexText("ORDER", r.orderId, "PROCESSOR", id, "IDX:ORDER:", ":PROCESSOR:");
      IndexText("BATCH", r.settlementBatchId, "PROCESSOR", id, "IDX:BATCH:", ":PROCESSOR:");
    }
  }

  lemma SettlementKeys(r: Record)
    ensures r.Settlement? ==>
              var id := r.settlementId;
              && ToKey(r) == "REC:SETTLEMENT:" + id
              && EntityKeys(r) == ["IDX:TXN:" + r.transactionId + ":SETTLEMENT:" + id]
                                  + if r.settlementBatchId == "" then [] else ["IDX:BATCH:" + r.settlementBatchId + ":SETTLEMENT:" + id]
  {
    hide IndexKey, PrimaryKey;
    if r.Settlement? {
      var id := r.settlementId;
      PrimaryText("SETTLEMENT", id, "REC:SETTLEMENT:");
      IndexText("TXN", r.transactionId, "SETTLEMENT", id, "IDX:TXN:", ":SETTLEMENT:");
      IndexText("BATCH", r.settlementBatchId, "SETTLEMENT", id, "IDX:BATCH:", ":SETTLEMENT:");
    }
  }

  /** The keys of a batch, bank transaction or adjustment: references are cleaned. */
  lemma SettlingRecordKeys(r: Record)
    ensures r.Batch? ==>
              && ToKey(r) == "REC:BATCH:" + r.batchId
              && EntityKeys(r) == ["IDX:REF:" + CleanRef(r.batchId) + ":BATCH:" + r.batchId]
    ensures r.Bank? ==>
              && ToKey(r) == "REC:BANK:" + r.bankTransactionId
              && EntityKeys(r) == ["IDX:REF:" + CleanRef(r.reference) + ":BANK:" + r.bankTransactionId]
    ensures r.Adjustment? ==> ToKey(r) == "REC:ADJUSTMENT:" + r.adjustmentId && EntityKeys(r) == []
  {
    hide IndexKey, PrimaryKey, CleanRef;
    match r {
      case Batch(_, _, _, id, _, _, _) =>
        PrimaryText("BATCH", id, "REC:BATCH:");
        IndexText("REF", CleanRef(id), "BATCH", id, "IDX:REF:", ":BATCH:");
      case Bank(_, _, _, id, reference, _) =>
        PrimaryText("BANK", id, "REC:BANK:");
        IndexText("REF", CleanRef(reference), "BANK", id, "IDX:REF:", ":BANK:");
      case Adjustment(_, _, _, id) => PrimaryText("ADJUSTMENT", id, "REC:ADJUSTMENT:");
      case _ =>
    }
  }

  /** The temporal key as a text; a bank transaction is named by its longer record type here. */
  lemma TemporalKeyText(r: Record)
    ensures TemporalKey(r) == "IDX:MERCHANT:" + r.merchantId + ":" + TenDigits(r.timestamp) + ":"
                              + (if r.Bank? then "BANK_TRANSACTION" else KeyKind(r)) + ":" + LastPart(ToKey(r))
  {
    hide TenDigits, LastPart, ToKey;
  }
}
