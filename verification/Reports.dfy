/** What a whole reconciliation reports: orders, orphaned processor transactions and settlement batches (recon/matcher.py:89-195, 526-653). */
module Reports {
  import opened ByteStrings
  import opened Wrappers
  import opened Texts
  import opened Schemas
  import opened Storage
  import opened BulkIndex
  import opened Spelling
  import opened Rules
  import opened Matching
  import opened Entries
  import opened Runs
  import opened RecordLevel

  datatype Report = Report(totalEvaluated: nat, matches: seq<Outcome>, exceptions: seq<Outcome>, orderMatches: seq<Outcome>, batchMatches: seq<Outcome>)

  function Matches(outcomes: seq<Outcome>): seq<Outcome> {
    if outcomes == [] then []
    else
      var rest, o := Matches(outcomes[..|outcomes| - 1]), outcomes[|outcomes| - 1];
      if o.Exception? then rest else rest + [o]
  }

  function Exceptions(outcomes: seq<Outcome>): seq<Outcome> {
    if outcomes == [] then []
    else
      var rest, o := Exceptions(outcomes[..|outcomes| - 1]), outcomes[|outcomes| - 1];
      if o.Exception? then rest + [o] else rest
  }

  /** The outcomes are divided into matches and exceptions, and none is lost or repeated. */
  lemma {:induction false} Partitioned(outcomes: seq<Outcome>)
    ensures multiset(Matches(outcomes)) + multiset(Exceptions(outcomes)) == multiset(outcomes)
    ensures forall o | o in Matches(outcomes) :: !o.Exception?
    ensures forall o | o in Exceptions(outcomes) :: o.Exception?
    ensures |Matches(outcomes)| + |Exceptions(outcomes)| == |outcomes|
  {
    if outcomes != [] {
      Partitioned(outcomes[..|outcomes| - 1]);
      assert outcomes == outcomes[..|outcomes| - 1] + [outcomes[|outcomes| - 1]];
    }
  }

  /** Both keep the order of the outcomes. */
  lemma {:induction false} PartsInOrder(a: seq<Outcome>, b: seq<Outcome>)
    ensures Matches(a + b) == Matches(a) + Matches(b) && Exceptions(a + b) == Exceptions(a) + Exceptions(b)
  {
    if b == [] {
      assert a + b == a;
    } else {
      assert (a + b)[..|a + b| - 1] == a + b[..|b| - 1];
      PartsInOrder(a, b[..|b| - 1]);
    }
  }

  lemma PartsOf(outcomes: seq<Outcome>, o: Outcome)
    ensures o in Matches(outcomes) <==> o in outcomes && !o.Exception?
    ensures o in Exceptions(outcomes) <==> o in outcomes && o.Exception?
  {
    Partitioned(outcomes);
    assert o in multiset(outcomes) <==> o in multiset(Matches(outcomes)) || o in multiset(Exceptions(outcomes));
  }

  // ---------- reading the stored records of a kind ----------

  /** The records of a kind among scanned entries. */
  function Stored(es: Items, kind: string): seq<Record> {
    if es == [] then []
    else
      var rest, v := Stored(es[..|es| - 1], kind), es[|es| - 1].1;
      if v.Json? && KeyKind(v.record) == kind then rest + [v.record] else rest
  }

  /** The records of a kind that a store holds. */
  ghost function OfKind(records: set<Record>, kind: string): set<Record> {
    set r | r in records && KeyKind(r) == kind
  }

  lemma PrimaryScan(data: Data, records: set<Record>, kind: string, e: Item) returns (r: Record)
    requires Holds(data, records) && ColonFree(kind) && e in ScanOf(data, PrimaryKey(kind, ""))
    ensures r in records && KeyKind(r) == kind && e == (ToKey(r), Json(r))
  {
    hide Clean, ToKey, AllIndexKeys, Id, KeyKind, StartsWith, Less;
    r :| r in records && (e.0 == ToKey(r) || e.0 in AllIndexKeys(r));
    if e.0 in AllIndexKeys(r) {
      IndexKeyTarget(r, e.0);
      PrefixesDiffer(e.0, kind);
    }
    KindsColonFree(r);
    KindInScan(kind, r, e.0);
  }

  lemma PrefixesDiffer(k: string, kind: string)
    requires StartsWith(k, PrimaryKey(kind, ""))
    ensures !StartsWith(k, "IDX:")
  {
    assert PrimaryKey(kind, "")[0] == 'R' && k[0] == k[..|PrimaryKey(kind, "")|][0];
    assert |k| >= 4 ==> k[..4][0] == k[0];
  }

  lemma KindInScan(kind: string, r: Record, k: string)
    requires ColonFree(kind) && ColonFree(KeyKind(r)) && k == ToKey(r) && StartsWith(k, PrimaryKey(kind, ""))
    ensures KeyKind(r) == kind
  {
    hide KeyKind, Id;
    var p := PrimaryKey(kind, "");
    assert k == p + k[|p|..] == PrimaryKey(kind, k[|p|..]);
    KindAloneInKey(kind, k[|p|..], KeyKind(r), Id(r));
  }

  lemma UnderKind(r: Record)
    ensures StartsWith(ToKey(r), PrimaryKey(KeyKind(r), ""))
  {
  }

  ghost predicate Primary(es: Items, kind: string) {
    && (forall i | 0 <= i < |es| :: es[i].1.Json? && KeyKind(es[i].1.record) == kind && es[i].0 == ToKey(es[i].1.record))
    && (forall i, j | 0 <= i < j < |es| :: es[i].0 != es[j].0)
  }

  lemma {:induction false} StoredOfPrimary(es: Items, kind: string)
    requires Primary(es, kind)
    ensures |Stored(es, kind)| == |es| && NoRepeats(Stored(es, kind))
    ensures forall i | 0 <= i < |es| :: Stored(es, kind)[i] == es[i].1.record
  {
    hide ToKey, KeyKind;
    if es != [] {
      StoredOfPrimary(es[..|es| - 1], kind);
    }
  }

  /** The scan over the primary keys of a kind yields every stored record of it once, and skips no entry. */
  lemma StoredExactly(data: Data, records: set<Record>, kind: string)
    requires Holds(data, records) && ColonFree(kind)
    ensures var es := ScanOf(data, PrimaryKey(kind, ""));
            var rs := Stored(es, kind);
            && |rs| == |es| == |OfKind(records, kind)| && NoRepeats(rs)
            && (forall r :: r in rs <==> r in OfKind(records, kind))
  {
    hide Holds, Clean, ToKey, KeyKind, StartsWith, Less, PrimaryKey, Stored;
    var es := ScanOf(data, PrimaryKey(kind, ""));
    forall i | 0 <= i < |es|
      ensures es[i].1.Json? && KeyKind(es[i].1.record) == kind && es[i].0 == ToKey(es[i].1.record) && es[i].1.record in records
    {
      var r := PrimaryScan(data, records, kind, es[i]);
    }
    ScanKeysDiffer(data, PrimaryKey(kind, ""));
    StoredOfPrimary(es, kind);
    var rs := Stored(es, kind);
    forall r
      ensures r in rs <==> r in OfKind(records, kind)
    {
      if r in OfKind(records, kind) {
        UnderKind(r);
        HeldPrimary(data, records, r);
        assert (ToKey(r), Json(r)) in es;
        var i :| 0 <= i < |es| && es[i] == (ToKey(r), Json(r));
        assert rs[i] == r;
      }
    }
    CountOnce(rs, OfKind(records, kind));
  }

  lemma HeldPrimary(data: Data, records: set<Record>, r: Record)
    requires Holds(data, records) && r in records
    ensures ToKey(r) in data && data[ToKey(r)] == Json(r)
  {
  }

  lemma ScanKeysDiffer(data: Data, p: string)
    ensures var es := ScanOf(data, p); forall i, j | 0 <= i < j < |es| :: es[i].0 != es[j].0
  {
    hide StartsWith, Less;
    var es := ScanOf(data, p);
    forall i, j | 0 <= i < j < |es|
      ensures es[i].0 != es[j].0
    {
      assert Less(ItemKey()(es[i]), ItemKey()(es[j]));
      if es[i].0 == es[j].0 { LessIrreflexive(Codes(es[i].0)); }
    }
  }

  lemma {:induction false} CountOnce(rs: seq<Record>, s: set<Record>)
    requires NoRepeats(rs) && forall r :: r in rs <==> r in s
    ensures |rs| == |s|
  {
    if rs == [] {
      assert s == {};
    } else {
      var front, last := rs[..|rs| - 1], rs[|rs| - 1];
      assert rs == front + [last];
      assert last in rs && last !in front;
      CountOnce(front, s - {last});
    }
  }

  // ---------- processor transactions without an internal payment ----------

  function OrphanException(r: Record): Outcome
    requires r.Processor?
  {
    Exception("PROCESSOR", r.processorTransactionId, [AmountFinding(MissingInternal, 0, r.gross, r.gross, [r.orderId])])
  }

  /** What the report says of a processor transaction without an internal payment. */
  ghost predicate TellsOfOrphan(o: Outcome, r: Record)
    requires r.Processor?
  {
    && o.Exception? && o.primaryType == "PROCESSOR" && o.primaryId == r.processorTransactionId && |o.findings| == 1
    && var f := o.findings[0];
       && f.kind == MissingInternal && f.expected == Cents(0) && f.actual == Cents(r.gross) && f.diff == r.gross && f.related == [r.orderId]
  }

  ghost predicate IsOrphan(v: View, consumed: set<string>, r: Record)
    requires r.Processor?
  {
    r.processorTransactionId !in consumed && OrderEntries(v, r.orderId, "PAYMENT") == []
  }

  ghost predicate AllProcessors(rs: seq<Record>) {
    forall i | 0 <= i < |rs| :: rs[i].Processor?
  }

  ghost function Orphans(v: View, consumed: set<string>, rs: seq<Record>): seq<Outcome>
    requires AllProcessors(rs)
  {
    if rs == [] then []
    else
      var rest, r := Orphans(v, consumed, rs[..|rs| - 1]), rs[|rs| - 1];
      if IsOrphan(v, consumed, r) then rest + [OrphanException(r)] else rest
  }

  /** The stored processor transactions that no match consumed and whose order has no stored payment. */
  ghost function Unclaimed(records: set<Record>, consumed: set<string>): set<Record> {
    set r | r in records && r.Processor? && r.processorTransactionId !in consumed && !HasPayment(records, r.orderId)
  }

  ghost predicate HasPayment(records: set<Record>, order: string) {
    exists p :: p in records && p.Payment? && p.orderId == order
  }

  lemma CleanProcessor(r: Record)
    requires Clean(r) && r.Processor?
    ensures ColonFree(r.orderId)
  {
  }

  lemma OrphanIsUnclaimed(data: Data, records: set<Record>, consumed: set<string>, r: Record)
    requires Holds(data, records) && r in records && r.Processor?
    ensures IsOrphan(Simple(data), consumed, r) <==> r in Unclaimed(records, consumed)
  {
    hide Holds, Clean, OrderEntries, EntryUnder;
    HeldClean(data, records, r);
    CleanProcessor(r);
    PaymentEntries(data, records, r.orderId);
    var es := OrderEntries(Simple(data), r.orderId, "PAYMENT");
    if es != [] {
      assert es[0] in es;
    }
  }

  lemma {:induction false} OrphanMembers(v: View, consumed: set<string>, rs: seq<Record>, o: Outcome)
    requires AllProcessors(rs)
    ensures o in Orphans(v, consumed, rs) <==> exists i :: 0 <= i < |rs| && IsOrphan(v, consumed, rs[i]) && o == OrphanException(rs[i])
  {
    hide IsOrphan, OrphanException;
    if rs != [] {
      var front := rs[..|rs| - 1];
      OrphanMembers(v, consumed, front, o);
      assert forall i | 0 <= i < |front| :: front[i] == rs[i];
    }
  }

  lemma {:induction false} CountOrphans(v: View, consumed: set<string>, rs: seq<Record>, s: set<Record>)
    requires AllProcessors(rs) && NoRepeats(rs)
    requires forall r :: r in s <==> r in rs && r.Processor? && IsOrphan(v, consumed, r)
    ensures |Orphans(v, consumed, rs)| == |s|
  {
    hide IsOrphan, OrphanException;
    if rs == [] {
      assert s == {};
    } else {
      var front, last := rs[..|rs| - 1], rs[|rs| - 1];
      assert rs == front + [last];
      assert last in rs && last !in front;
      CountOrphans(v, consumed, front, s - {last});
      if !IsOrphan(v, consumed, last) { assert s - {last} == s; }
    }
  }

  /** Exactly the unclaimed processor transactions are reported as missing internally, once each. */
  lemma OrphansExactly(data: Data, records: set<Record>, consumed: set<string>, rs: seq<Record>)
    requires Holds(data, records) && AllProcessors(rs) && NoRepeats(rs) && forall r :: r in rs <==> r in OfKind(records, "PROCESSOR")
    ensures var os := Orphans(Simple(data), consumed, rs);
            && |os| == |Unclaimed(records, consumed)|
            && (forall o :: o in os <==> exists r :: r in Unclaimed(records, consumed) && TellsOfOrphan(o, r))
  {
    hide Holds, IsOrphan, OrphanException, TellsOfOrphan, HasPayment, KeyKind;
    var s, os := Unclaimed(records, consumed), Orphans(Simple(data), consumed, rs);
    forall r
      ensures r in s <==> r in rs && r.Processor? && IsOrphan(Simple(data), consumed, r)
    {
      KindTells(r);
      if r in records && r.Processor? { OrphanIsUnclaimed(data, records, consumed, r); }
    }
    CountOrphans(Simple(data), consumed, rs, s);
    forall r | r in s {
      OrphanTold(r);
    }
    forall o
      ensures o in os <==> exists r :: r in s && TellsOfOrphan(o, r)
    {
      OrphanMembers(Simple(data), consumed, rs, o);
      if r :| r in s && TellsOfOrphan(o, r) {
        var i :| 0 <= i < |rs| && rs[i] == r;
      }
    }
  }

  lemma OrphanTold(r: Record)
    requires r.Processor?
    ensures forall o :: TellsOfOrphan(o, r) <==> o == OrphanException(r)
  {
  }

  // ---------- settlement batches ----------

  ghost predicate AllBatches(batches: seq<Record>) {
    forall i | 0 <= i < |batches| :: batches[i].Batch?
  }

  ghost function BatchOutcome(v: View, s: Settings, batch: Record): Outcome
    requires batch.Batch?
  {
    DecideBatch(v.data, BankEntries(v, batch.batchId), s, batch)
  }

  ghost function BatchOutcomes(v: View, s: Settings, batches: seq<Record>): (os: seq<Outcome>)
    requires AllBatches(batches)
    ensures |os| == |batches|
  {
    seq(|batches|, i requires 0 <= i < |batches| => BatchOutcome(v, s, batches[i]))
  }

  /** The stored bank transactions whose reference is the id of a batch up to case and punctuation. */
  ghost function PayoutsFor(records: set<Record>, batchId: string): set<Record> {
    set r | r in records && r.Bank? && SpelledAlike(r.reference, batchId)
  }

  lemma BankEntriesFor(data: Data, records: set<Record>, batchId: string)
    requires Holds(data, records)
    ensures EntriesFor(data, BankEntries(Simple(data), batchId), PayoutsFor(records, batchId), "REF", CleanRef(batchId), "BANK")
  {
    hide Holds, EntryUnder, ColonFree, Fetch, KeyText, EntryId, Id, EntityKeys, KeyKind, CleanRef, OwnerPrefix, IndexKey, SpelledAlike;
    var es, s, ref := BankEntries(Simple(data), batchId), PayoutsFor(records, batchId), CleanRef(batchId);
    KindsAreNames();
    forall e | e in es
      ensures exists r :: Leads(data, e, s, "REF", ref, "BANK", r)
    {
      var r := BankEntry(data, records, batchId, e);
      assert Leads(data, e, s, "REF", ref, "BANK", r);
    }
    forall r | r in s
      ensures EntryUnder("REF", ref, "BANK", r) in es
    {
      CleanedExactlyAlike(r.reference, batchId);
      OwnBankKey(r);
      RecordEntry(data, records, "REF", ref, "BANK", r);
    }
    forall q, r | q in s && r in s && EntryUnder("REF", ref, "BANK", q) == EntryUnder("REF", ref, "BANK", r)
      ensures q == r
    {
      EntryOfOne(data, records, "REF", ref, "BANK", q, r);
    }
  }

  lemma OwnBankKey(r: Record)
    requires r.Bank?
    ensures IndexKey("REF", CleanRef(r.reference), "BANK", Id(r)) in EntityKeys(r)
  {
    hide IndexKey, CleanRef;
  }

  /** Currency, net amount and time agree. */
  ghost predicate PayoutFits(s: Settings, batch: Record, bank: Record)
    requires batch.Batch? && bank.Bank?
  {
    && SameCode(batch.currency, bank.currency)
    && -s.amountTolerance <= batch.totalNet - bank.amount <= s.amountTolerance
    && -s.timeWindowSeconds <= batch.timestamp - bank.timestamp <= s.timeWindowSeconds
  }

  /** The kind of the exception that a batch gets, none if it matches; the bank transaction is the one found if there is only one. */
  ghost function BatchFailure(payouts: set<Record>, s: Settings, batch: Record, bank: Option<Record>): Option<Kind>
    requires batch.Batch? && (bank.Some? ==> bank.value.Bank?)
  {
    if !AtMostOneLeft(payouts, {}) then Some(DuplicateBankEntry)
    else if bank == None then Some(MissingBankSettlement)
    else
      var late := batch.timestamp - bank.value.timestamp;
      if !SameCode(batch.currency, bank.value.currency) then Some(CurrencyMismatch)
      else if !(-s.amountTolerance <= batch.totalNet - bank.value.amount <= s.amountTolerance) then Some(AmountMismatch)
      else if !(-s.timeWindowSeconds <= late <= s.timeWindowSeconds) then Some(LateSettlement)
      else None
  }

  /** What a finding about a batch says, by its kind. */
  ghost predicate TellsOfBatch(f: Finding, batch: Record, bank: Option<Record>)
    requires batch.Batch? && (bank.Some? ==> bank.value.Bank?)
  {
    match f.kind
    case DuplicateBankEntry => f.expected == f.actual == Cents(batch.totalNet) && f.diff == 0
    case MissingBankSettlement => f.expected == Cents(batch.totalNet) && f.actual == Cents(0) && f.diff == batch.totalNet && f.related == []
    case CurrencyMismatch =>
      && bank.Some? && f.expected == Currency(batch.currency) && f.actual == Currency(bank.value.currency) && f.diff == 0
      && f.related == [bank.value.bankTransactionId]
    case AmountMismatch =>
      && bank.Some? && f.expected == Cents(batch.totalNet) && f.actual == Cents(bank.value.amount)
      && f.diff == batch.totalNet - bank.value.amount && f.related == [bank.value.bankTransactionId]
    case LateSettlement =>
      && bank.Some? && f.expected == Instant(batch.timestamp) && f.actual == Instant(bank.value.timestamp)
      && f.diff in [batch.timestamp - bank.value.timestamp, bank.value.timestamp - batch.timestamp] && f.diff >= 0
      && f.related == [bank.value.bankTransactionId]
    case _ => false
  }

  lemma BatchDecision(data: Data, entries: Items, payouts: set<Record>, s: Settings, batch: Record, bank: Option<Record>)
    requires batch.Batch? && (bank.Some? ==> bank.value.Bank?)
    requires First(data, entries) == bank && (|entries| <= 1 <==> AtMostOneLeft(payouts, {}))
    ensures var o := DecideBatch(data, entries, s, batch);
            match BatchFailure(payouts, s, batch, bank)
            case Some(kind) =>
              && o.Exception? && o.primaryType == "BATCH" && o.primaryId == batch.batchId && |o.findings| == 1
              && o.findings[0].kind == kind && TellsOfBatch(o.findings[0], batch, bank) && AllAddUp(o.findings)
              && (kind == DuplicateBankEntry ==> o.findings[0].related == Keys(entries))
            case None => bank.Some? && o == BatchMatch(batch.batchId, bank.value.bankTransactionId, batch.totalGross, batch.totalFees, batch.totalNet)
  {
    hide SameCode, Keys, First, AtMostOneLeft;
  }

  /**
   Said about the stored records: a batch matches exactly when one bank transaction has its id as
   reference and agrees in currency, amount and time; otherwise its exception is the first check that
   fails, with the figures of the records.
   */
  lemma BatchOutcomeFromRecords(data: Data, records: set<Record>, s: Settings, batch: Record) returns (bank: Option<Record>)
    requires Holds(data, records) && batch.Batch?
    ensures IsForemost(PayoutsFor(records, batch.batchId), {}, bank) && (bank.Some? ==> bank.value.Bank?)
    ensures var o := BatchOutcome(Simple(data), s, batch);
            match BatchFailure(PayoutsFor(records, batch.batchId), s, batch, bank)
            case Some(kind) =>
              && o.Exception? && o.primaryType == "BATCH" && o.primaryId == batch.batchId && |o.findings| == 1
              && o.findings[0].kind == kind && TellsOfBatch(o.findings[0], batch, bank) && AllAddUp(o.findings)
              && (kind == DuplicateBankEntry ==> AreKeysOf(o.findings[0].related, PayoutsFor(records, batch.batchId)))
            case None => bank.Some? && o == BatchMatch(batch.batchId, bank.value.bankTransactionId, batch.totalGross, batch.totalFees, batch.totalNet)
  {
    hide Holds, EntriesFor, BankEntries, First, Available, CleanRef, AtMostOneLeft, Less, Id, DecideBatch, BatchFailure, TellsOfBatch, SpelledAlike,
         Keys, AreKeysOf, AllAddUp;
    var es, payouts := BankEntries(Simple(data), batch.batchId), PayoutsFor(records, batch.batchId);
    BankEntriesFor(data, records, batch.batchId);
    AvailableAll(es);
    bank := FirstLeft(data, es, payouts, "REF", CleanRef(batch.batchId), "BANK", {});
    BatchDecision(data, es, payouts, s, batch, bank);
    KeysOfEntries(data, es, payouts, "REF", CleanRef(batch.batchId), "BANK");
  }

  /** A batch matches exactly when just one stored bank transaction has its id as reference, up to case and punctuation, and that one fits. */
  lemma BatchMatchesFromRecords(data: Data, records: set<Record>, s: Settings, batch: Record)
    requires Holds(data, records) && batch.Batch?
    ensures var o := BatchOutcome(Simple(data), s, batch);
            && (o.BatchMatch? <==> exists r :: PayoutsFor(records, batch.batchId) == {r} && r.Bank? && PayoutFits(s, batch, r))
            && (o.BatchMatch? ==> forall r | PayoutsFor(records, batch.batchId) == {r} && r.Bank? :: o.bankId == r.bankTransactionId)
  {
    hide Holds, SameCode, BatchOutcome, Less, Id, TellsOfBatch, AllAddUp, SpelledAlike, AtMostOneLeft, ToKey, PayoutsFor;
    var payouts := PayoutsFor(records, batch.batchId);
    var bank := BatchOutcomeFromRecords(data, records, s, batch);
    forall r | payouts == {r}
      ensures bank == Some(r) && AtMostOneLeft(payouts, {})
    {
      OnlyTarget(payouts, r, bank);
    }
    if bank.Some? && AtMostOneLeft(payouts, {}) { OnlyOneLeft(payouts, bank.value); }
  }

  /** Two matched batches share their bank transaction exactly when their ids are spelled alike: matching a batch consumes nothing. */
  lemma SharedBankExactlyWhen(data: Data, records: set<Record>, s: Settings, a: Record, b: Record)
    requires Holds(data, records) && a.Batch? && b.Batch?
    requires BatchOutcome(Simple(data), s, a).BatchMatch? && BatchOutcome(Simple(data), s, b).BatchMatch?
    ensures BatchOutcome(Simple(data), s, a).bankId == BatchOutcome(Simple(data), s, b).bankId <==> SpelledAlike(a.batchId, b.batchId)
  {
    hide Holds, BatchOutcome, SpelledAlike, SameCode;
    BatchMatchesFromRecords(data, records, s, a);
    BatchMatchesFromRecords(data, records, s, b);
    var p :| PayoutsFor(records, a.batchId) == {p} && p.Bank? && PayoutFits(s, a, p);
    var q :| PayoutsFor(records, b.batchId) == {q} && q.Bank? && PayoutFits(s, b, q);
    assert p in PayoutsFor(records, a.batchId) && q in PayoutsFor(records, b.batchId);
    AlikeThrough(p.reference, a.batchId, b.batchId);
    assert SpelledAlike(p.reference, b.batchId) ==> p in PayoutsFor(records, b.batchId);
    if p.bankTransactionId == q.bankTransactionId {
      assert ToKey(p) == ToKey(q);
      HeldOnce(data, records, p, q);
    }
  }

  /** Being spelled alike goes on from text to text. */
  lemma AlikeThrough(x: string, y: string, z: string)
    requires SpelledAlike(x, y)
    ensures SpelledAlike(y, z) <==> SpelledAlike(x, z)
  {
    hide CleanRef, SpelledAlike;
    CleanedExactlyAlike(x, y);
    CleanedExactlyAlike(y, z);
    CleanedExactlyAlike(x, z);
  }

  ghost predicate BanksDiffer(outcomes: seq<Outcome>) {
    forall i, j | 0 <= i < j < |outcomes| && outcomes[i].BatchMatch? && outcomes[j].BatchMatch? :: outcomes[i].bankId != outcomes[j].bankId
  }

  /** Over a whole run no bank transaction pays two batches exactly when no two matched batches have ids spelled alike. */
  lemma NoBankTwiceExactlyWhen(data: Data, records: set<Record>, s: Settings, batches: seq<Record>)
    requires Holds(data, records) && AllBatches(batches)
    ensures var os := BatchOutcomes(Simple(data), s, batches);
            BanksDiffer(os) <==> forall i, j | 0 <= i < j < |batches| && os[i].BatchMatch? && os[j].BatchMatch? ::
                                   !SpelledAlike(batches[i].batchId, batches[j].batchId)
  {
    hide Holds, SpelledAlike, BatchOutcome;
    var os := BatchOutcomes(Simple(data), s, batches);
    forall i, j | 0 <= i < j < |batches| && os[i].BatchMatch? && os[j].BatchMatch?
      ensures os[i].bankId != os[j].bankId <==> !SpelledAlike(batches[i].batchId, batches[j].batchId)
    {
      SharedBankExactlyWhen(data, records, s, batches[i], batches[j]);
    }
  }

  // ---------- the report ----------

  ghost function ReportOf(v: View, rules: Rules, pays: seq<Record>, processors: seq<Record>, batches: seq<Record>, scannedBatches: nat): Report
    requires AllPayments(pays) && AllProcessors(processors) && AllBatches(batches) && rules.book.Valid()
  {
    var run := RunOf(v, rules, pays);
    var settled := BatchOutcomes(v, rules.settings, batches);
    Report(|pays| + scannedBatches,
           Matches(run.outcomes) + Matches(settled),
           Exceptions(run.outcomes) + Orphans(v, run.consumed, processors) + Exceptions(settled),
           Matches(run.outcomes), Matches(settled))
  }

  /** The records that a run reads back from the store. */
  ghost function StoredIn(data: Data, kind: string): seq<Record> {
    Stored(ScanOf(data, PrimaryKey(kind, "")), kind)
  }

  lemma {:induction false} StoredKinds(es: Items, kind: string)
    ensures forall r | r in Stored(es, kind) :: KeyKind(r) == kind
  {
    hide KeyKind;
    if es != [] { StoredKinds(es[..|es| - 1], kind); }
  }

  lemma StoredTypes(data: Data)
    ensures AllPayments(StoredIn(data, "PAYMENT")) && AllProcessors(StoredIn(data, "PROCESSOR")) && AllBatches(StoredIn(data, "BATCH"))
  {
    hide Stored;
    TypesOfStored(ScanOf(data, PrimaryKey("PAYMENT", "")), ScanOf(data, PrimaryKey("PROCESSOR", "")), ScanOf(data, PrimaryKey("BATCH", "")));
  }

  lemma TypesOfStored(ps: Items, xs: Items, bs: Items)
    ensures AllPayments(Stored(ps, "PAYMENT")) && AllProcessors(Stored(xs, "PROCESSOR")) && AllBatches(Stored(bs, "BATCH"))
  {
    hide KeyKind, Stored;
    StoredKinds(ps, "PAYMENT");
    StoredKinds(xs, "PROCESSOR");
    StoredKinds(bs, "BATCH");
    forall r: Record
      ensures KeyKind(r) == "PAYMENT" ==> r.Payment?
      ensures KeyKind(r) == "PROCESSOR" ==> r.Processor?
      ensures KeyKind(r) == "BATCH" ==> r.Batch?
    {
      KindTells(r);
      BatchKind(r);
    }
  }

  lemma BatchKind(r: Record)
    ensures KeyKind(r) == "BATCH" <==> r.Batch?
  {
  }

  /**
   Conservation: over a store of clean records and any list of payments every payment and every
   stored batch yields exactly one match or exception, every unclaimed processor transaction
   yields one exception more, and there are no others.
   */
  lemma Conservation(data: Data, records: set<Record>, rules: Rules, pays: seq<Record>)
    requires Holds(data, records) && rules.book.Valid() && AllPayments(pays) && AllClean(pays)
    ensures AllProcessors(StoredIn(data, "PROCESSOR")) && AllBatches(StoredIn(data, "BATCH"))
    ensures var report := ReportOf(Simple(data), rules, pays, StoredIn(data, "PROCESSOR"), StoredIn(data, "BATCH"), |ScanOf(data, PrimaryKey("BATCH", ""))|);
            var run := RunOf(Simple(data), rules, pays);
            && |report.matches| + |report.exceptions|
               == |pays| + |OfKind(records, "BATCH")| + |Unclaimed(records, Targets(run.outcomes))|
            && report.totalEvaluated == |pays| + |OfKind(records, "BATCH")|
            && |report.matches| == |report.orderMatches| + |report.batchMatches|
  {
    hide Holds, Clean, Stored, RunOf, BatchOutcomes, KeyKind, Unclaimed, PrimaryKey, Orphans, Targets;
    StoredTypes(data);
    KindsAreNames();
    StoredExactly(data, records, "PROCESSOR");
    StoredExactly(data, records, "BATCH");
    var run := RunOf(Simple(data), rules, pays);
    NoTargetTwice(data, records, rules, pays);
    Partitioned(run.outcomes);
    Partitioned(BatchOutcomes(Simple(data), rules.settings, StoredIn(data, "BATCH")));
    OrphansExactly(data, records, run.consumed, StoredIn(data, "PROCESSOR"));
  }

  /** First come the exceptions about payments, in their order, and last those about batches. */
  ghost predicate ReportedInOrder(all: seq<Outcome>, first: seq<Outcome>, last: seq<Outcome>) {
    |first| + |last| <= |all| && all[..|first|] == first && all[|all| - |last|..] == last
  }

  /** The report holds exactly the matches of payments and batches, and exactly their exceptions and those about unclaimed processor transactions. */
  lemma ReportContents(data: Data, records: set<Record>, rules: Rules, pays: seq<Record>, o: Outcome)
    requires Holds(data, records) && rules.book.Valid() && AllPayments(pays) && AllClean(pays)
    ensures AllProcessors(StoredIn(data, "PROCESSOR")) && AllBatches(StoredIn(data, "BATCH"))
    ensures var report := ReportOf(Simple(data), rules, pays, StoredIn(data, "PROCESSOR"), StoredIn(data, "BATCH"), |ScanOf(data, PrimaryKey("BATCH", ""))|);
            var run, settled := RunOf(Simple(data), rules, pays).outcomes, BatchOutcomes(Simple(data), rules.settings, StoredIn(data, "BATCH"));
            && (o in report.orderMatches <==> o in run && !o.Exception?) && (o in report.batchMatches <==> o in settled && !o.Exception?)
            && (o in report.matches <==> (o in run || o in settled) && !o.Exception?) && report.orderMatches <= report.matches
            && (o in report.exceptions <==> ((o in run || o in settled) && o.Exception?)
                                            || exists r :: r in Unclaimed(records, Targets(run)) && TellsOfOrphan(o, r))
            && ReportedInOrder(report.exceptions, Exceptions(run), Exceptions(settled))
  {
    hide Holds, Clean, Stored, RunOf, BatchOutcomes, KeyKind, Unclaimed, PrimaryKey, Orphans, Targets, TellsOfOrphan, Matches, Exceptions;
    StoredTypes(data);
    KindsAreNames();
    StoredExactly(data, records, "PROCESSOR");
    var run := RunOf(Simple(data), rules, pays);
    NoTargetTwice(data, records, rules, pays);
    PartsOf(run.outcomes, o);
    PartsOf(BatchOutcomes(Simple(data), rules.settings, StoredIn(data, "BATCH")), o);
    OrphansExactly(data, records, run.consumed, StoredIn(data, "PROCESSOR"));
  }

  /** Run over everything that is stored, the counts are those of the store. */
  lemma WholeStoreConserved(data: Data, records: set<Record>, rules: Rules)
    requires Holds(data, records) && rules.book.Valid()
    ensures AllPayments(StoredIn(data, "PAYMENT")) && AllProcessors(StoredIn(data, "PROCESSOR")) && AllBatches(StoredIn(data, "BATCH"))
    ensures var pays := StoredIn(data, "PAYMENT");
            var report := ReportOf(Simple(data), rules, pays, StoredIn(data, "PROCESSOR"), StoredIn(data, "BATCH"), |ScanOf(data, PrimaryKey("BATCH", ""))|);
            |report.matches| + |report.exceptions| == |OfKind(records, "PAYMENT")| + |OfKind(records, "BATCH")|
                                                      + |Unclaimed(records, Targets(RunOf(Simple(data), rules, pays).outcomes))|
  {
    hide Holds, Clean, Stored, RunOf, KeyKind, Unclaimed, PrimaryKey, ReportOf, Targets;
    StoredTypes(data);
    KindsAreNames();
    StoredExactly(data, records, "PAYMENT");
    var pays := StoredIn(data, "PAYMENT");
    forall i | 0 <= i < |pays|
      ensures Clean(pays[i])
    {
      assert pays[i] in pays;
      HeldClean(data, records, pays[i]);
    }
    Conservation(data, records, rules, pays);
  }

  /** The report is the same with the bulk maps as with a scan for every lookup. */
  lemma BulkReportIsSimpleReport(v: View, records: set<Record>, rules: Rules, pays: seq<Record>)
    requires Bulk(v) && Holds(v.data, records) && rules.book.Valid() && AllPayments(pays) && AllClean(pays)
    ensures AllProcessors(StoredIn(v.data, "PROCESSOR")) && AllBatches(StoredIn(v.data, "BATCH"))
    ensures forall n: nat :: ReportOf(v, rules, pays, StoredIn(v.data, "PROCESSOR"), StoredIn(v.data, "BATCH"), n)
                             == ReportOf(Simple(v.data), rules, pays, StoredIn(v.data, "PROCESSOR"), StoredIn(v.data, "BATCH"), n)
  {
    hide Bulk, Holds, Clean, Stored, RunOf, KeyKind, PrimaryKey, BatchOutcomes, Orphans, Matches, Exceptions;
    StoredTypes(v.data);
    KindsAreNames();
    BulkRunIsSimpleRun(v, records, rules, pays);
    StoredExactly(v.data, records, "PROCESSOR");
    SameOrphans(v, records, RunOf(v, rules, pays).consumed, StoredIn(v.data, "PROCESSOR"));
    SameBatchOutcomes(v, records, rules.settings, StoredIn(v.data, "BATCH"));
  }

  lemma {:induction false} SameOrphans(v: View, records: set<Record>, consumed: set<string>, rs: seq<Record>)
    requires Bulk(v) && Holds(v.data, records) && AllProcessors(rs) && forall r | r in rs :: r in records
    ensures Orphans(v, consumed, rs) == Orphans(Simple(v.data), consumed, rs)
  {
    hide Bulk, Holds, Clean, OrderEntries, OrphanException;
    if rs != [] {
      var front, last := rs[..|rs| - 1], rs[|rs| - 1];
      assert forall r | r in front :: r in rs;
      assert last in rs;
      SameOrphans(v, records, consumed, front);
      HeldClean(v.data, records, last);
      CleanProcessor(last);
      KindsAreNames();
      HeldIsRegular(v.data, records, "ORDER", last.orderId, "PAYMENT");
      OrderEntriesAgree(v, last.orderId, "PAYMENT");
    }
  }

  lemma SameBatchOutcomes(v: View, records: set<Record>, s: Settings, batches: seq<Record>)
    requires Bulk(v) && Holds(v.data, records) && AllBatches(batches)
    ensures BatchOutcomes(v, s, batches) == BatchOutcomes(Simple(v.data), s, batches)
  {
    hide Bulk, Holds, BankEntries, DecideBatch;
    forall i | 0 <= i < |batches|
      ensures BatchOutcome(v, s, batches[i]) == BatchOutcome(Simple(v.data), s, batches[i])
    {
      SameBankEntries(v, records, batches[i].batchId);
    }
  }
}
