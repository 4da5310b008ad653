/** The client that stores records with their index pointers and queries a merchant's time window (recon/storage.py). */
module Storage {
  import opened ByteStrings
  import opened Wrappers
  import opened Sorting
  import opened Texts
  import opened Spelling
  import opened Schemas

  /** A stored value: a record as JSON, or an index entry that holds a primary key. */
  datatype Value = Json(record: Record) | Pointer(key: string)

  type Data = map<string, Value>
  type Item = (string, Value)
  type Items = seq<Item>

  // ---------- prefix scans ----------

  function ItemKey(): Item -> seq<int> {
    (kv: Item) => Codes(kv.0)
  }

  /** What the store's prefix scan returns: the matching pairs in ascending key order. */
  ghost predicate IsScan(r: Items, data: Data, p: string) {
    && Ascending(ItemKey(), r)
    && forall kv :: kv in r <==> kv.0 in data && StartsWith(kv.0, p) && data[kv.0] == kv.1
  }

  lemma ScanUnique(a: Items, b: Items, data: Data, p: string)
    requires IsScan(a, data, p) && IsScan(b, data, p)
    ensures a == b
  {
    AscendingUnique(ItemKey(), a, b);
  }

  lemma {:induction false} ScanExists(data: Data, p: string)
    ensures exists r :: IsScan(r, data, p)
  {
    if data == map[] {
      assert IsScan([], data, p);
    } else {
      var k :| k in data;
      var rest := data - {k};
      ScanExists(rest, p);
      var r :| IsScan(r, rest, p);
      if StartsWith(k, p) {
        ScanGrows(r, rest, p, k, data[k]);
        assert rest[k := data[k]] == data;
      } else {
        assert IsScan(r, data, p);
      }
    }
  }

  lemma ScanGrows(r: Items, data: Data, p: string, k: string, v: Value)
    requires IsScan(r, data, p) && k !in data && StartsWith(k, p)
    ensures IsScan(Insert(ItemKey(), r, (k, v)), data[k := v], p)
  {
    hide Less, StartsWith;
    forall kv | kv in r
      ensures ItemKey()(kv) != ItemKey()((k, v))
    {
      if Codes(kv.0) == Codes(k) { CodesInjective(kv.0, k); }
    }
    InsertAscending(ItemKey(), r, (k, v));
    forall kv
      ensures kv in Insert(ItemKey(), r, (k, v)) <==> kv == (k, v) || kv in r
    {
      InsertMembers(ItemKey(), r, (k, v), kv);
    }
  }

  ghost function ScanOf(data: Data, p: string): (r: Items)
    ensures IsScan(r, data, p)
  {
    ScanExists(data, p);
    var r :| IsScan(r, data, p);
    r
  }

  // ---------- what put_record leaves ----------

  function PutAll(data: Data, keys: seq<string>, pk: string): Data {
    if keys == [] then data else PutAll(data, keys[..|keys| - 1], pk)[keys[|keys| - 1] := Pointer(pk)]
  }

  function WithRecord(data: Data, r: Record): Data {
    PutAll(data[ToKey(r) := Json(r)], AllIndexKeys(r), ToKey(r))
  }

  lemma {:induction false} PutAllLooksUp(data: Data, keys: seq<string>, pk: string, k: string)
    ensures k in PutAll(data, keys, pk) <==> k in data || k in keys
    ensures k in PutAll(data, keys, pk) ==> PutAll(data, keys, pk)[k] == if k in keys then Pointer(pk) else data[k]
  {
    if keys != [] {
      PutAllLooksUp(data, keys[..|keys| - 1], pk, k);
      assert keys == keys[..|keys| - 1] + [keys[|keys| - 1]];
    }
  }

  /** Ids without colons. */
  predicate Clean(r: Record) {
    && ColonFree(Id(r)) && ColonFree(r.merchantId)
    && (r.Payment? || r.Invoice? || r.Processor? || r.Refund? ==> ColonFree(r.orderId))
    && (r.Settlement? || r.Refund? ==> ColonFree(r.transactionId))
    && (r.Processor? || r.Settlement? ==> ColonFree(r.settlementBatchId))
  }

  /** The store holds exactly these records, each loaded once, with their index entries. */
  ghost predicate Holds(data: Data, records: set<Record>) {
    && (forall r | r in records :: Clean(r) && ToKey(r) in data && data[ToKey(r)] == Json(r))
    && (forall r, k | r in records && k in AllIndexKeys(r) :: k in data && data[k] == Pointer(ToKey(r)))
    && (forall k | k in data :: exists r :: r in records && (k == ToKey(r) || k in AllIndexKeys(r)))
    && (forall r, s | r in records && s in records && ToKey(r) == ToKey(s) :: r == s)
  }

  // ---------- keys tell records apart ----------

  function KindInKey(kind: string): string {
    if kind == "BANK_TRANSACTION" then "BANK" else kind
  }

  /** The primary key that an index key belongs to, read off its last two parts. */
  function TargetOf(key: string): string {
    var parts := Split(key);
    if |parts| < 2 then "" else PrimaryKey(KindInKey(parts[|parts| - 2]), parts[|parts| - 1])
  }

  lemma TargetOfParts(key: string, init: seq<string>, kind: string, id: string)
    requires Split(key) == init + [kind, id]
    ensures TargetOf(key) == PrimaryKey(KindInKey(kind), id)
  {
    hide Split;
  }

  lemma KindsColonFree(r: Record)
    ensures ColonFree(RecordType(r)) && ColonFree(KeyKind(r))
    ensures KindInKey(RecordType(r)) == KeyKind(r) == KindInKey(KeyKind(r))
  {
  }

  lemma SplitOfFour(m: string, ts: string, kind: string, id: string)
    requires ColonFree(m) && ColonFree(ts) && ColonFree(kind) && ColonFree(id)
    ensures Split(TemporalPrefix(m) + ts + ":" + kind + ":" + id) == ["IDX", "MERCHANT", m, ts, kind, id]
  {
    hide Split;
    var tail := kind + ":" + id;
    SplitAtColon(kind, id);
    SplitColonFree(kind);
    SplitColonFree(id);
    SplitAtColon(ts, tail);
    SplitColonFree(ts);
    SplitAtColon(m, ts + ":" + tail);
    SplitColonFree(m);
    SplitOfIndexPrefix("MERCHANT", m + ":" + (ts + ":" + tail));
    assert TemporalPrefix(m) + ts + ":" + kind + ":" + id == IndexPrefix("MERCHANT") + (m + ":" + (ts + ":" + tail));
  }

  lemma CleanParts(r: Record)
    requires Clean(r)
    ensures ColonFree(Id(r)) && ColonFree(r.merchantId)
  {
  }

  lemma SplitOfTemporal(r: Record)
    requires Clean(r)
    ensures Split(TemporalKey(r)) == ["IDX", "MERCHANT", r.merchantId, TenDigits(r.timestamp), RecordType(r), Id(r)]
    ensures LastPart(ToKey(r)) == Id(r)
  {
    hide Split, TenDigits, Padded, Pow10, Clean, RecordType, Id, TemporalPrefix, ColonFree;
    CleanParts(r);
    KindsColonFree(r);
    LastPartOf("REC:" + KeyKind(r), Id(r));
    assert ToKey(r) == ("REC:" + KeyKind(r)) + ":" + Id(r);
    PrintedReads(r.timestamp);
    SplitOfFour(r.merchantId, TenDigits(r.timestamp), RecordType(r), Id(r));
  }

  lemma SplitOfIndexKey(name: string, owner: string, kind: string, id: string)
    requires ColonFree(name) && ColonFree(kind) && ColonFree(id)
    ensures Split(IndexKey(name, owner, kind, id)) == ["IDX", name] + Split(owner) + [kind, id]
  {
    hide Split;
    SplitOfIndexPrefix(name, owner + ":" + kind + ":" + id);
    SplitAtColon(owner, kind + ":" + id);
    SplitAtColon(kind, id);
    SplitColonFree(kind);
    SplitColonFree(id);
    assert IndexKey(name, owner, kind, id) == IndexPrefix(name) + (owner + ":" + kind + ":" + id);
    assert owner + ":" + (kind + ":" + id) == owner + ":" + kind + ":" + id;
  }

  /** Every entity index key of a record ends with its kind and its id. */
  lemma EntityKeyShape(r: Record, k: string) returns (name: string, owner: string)
    requires Clean(r) && k in EntityKeys(r)
    ensures name in {"ORDER", "TXN", "REF", "BATCH"} && k == IndexKey(name, owner, KeyKind(r), Id(r)) && ColonFree(owner)
  {
    hide CleanRef, IndexKey, Pow10, ColonFree;
    match r {
      case Payment(_, _, _, _, order, _, _, _, _, _, _) => name, owner := "ORDER", order;
      case Invoice(_, _, _, _, order, _) => name, owner := "ORDER", order;
      case Processor(_, _, _, id, order, _, _, _, _, batch, _, _) =>
        if k == IndexKey("ORDER", order, "PROCESSOR", id) { name, owner := "ORDER", order; } else { name, owner := "BATCH", batch; }
      case Settlement(_, _, _, id, txn, _, _, _, batch) =>
        if k == IndexKey("TXN", txn, "SETTLEMENT", id) { name, owner := "TXN", txn; } else { name, owner := "BATCH", batch; }
      case Batch(_, _, _, id, _, _, _) => name, owner := "REF", CleanRef(id);
      case Bank(_, _, _, _, reference, _) => name, owner := "REF", CleanRef(reference);
      case Refund(_, _, _, id, txn, order, _) =>
        if k == IndexKey("ORDER", order, "REFUND", id) { name, owner := "ORDER", order; } else { name, owner := "TXN", txn; }
      case Adjustment(_, _, _, _) => assert false; name, owner := "", "";
    }
  }

  lemma IndexKeyTarget(r: Record, k: string)
    requires Clean(r) && k in AllIndexKeys(r)
    ensures TargetOf(k) == ToKey(r) && StartsWith(k, "IDX:")
  {
    hide Split, Clean, TenDigits, EntityKeys, ColonFree, Id, Pow10, RecordType, KeyKind, KindInKey, TargetOf;
    CleanParts(r);
    KindsColonFree(r);
    if k == TemporalKey(r) {
      SplitOfTemporal(r);
      TargetOfParts(k, ["IDX", "MERCHANT", r.merchantId, TenDigits(r.timestamp)], RecordType(r), Id(r));
    } else {
      var name, owner := EntityKeyShape(r, k);
      NamesColonFree(name);
      SplitOfIndexKey(name, owner, KeyKind(r), Id(r));
      TargetOfParts(k, ["IDX", name] + Split(owner), KeyKind(r), Id(r));
    }
  }

  lemma NamesColonFree(name: string)
    requires name in {"ORDER", "TXN", "REF", "BATCH"}
    ensures ColonFree(name)
  {
  }

  lemma PrimaryIsNoIndex(r: Record)
    ensures !StartsWith(ToKey(r), "IDX:")
  {
    hide Id, KeyKind;
    assert ToKey(r)[0] == 'R';
  }

  lemma WithRecordLooksUp(data: Data, r: Record, k: string)
    ensures k in WithRecord(data, r) <==> k in data || k == ToKey(r) || k in AllIndexKeys(r)
    ensures k in WithRecord(data, r) ==>
              WithRecord(data, r)[k] == if k in AllIndexKeys(r) then Pointer(ToKey(r))
                                        else if k == ToKey(r) then Json(r) else data[k]
  {
    hide ToKey, AllIndexKeys, PutAll;
    PutAllLooksUp(data[ToKey(r) := Json(r)], AllIndexKeys(r), ToKey(r), k);
  }

  /** An index key of s is no primary key, and an index key of another record only if both have the same primary key. */
  lemma IndexKeyIsOwn(r: Record, s: Record, k: string)
    requires Clean(r) && Clean(s) && k in AllIndexKeys(s)
    ensures k != ToKey(r) && (k in AllIndexKeys(r) ==> ToKey(r) == ToKey(s))
  {
    hide Clean, ToKey, AllIndexKeys, StartsWith, TargetOf;
    IndexKeyTarget(s, k);
    PrimaryIsNoIndex(r);
    if k in AllIndexKeys(r) { IndexKeyTarget(r, k); }
  }

  lemma GrownRecords(data: Data, records: set<Record>, r: Record, s: Record)
    requires Holds(data, records) && Clean(r) && s in records + {r}
    requires forall s | s in records :: ToKey(s) != ToKey(r)
    ensures Clean(s) && ToKey(s) in WithRecord(data, r) && WithRecord(data, r)[ToKey(s)] == Json(s)
    ensures forall k | k in AllIndexKeys(s) :: k in WithRecord(data, r) && WithRecord(data, r)[k] == Pointer(ToKey(s))
  {
    hide Clean, ToKey, AllIndexKeys, WithRecord;
    WithRecordLooksUp(data, r, ToKey(s));
    if ToKey(s) in AllIndexKeys(r) { IndexKeyIsOwn(s, r, ToKey(s)); }
    forall k | k in AllIndexKeys(s)
      ensures k in WithRecord(data, r) && WithRecord(data, r)[k] == Pointer(ToKey(s))
    {
      IndexKeyIsOwn(r, s, k);
      WithRecordLooksUp(data, r, k);
    }
  }

  lemma GrownKeys(data: Data, records: set<Record>, r: Record, k: string)
    requires Holds(data, records) && k in WithRecord(data, r)
    ensures exists s :: s in records + {r} && (k == ToKey(s) || k in AllIndexKeys(s))
  {
    hide Clean, ToKey, AllIndexKeys, WithRecord;
    WithRecordLooksUp(data, r, k);
    if k in AllIndexKeys(r) || k == ToKey(r) {
      assert r in records + {r};
    } else {
      var s :| s in records && (k == ToKey(s) || k in AllIndexKeys(s));
      assert s in records + {r};
    }
  }

  /** Loading one more record keeps the store in shape: its index keys never fall on another record's. */
  lemma HoldsGrows(data: Data, records: set<Record>, r: Record)
    requires Holds(data, records) && Clean(r) && forall s | s in records :: ToKey(s) != ToKey(r)
    ensures Holds(WithRecord(data, r), records + {r})
  {
    hide Clean, ToKey, AllIndexKeys, WithRecord;
    forall s | s in records + {r} {
      GrownRecords(data, records, r, s);
    }
    forall k | k in WithRecord(data, r) {
      GrownKeys(data, records, r, k);
    }
  }

  /** The store after loading records one by one. */
  function Loaded(rs: seq<Record>): Data {
    if rs == [] then map[] else WithRecord(Loaded(rs[..|rs| - 1]), rs[|rs| - 1])
  }

  lemma HoldsNothing()
    ensures Holds(map[], {})
  {
  }

  /** Loading clean records with different primary keys, in any order, gives a store that holds exactly them. */
  lemma {:induction false} LoadedHolds(rs: seq<Record>)
    requires forall i | 0 <= i < |rs| :: Clean(rs[i])
    requires forall i, j | 0 <= i < j < |rs| :: ToKey(rs[i]) != ToKey(rs[j])
    ensures Holds(Loaded(rs), set r | r in rs)
  {
    hide Clean, ToKey, AllIndexKeys, WithRecord, Holds;
    if rs == [] {
      HoldsNothing();
      assert (set r | r in rs) == {};
    } else {
      var front, last := rs[..|rs| - 1], rs[|rs| - 1];
      LoadedHolds(front);
      assert rs == front + [last];
      forall s | s in front
        ensures ToKey(s) != ToKey(last)
      {
        var i :| 0 <= i < |front| && front[i] == s;
        assert ToKey(rs[i]) != ToKey(rs[|rs| - 1]);
      }
      HoldsGrows(Loaded(front), (set r | r in front), last);
      assert (set r | r in front) + {last} == set r | r in rs;
    }
  }

  // ---------- the merchant's time window ----------

  /** One round of the query loop, on an entry of the merchant's index. */
  function Selected(data: Data, e: Item, start: int, end: int, kind: Option<string>): Option<Record> {
    var parts := Split(e.0);
    if |parts| < 6 then None
    else if !(start <= IntOf(parts[3]) <= end) then None
    else if kind.Some? && parts[4] != Upper(kind.value) then None
    else
      match e.1
      case Pointer(pk) => if pk in data && data[pk].Json? then Some(data[pk].record) else None
      case Json(_) => None
  }

  function Window(data: Data, es: Items, start: int, end: int, kind: Option<string>): seq<Record> {
    if es == [] then []
    else
      var rest := Window(data, es[..|es| - 1], start, end, kind);
      match Selected(data, es[|es| - 1], start, end, kind)
      case Some(r) => rest + [r]
      case None => rest
  }

  /** A record of the merchant in the window and, if one is given, of the kind, in any case of its letters. */
  ghost predicate InWindow(r: Record, merchant: string, start: int, end: int, kind: Option<string>) {
    r.merchantId == merchant && start <= r.timestamp <= end && (kind.Some? ==> Alike(kind.value, RecordType(r)))
  }

  lemma TemporalKeyStart(k: string, merchant: string)
    requires StartsWith(k, TemporalPrefix(merchant))
    ensures |k| > 4 && k[4] == 'M' && StartsWith(k, "IDX:")
  {
  }

  /** An entry of the merchant's index is the temporal key of one of the merchant's records. */
  lemma TemporalEntry(data: Data, records: set<Record>, merchant: string, e: Item) returns (r: Record)
    requires Holds(data, records) && ColonFree(merchant)
    requires e.0 in data && data[e.0] == e.1 && StartsWith(e.0, TemporalPrefix(merchant))
    ensures r in records && r.merchantId == merchant && e.0 == TemporalKey(r) && e.1 == Pointer(ToKey(r))
  {
    hide Clean, ToKey, EntityKeys, TemporalKey, ColonFree, StartsWith, IndexKey;
    r :| r in records && (e.0 == ToKey(r) || e.0 in AllIndexKeys(r));
    PrimaryIsNoIndex(r);
    TemporalKeyStart(e.0, merchant);
    if e.0 in EntityKeys(r) {
      var name, owner := EntityKeyShape(r, e.0);
      EntityIsNotTemporal(name, owner, KeyKind(r), Id(r));
    }
    assert e.0 == TemporalKey(r);
    assert e.0 in AllIndexKeys(r);
    MerchantOfKey(r, merchant);
  }

  lemma EntityIsNotTemporal(name: string, owner: string, kind: string, id: string)
    requires name in {"ORDER", "TXN", "REF", "BATCH"}
    ensures |IndexKey(name, owner, kind, id)| > 4 && IndexKey(name, owner, kind, id)[4] != 'M'
  {
  }

  lemma MerchantName()
    ensures ColonFree("MERCHANT")
  {
  }

  lemma MerchantOfKey(r: Record, merchant: string)
    requires Clean(r) && ColonFree(merchant) && StartsWith(TemporalKey(r), TemporalPrefix(merchant))
    ensures r.merchantId == merchant
  {
    MerchantName();
    hide Clean, TenDigits, RecordType, Id, Split, ColonFree;
    var k := TemporalKey(r);
    var rest := k[|TemporalPrefix(merchant)|..];
    SplitOfTemporal(r);
    SplitAtColon(merchant, rest);
    SplitColonFree(merchant);
    SplitOfIndexPrefix("MERCHANT", merchant + ":" + rest);
    assert k == TemporalPrefix(merchant) + rest == IndexPrefix("MERCHANT") + (merchant + ":" + rest);
    assert Split(k)[2] == merchant;
  }

  /** The query selects an entry exactly when its record is in the window, and then it yields that record. */
  lemma SelectedIsRecord(data: Data, records: set<Record>, r: Record, start: int, end: int, kind: Option<string>)
    requires Holds(data, records) && r in records
    ensures Selected(data, (TemporalKey(r), Pointer(ToKey(r))), start, end, kind)
            == if InWindow(r, r.merchantId, start, end, kind) then Some(r) else None
  {
    hide Clean, TenDigits, RecordType, Id, Split, TemporalKey, AllIndexKeys, ToKey, Padded, Pow10, IntOf, Alike, Upper;
    if kind.Some? { TypeInAnyCase(r, kind.value); }
    SplitOfTemporal(r);
    CleanParts(r);
    PrintedReads(r.timestamp);
  }

  // ---------- text order is time order ----------

  lemma {:induction false} LessEqualLength(p: seq<int>, q: seq<int>, x: seq<int>, y: seq<int>)
    requires |p| == |q| && Less(p, q)
    ensures Less(p + x, q + y)
  {
    assert (p + x)[0] == p[0] && (q + y)[0] == q[0];
    if p[0] == q[0] {
      assert (p + x)[1..] == p[1..] + x && (q + y)[1..] == q[1..] + y;
      LessEqualLength(p[1..], q[1..], x, y);
    }
  }

  lemma {:induction false} PaddedOrder(a: nat, b: nat, w: nat)
    requires a < b < Pow10(w)
    ensures Less(Codes(Padded(a, w)), Codes(Padded(b, w)))
    decreases w
  {
    var p, q := Padded(a / 10, w - 1), Padded(b / 10, w - 1);
    var x, y := [DigitOf(a % 10)], [DigitOf(b % 10)];
    assert Codes(Padded(a, w)) == Codes(p) + Codes(x) && Codes(Padded(b, w)) == Codes(q) + Codes(y);
    if a / 10 == b / 10 {
      LessCommonPrefix(Codes(p), Codes(x), Codes(y));
    } else {
      PaddedOrder(a / 10, b / 10, w - 1);
      LessEqualLength(Codes(p), Codes(q), Codes(x), Codes(y));
    }
  }

  lemma {:induction false} DecimalOfPow10(w: nat)
    ensures Decimal(Pow10(w)) == "1" + Zeros(w)
  {
    if w != 0 {
      DecimalOfPow10(w - 1);
      ZerosEnd(w - 1);
    }
  }

  lemma {:induction false} PaddedNines(w: nat)
    requires w > 0
    ensures Padded(Pow10(w) - 1, w)[0] == '9'
  {
    assert (Pow10(w) - 1) / 10 == Pow10(w - 1) - 1;
    if w > 1 { PaddedNines(w - 1); }
  }

  /** As texts the time stamps below n are in order. */
  ghost predicate TimesInTextOrder(n: nat) {
    forall i: nat, j: nat | i < j < n :: Less(Codes(TenDigits(i)), Codes(TenDigits(j)))
  }

  /** The first stamp of eleven digits comes before the last one of ten. */
  lemma ElevenDigitsBreakOrder()
    ensures Less(Codes(TenDigits(Pow10(10))), Codes(TenDigits(Pow10(10) - 1)))
  {
    hide Pow10, Padded, Decimal;
    DecimalOfPow10(10);
    PaddedNines(10);
    TenDigitsPadded(Pow10(10) - 1);
    assert TenDigits(Pow10(10)) == "1" + Zeros(10);
    assert Codes(TenDigits(Pow10(10)))[0] == '1' as int && Codes(TenDigits(Pow10(10) - 1))[0] == '9' as int;
  }

  lemma TenDigitLimit()
    ensures Pow10(10) == 10_000_000_000
  {
    assert Pow10(5) == 100_000;
  }

  /** Text order is time order for all stamps below n exactly up to ten billion. */
  lemma TextOrderIsTimeOrder(n: nat)
    ensures TimesInTextOrder(n) <==> n <= 10_000_000_000
  {
    hide Pow10, Padded, TenDigits, Less;
    TenDigitLimit();
    if n <= Pow10(10) {
      forall i: nat, j: nat | i < j < n
        ensures Less(Codes(TenDigits(i)), Codes(TenDigits(j)))
      {
        TenDigitsPadded(i);
        TenDigitsPadded(j);
        PaddedOrder(i, j, 10);
      }
    } else {
      var i, j := Pow10(10) - 1, Pow10(10);
      ElevenDigitsBreakOrder();
      LessAsymmetric(Codes(TenDigits(j)), Codes(TenDigits(i)));
      assert i < j < n && !Less(Codes(TenDigits(i)), Codes(TenDigits(j)));
    }
  }

  /** The time stamp is one of those that text order puts in order. */
  predicate InTextTime(r: Record) {
    0 <= r.timestamp < 10_000_000_000
  }

  /** Of two records of a merchant the earlier one has the smaller key. */
  lemma TimeIsTextOrder(r: Record, s: Record)
    requires InTextTime(r) && InTextTime(s) && r.merchantId == s.merchantId && r.timestamp < s.timestamp
    ensures Less(Codes(TemporalKey(r)), Codes(TemporalKey(s)))
  {
    hide Clean, TenDigits, RecordType, Padded, Less, LastPart, Pow10;
    TenDigitLimit();
    TenDigitsPadded(r.timestamp);
    TenDigitsPadded(s.timestamp);
    PaddedOrder(r.timestamp, s.timestamp, 10);
    MiddleOrder(TemporalPrefix(r.merchantId), TenDigits(r.timestamp), TenDigits(s.timestamp),
                ":" + RecordType(r) + ":" + LastPart(ToKey(r)), ":" + RecordType(s) + ":" + LastPart(ToKey(s)));
    TemporalKeyMiddle(r);
    TemporalKeyMiddle(s);
  }

  lemma TemporalKeyMiddle(r: Record)
    ensures TemporalKey(r) == TemporalPrefix(r.merchantId) + (TenDigits(r.timestamp) + (":" + RecordType(r) + ":" + LastPart(ToKey(r))))
  {
    hide RecordType, ToKey, LastPart, TenDigits, TemporalPrefix;
  }

  /** Between a common head and anything after it, the middle decides. */
  lemma MiddleOrder(head: string, p: string, q: string, x: string, y: string)
    requires |p| == |q| && Less(Codes(p), Codes(q))
    ensures Less(Codes(head + (p + x)), Codes(head + (q + y)))
  {
    hide Less;
    LessEqualLength(Codes(p), Codes(q), Codes(x), Codes(y));
    CodesConcat(p, x);
    CodesConcat(q, y);
    LessCommonPrefix(Codes(head), Codes(p + x), Codes(q + y));
    CodesConcat(head, p + x);
    CodesConcat(head, q + y);
  }

  /** Entries of one merchant's index. */
  ghost predicate OfMerchant(es: Items, data: Data, merchant: string) {
    forall e | e in es :: e.0 in data && data[e.0] == e.1 && StartsWith(e.0, TemporalPrefix(merchant))
  }

  function EntryOf(r: Record): Item {
    (TemporalKey(r), Pointer(ToKey(r)))
  }

  lemma EarlierEntry(r: Record, s: Record)
    requires r.merchantId == s.merchantId
    requires Less(Codes(TemporalKey(r)), Codes(TemporalKey(s)))
    ensures r != s && (InTextTime(r) && InTextTime(s) ==> r.timestamp <= s.timestamp)
  {
    hide Clean, TemporalKey, Less;
    LessAsymmetric(Codes(TemporalKey(r)), Codes(TemporalKey(s)));
    if s.timestamp < r.timestamp && InTextTime(r) && InTextTime(s) { TimeIsTextOrder(s, r); }
  }

  lemma EntryComesBefore(es: Items, s: Record, r: Record)
    requires s.merchantId == r.merchantId
    requires es != [] && Ascending(ItemKey(), es) && EntryOf(r) == es[|es| - 1] && EntryOf(s) in es[..|es| - 1]
    ensures s != r && (InTextTime(r) && InTextTime(s) ==> s.timestamp <= r.timestamp)
  {
    hide TemporalKey, ToKey, Less;
    var i :| 0 <= i < |es| - 1 && es[i] == EntryOf(s);
    assert Less(ItemKey()(es[i]), ItemKey()(es[|es| - 1]));
    EarlierEntry(s, r);
  }

  lemma {:induction false} WindowOfEntries(data: Data, records: set<Record>, merchant: string, es: Items,
                                           start: int, end: int, kind: Option<string>)
    requires Holds(data, records) && ColonFree(merchant)
    requires OfMerchant(es, data, merchant) && Ascending(ItemKey(), es)
    ensures var rs := Window(data, es, start, end, kind);
            && (forall r :: r in rs <==> r in records && InWindow(r, merchant, start, end, kind) && EntryOf(r) in es)
            && (forall i, j | 0 <= i < j < |rs| :: rs[i] != rs[j])
            && ((forall r | r in rs :: InTextTime(r)) ==> forall i, j | 0 <= i < j < |rs| :: rs[i].timestamp <= rs[j].timestamp)
  {
    hide Holds, TemporalKey, ToKey, Less, Selected, ColonFree, StartsWith, Alike, RecordType, Clean;
    if es != [] {
      var front, e := es[..|es| - 1], es[|es| - 1];
      assert es == front + [e];
      WindowOfEntries(data, records, merchant, front, start, end, kind);
      var r := TemporalEntry(data, records, merchant, e);
      assert e == EntryOf(r);
      SelectedIsRecord(data, records, r, start, end, kind);
      forall s | s in records && EntryOf(s) == e
        ensures s == r
      {
        HeldOnce(data, records, r, s);
      }
      forall s | s in Window(data, front, start, end, kind)
        ensures s != r && (InTextTime(r) && InTextTime(s) ==> s.timestamp <= r.timestamp)
      {
        EntryComesBefore(es, s, r);
      }
    }
  }

  lemma HeldClean(data: Data, records: set<Record>, r: Record)
    requires Holds(data, records) && r in records
    ensures Clean(r)
  {
  }

  lemma HeldOnce(data: Data, records: set<Record>, r: Record, s: Record)
    requires Holds(data, records) && r in records && s in records && ToKey(r) == ToKey(s)
    ensures r == s
  {
  }

  /** The window query finds exactly the merchant's records in the window, once each, and in order of time if their stamps have up to ten digits and no sign. */
  lemma WindowExact(data: Data, records: set<Record>, merchant: string, start: int, end: int, kind: Option<string>)
    requires Holds(data, records) && ColonFree(merchant)
    ensures var rs := Window(data, ScanOf(data, TemporalPrefix(merchant)), start, end, kind);
            && (forall r :: r in rs <==> r in records && InWindow(r, merchant, start, end, kind))
            && (forall i, j | 0 <= i < j < |rs| :: rs[i] != rs[j])
            && ((forall r | r in rs :: InTextTime(r)) ==> forall i, j | 0 <= i < j < |rs| :: rs[i].timestamp <= rs[j].timestamp)
  {
    hide Holds, TemporalKey, TemporalPrefix, ToKey, Less, Window, ColonFree, StartsWith, Alike, RecordType;
    var es := ScanOf(data, TemporalPrefix(merchant));
    WindowOfEntries(data, records, merchant, es, start, end, kind);
    forall r | r in records && r.merchantId == merchant
      ensures EntryOf(r) in es
    {
      TemporalHeld(data, records, r);
      StartsWithPrefix(r);
    }
  }

  lemma TemporalHeld(data: Data, records: set<Record>, r: Record)
    requires Holds(data, records) && r in records
    ensures TemporalKey(r) in data && data[TemporalKey(r)] == Pointer(ToKey(r))
  {
    hide Clean, ToKey, TemporalKey, EntityKeys;
    assert TemporalKey(r) in AllIndexKeys(r);
  }

  lemma StartsWithPrefix(r: Record)
    ensures StartsWith(TemporalKey(r), TemporalPrefix(r.merchantId))
  {
    hide RecordType, ToKey, LastPart, TenDigits, TemporalPrefix;
    TemporalKeyMiddle(r);
  }

  // ---------- looking a record up by its type ----------

  lemma KindAloneInKey(kind: string, id: string, kind2: string, id2: string)
    requires ColonFree(kind) && ColonFree(kind2) && PrimaryKey(kind, id) == PrimaryKey(kind2, id2)
    ensures kind == kind2
  {
    hide Split;
    SplitColonFree("REC");
    SplitColonFree(kind);
    SplitColonFree(kind2);
    SplitAtColon(kind, id);
    SplitAtColon(kind2, id2);
    SplitAtColon("REC", kind + ":" + id);
    SplitAtColon("REC", kind2 + ":" + id2);
    assert PrimaryKey(kind, id) == "REC" + ":" + (kind + ":" + id) && PrimaryKey(kind2, id2) == "REC" + ":" + (kind2 + ":" + id2);
    assert Split(PrimaryKey(kind, id))[1] == kind && Split(PrimaryKey(kind2, id2))[1] == kind2;
  }

  lemma {:induction false} UpperOfUpper(s: string)
    requires forall i | 0 <= i < |s| :: !('a' <= s[i] <= 'z')
    ensures Upper(s) == s
  {
    if s != [] {
      UpperOfUpper(s[1..]);
      assert s == [s[0]] + s[1..];
    }
  }

  lemma TypesAreUpper(r: Record)
    ensures Upper(RecordType(r)) == RecordType(r) && Upper(KeyKind(r)) == KeyKind(r)
  {
    hide Upper;
    UpperOfUpper(RecordType(r));
    if r.Bank? { UpperOfUpper("BANK"); }
  }

  lemma TypeInAnyCase(r: Record, kind: string)
    ensures RecordType(r) == Upper(kind) <==> Alike(kind, RecordType(r))
    ensures KeyKind(r) == Upper(kind) <==> Alike(kind, KeyKind(r))
  {
    hide Upper, RecordType, KeyKind, Alike;
    TypesAreUpper(r);
    UpperMakesEqual(kind, RecordType(r));
    UpperMakesEqual(kind, KeyKind(r));
  }

  /** A primary key with plain parts tells its kind and id. */
  lemma PrimaryKeyParts(kind: string, id: string, kind2: string, id2: string)
    requires ColonFree(kind2) && ColonFree(id2) && PrimaryKey(kind, id) == PrimaryKey(kind2, id2)
    ensures kind == kind2 && id == id2
  {
    hide Split, Join;
    SplitColonFree("REC");
    SplitColonFree(kind2);
    SplitColonFree(id2);
    SplitAtColon(kind, id);
    SplitAtColon(kind2, id2);
    SplitAtColon("REC", kind + ":" + id);
    SplitAtColon("REC", kind2 + ":" + id2);
    assert PrimaryKey(kind, id) == "REC" + ":" + (kind + ":" + id) && PrimaryKey(kind2, id2) == "REC" + ":" + (kind2 + ":" + id2);
    var parts := Split(kind) + Split(id);
    assert ["REC"] + parts == ["REC"] + [kind2, id2];
    assert parts == (["REC"] + parts)[1..] == [kind2, id2];
    assert Split(kind) == [parts[0]] && Split(id) == [parts[1]];
    JoinOfSplit(kind);
    JoinOfSplit(id);
    JoinOne(kind2);
    JoinOne(id2);
  }

  lemma JoinOne(s: string)
    ensures Join([s]) == s
  {
  }

  function Found(data: Data, kind: string, id: string): Option<Record> {
    var k := PrimaryKey(Upper(kind), id);
    if k in data && data[k].Json? then Some(data[k].record) else None
  }

  /** get_record finds exactly the stored record whose key has that id and that kind, in any case of its letters. */
  lemma FoundExactly(data: Data, records: set<Record>, kind: string, id: string, r: Record)
    requires Holds(data, records)
    ensures Found(data, kind, id) == Some(r) <==> r in records && Alike(kind, KeyKind(r)) && Id(r) == id
  {
    hide Clean, AllIndexKeys, PrimaryKey, Id, Upper, KeyKind, RecordType, Alike, ColonFree;
    var k := PrimaryKey(Upper(kind), id);
    TypeInAnyCase(r, kind);
    if Found(data, kind, id) == Some(r) {
      var s :| s in records && (k == ToKey(s) || k in AllIndexKeys(s));
      assert k == ToKey(s) && r == s;
      HeldClean(data, records, r);
      CleanParts(r);
      KindsColonFree(r);
      PrimaryKeyParts(Upper(kind), id, KeyKind(r), Id(r));
    }
  }

  /** So a stored record is found under its record type, except a bank transaction, which is keyed under another name. */
  lemma FoundByType(data: Data, records: set<Record>, r: Record)
    requires Holds(data, records) && r in records
    ensures Found(data, RecordType(r), Id(r)) == Some(r) <==> !r.Bank?
  {
    hide Alike, Holds, RecordType, Id, KeyKind;
    FoundExactly(data, records, RecordType(r), Id(r), r);
    TypeInAnyCase(r, RecordType(r));
    TypesAreUpper(r);
    NamedByType(r);
  }

  lemma NamedByType(r: Record)
    ensures RecordType(r) == KeyKind(r) <==> !r.Bank?
  {
  }

  // ---------- the client ----------

  class Client {
    var data: Data

    constructor ()
      ensures data == map[]
    {
      data := map[];
    }

    method Put(key: string, value: Value)
      modifies this
      ensures data == old(data)[key := value]
    {
      data := data[key := value];
    }

    method Get(key: string) returns (r: Option<Value>)
      ensures r == if key in data then Some(data[key]) else None
    {
      r := if key in data then Some(data[key]) else None;
    }

    method ScanPrefix(prefix: string) returns (r: Items)
      ensures r == ScanOf(data, prefix)
    {
      hide Less, StartsWith;
      r := [];
      var rest := data.Keys;
      assert data - rest == map[];
      while rest != {}
        invariant rest <= data.Keys && IsScan(r, data - rest, prefix)
      {
        var k :| k in rest;
        assert data - (rest - {k}) == (data - rest)[k := data[k]];
        if StartsWith(k, prefix) {
          ScanGrows(r, data - rest, prefix, k, data[k]);
          r := Insert(ItemKey(), r, (k, data[k]));
        }
        rest := rest - {k};
      }
      assert data - rest == data;
      ScanUnique(r, ScanOf(data, prefix), data, prefix);
    }

    /** Writes the record under its primary key, then a pointer under each of its index keys. */
    method PutRecord(record: Record)
      modifies this
      ensures data == WithRecord(old(data), record)
    {
      hide ToKey, AllIndexKeys;
      var pk := ToKey(record);
      Put(pk, Json(record));
      ghost var first := data;
      var keys := AllIndexKeys(record);
      var i := 0;
      while i < |keys|
        invariant 0 <= i <= |keys| && data == PutAll(first, keys[..i], pk)
      {
        Put(keys[i], Pointer(pk));
        assert keys[..i + 1][..i] == keys[..i];
        i := i + 1;
      }
      assert keys[..i] == keys;
    }

    method GetRecord(kind: string, id: string) returns (r: Option<Record>)
      ensures r == Found(data, kind, id)
    {
      var v := Get(PrimaryKey(Upper(kind), id));
      match v {
        case Some(Json(record)) => r := Some(record);
        case _ => r := None;
      }
    }

    /** The window query, in the order of the merchant's index. */
    method ScanMerchantWindow(merchant: string, start: int, end: int, kind: Option<string>) returns (records: seq<Record>)
      ensures records == Window(data, ScanOf(data, TemporalPrefix(merchant)), start, end, kind)
    {
      hide Split, IntOf, Upper;
      var entries := ScanPrefix(TemporalPrefix(merchant));
      records := [];
      var i := 0;
      while i < |entries|
        invariant 0 <= i <= |entries| && records == Window(data, entries[..i], start, end, kind)
      {
        var key, value := entries[i].0, entries[i].1;
        assert entries[..i + 1][..i] == entries[..i];
        var parts := Split(key);
        if |parts| >= 6 {
          var ts, recType := IntOf(parts[3]), parts[4];
          if start <= ts <= end && (kind.None? || recType == Upper(kind.value)) && value.Pointer? {
            var raw := Get(value.key);
            if raw.Some? && raw.value.Json? {
              records := records + [raw.value.record];
            }
          }
        }
        i := i + 1;
      }
      assert entries[..i] == entries;
    }
  }
}
