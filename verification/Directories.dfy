/** The table files of a directory, the disks a crash can leave, and the sorted entries of a memtable (MiniVaultDB/src/db/db.cpp:182-256). */
module Directories {
  import opened ByteStrings
  import opened Wrappers
  import opened Sorting
  import opened Cells = HashTable
  import opened Crc32
  import opened Memory
  import opened Log
  import opened SortedTable
  import opened TableNames
  import opened Layers
  import opened Recovery
  import opened Accounting

  // ---------- the directory ----------

  ghost function NamesBelow(next: nat): set<string> {
    set i: nat | i < next :: Name(i)
  }

  /** The directory holds the tables numbered below next, each as the writer made it. */
  ghost predicate Directory(files: map<string, Bytes>, tables: map<string, KVs>, next: nat) {
    && files.Keys == tables.Keys == NamesBelow(next)
    && forall n | n in tables :: Sorted(tables[n]) && Fits(tables[n]) && files[n] == Build(tables[n])
  }

  ghost predicate ListsAll(ns: seq<string>, names: set<string>) {
    forall n :: n in ns <==> n in names
  }

  lemma DirectoryKeys(files: map<string, Bytes>, tables: map<string, KVs>, next: nat)
    requires Directory(files, tables, next)
    ensures files.Keys == tables.Keys == NamesBelow(next)
  {
  }

  lemma TextOrderLists(ns: seq<string>, names: set<string>)
    requires InTextOrder(ns, names)
    ensures ListsAll(ns, names)
  {
  }

  lemma LayerOfTable(files: map<string, Bytes>, tables: map<string, KVs>, next: nat, n: string)
    requires Directory(files, tables, next) && n in files
    ensures LayerOf(files[n]) == ToMap(tables[n])
  {
    hide ReadTable, Build, Fits;
    ReadTableBack(tables[n]);
  }

  lemma StackOfNone(layers: seq<Layer>)
    ensures Stack(layers[..0]) == map[] && Stack(layers[..|layers|]) == Stack(layers)
  {
    assert layers[..|layers|] == layers;
  }

  lemma StackSplit(layers: seq<Layer>, i: nat)
    requires i < |layers|
    ensures Stack(layers[..i + 1]) == Stack(layers[..i]) + layers[i]
  {
    assert layers[..i + 1] == layers[..i] + [layers[i]];
    StackAppend(layers[..i], layers[i]);
  }

  lemma LoggedForever(s: Store)
    requires Logged(s)
    ensures Forever(s.mem.cells)
  {
    ReplayTimeless(NO_CELLS, s.log, 0, 0);
  }

  /** A listed file can be opened, and means its layer. */
  lemma OpenableTable(files: map<string, Bytes>, tables: map<string, KVs>, next: nat, ns: seq<string>, i: nat)
    requires Directory(files, tables, next) && ListsAll(ns, files.Keys) && i < |ns|
    ensures ns[i] in files && ns[i] in tables
    ensures Sorted(tables[ns[i]]) && Fits(tables[ns[i]]) && files[ns[i]] == Build(tables[ns[i]])
    ensures LayersIn(files, ns)[i] == ToMap(tables[ns[i]])
  {
    hide Fits, Build, Sorted, LayerOf;
    assert ns[i] in ns;
    LayerOfTable(files, tables, next, ns[i]);
  }

  lemma NextNameIsNew(next: nat)
    ensures Name(next) !in NamesBelow(next)
    ensures NamesBelow(next + 1) == NamesBelow(next) + {Name(next)}
  {
    hide Name;
    forall i: nat | i < next
      ensures Name(i) != Name(next)
    {
      if Name(i) == Name(next) { NameInjective(i, next); }
    }
  }

  /** A new table file leaves the others in place and stacks on top. */
  lemma DirectoryGrows(files: map<string, Bytes>, tables: map<string, KVs>, next: nat, ns: seq<string>, kvs: KVs)
    requires Directory(files, tables, next) && ListsAll(ns, files.Keys) && Sorted(kvs) && Fits(kvs)
    ensures Directory(files[Name(next) := Build(kvs)], tables[Name(next) := kvs], next + 1)
    ensures ListsAll(ns + [Name(next)], files[Name(next) := Build(kvs)].Keys)
    ensures LayersIn(files[Name(next) := Build(kvs)], ns + [Name(next)]) == LayersIn(files, ns) + [ToMap(kvs)]
  {
    hide Name, Build, Sorted, LayerOf;
    NextNameIsNew(next);
    var n := Name(next);
    LayerOfTable(files[n := Build(kvs)], tables[n := kvs], next + 1, n);
    forall i | 0 <= i < |ns|
      ensures ns[i] in files && ns[i] != n
    {
      assert ns[i] in ns;
    }
  }

  /** Up to the tenth table the new name comes last in text order too. */
  lemma TextOrderGrows(ns: seq<string>, next: nat)
    requires InTextOrder(ns, NamesBelow(next)) && next < 10
    ensures InTextOrder(ns + [Name(next)], NamesBelow(next + 1))
  {
    ListingByAge(next);
    ListingIs(ns, NamesBelow(next));
    ListingByAge(next + 1);
    assert Names(next) + [Name(next)] == Names(next + 1);
  }

  // ---------- crashes ----------

  /** Whenever the store is reopened from this disk, it shows one of two contents. */
  ghost predicate Safe(d: Disk, a: Layer, b: Layer) {
    forall t :: Shown(Opened(d, t), t) == a || Shown(Opened(d, t), t) == b
  }

  ghost predicate AllSafe(h: seq<Disk>, a: Layer, b: Layer) {
    forall i | 0 <= i < |h| :: Safe(h[i], a, b)
  }

  lemma AppendSafe(s: Store, op: Op, d: Disk, ns: seq<string>, now: nat)
    requires Logged(s) && Encodable(op) && (op.Put? ==> op.stamp == 0)
    requires InTextOrder(ns, d.files.Keys) && s.layers == LayersIn(d.files, ns)
    requires Encode(s.log) <= d.wal <= Encode(s.log) + Record(op)
    ensures Safe(d, Shown(s, now), Shown(Written(s, op, now), now))
  {
    hide Logged, Encode, Record, Encodable, Opened, Stack, Live, Forever, InTextOrder, LayersIn, AfterPut, AfterDel;
    WrittenLogged(s, op, now);
    var w := Written(s, op, now);
    forall t
      ensures Shown(Opened(d, t), t) == Shown(s, now) || Shown(Opened(d, t), t) == Shown(w, now)
    {
      CrashInAppend(s, op, d, ns, now, t);
      ForeverIsTimeless(s.mem.cells, t, now);
      ForeverIsTimeless(w.mem.cells, t, now);
    }
  }

  lemma FlushSafe(w: Store, d: Disk, ns: seq<string>, now: nat, a: Layer)
    requires Logged(w) && Forever(w.mem.cells) && (d.wal == Encode(w.log) || d.wal == [])
    requires InTextOrder(ns, d.files.Keys) && LayersIn(d.files, ns) == w.layers + [Live(w.mem.cells, now)]
    ensures Safe(d, a, Shown(w, now))
  {
    hide Logged, Encode, Opened, Shown, InTextOrder, LayersIn, Live, Forever;
    forall t
      ensures Shown(Opened(d, t), t) == Shown(w, now)
    {
      if d.wal == [] {
        CrashAfterRotate(w, d, ns, now, t);
      } else {
        CrashAfterBuild(w, d, ns, now, t);
      }
    }
  }

  /** The first k disks are those of an append: each has more of the log than the one before, the last one all of it. */
  ghost predicate AppendNoted(h: seq<Disk>, k: nat, files: map<string, Bytes>, before: Bytes, after: Bytes) {
    && 0 < k <= |h| && h[k - 1].wal == after
    && (forall i | 0 <= i < k :: h[i].files == files && before < h[i].wal <= after)
    && (forall i, j | 0 <= i < j < k :: h[i].wal < h[j].wal)
  }

  /** The disks on which these contents of the log follow each other. */
  ghost function DisksFor(files: map<string, Bytes>, contents: seq<Bytes>): (h: seq<Disk>)
    ensures |h| == |contents|
  {
    seq(|contents|, i requires 0 <= i < |contents| => Disk(files, contents[i]))
  }

  lemma WritesAreNoted(files: map<string, Bytes>, f0: Bytes, t0: seq<Bytes>, f1: Bytes, t1: seq<Bytes>, more: seq<Disk>)
    requires Grew(f0, t0, f1, t1) && f0 != f1
    ensures |t0| < |t1| && AppendNoted(DisksFor(files, t1[|t0|..]) + more, |t1| - |t0|, files, f0, f1)
  {
  }

  /**
   The disks of one operation: one for each write call of its record, in order, then, if it flushed,
   one for the new table and one for the emptied log. The last one is the disk as it is now.
   */
  ghost predicate DisksNoted(h: seq<Disk>, before: Disk, appended: Bytes, now: Disk, flushed: bool) {
    if flushed then
      && |h| > 2 && AppendNoted(h, |h| - 2, before.files, before.wal, appended)
      && h[|h| - 2] == Disk(now.files, appended) && h[|h| - 1] == now && now.wal == []
    else
      AppendNoted(h, |h|, before.files, before.wal, appended) && now == Disk(before.files, appended)
  }

  lemma OperationNoted(was: seq<Disk>, all: seq<Disk>, before: Disk, t0: seq<Bytes>, appended: Bytes, t1: seq<Bytes>, now: Disk, flushed: bool)
    requires Grew(before.wal, t0, appended, t1) && before.wal != appended && |t0| <= |t1|
    requires all == was + DisksFor(before.files, t1[|t0|..]) + if flushed then [Disk(now.files, appended), now] else []
    requires if flushed then now.wal == [] else now == Disk(before.files, appended)
    ensures was <= all && DisksNoted(all[|was|..], before, appended, now, flushed)
  {
    hide Grew, DisksFor, AppendNoted;
    var more := if flushed then [Disk(now.files, appended), now] else [];
    WritesAreNoted(before.files, before.wal, t0, appended, t1, more);
    assert all[|was|..] == DisksFor(before.files, t1[|t0|..]) + more;
  }

  /** Wherever an operation is cut short, reopening shows the contents before it or after it. */
  lemma OperationSafe(s: Store, op: Op, limit: nat, now: nat, h: seq<Disk>, ns: seq<string>, before: Disk, nsAfter: seq<string>, after: Disk)
    requires Logged(s) && Encodable(op) && (op.Put? ==> op.stamp == 0)
    requires InTextOrder(ns, before.files.Keys) && s.layers == LayersIn(before.files, ns) && before.wal == Encode(s.log)
    requires DisksNoted(h, before, before.wal + Record(op), after, Written(s, op, now).mem.bytes >= limit)
    requires InTextOrder(nsAfter, after.files.Keys)
    requires Step(s, op, limit, now).layers == LayersIn(after.files, nsAfter)
    ensures AllSafe(h, Shown(s, now), Shown(Step(s, op, limit, now), now))
    ensures Logged(Step(s, op, limit, now))
  {
    hide Encode, Record, Encodable, Stack, Live, Forever, InTextOrder, LayersIn, Shown, Safe;
    var w := Written(s, op, now);
    WrittenLogged(s, op, now);
    FlushedLogged(w, limit, now);
    FlushKeepsReads(w, limit, now);
    EncodeAppend(s.log, op);
    forall i | 0 <= i < |h|
      ensures Safe(h[i], Shown(s, now), Shown(Step(s, op, limit, now), now))
    {
      if i < |h| - (if w.mem.bytes >= limit then 2 else 0) {
        AppendSafe(s, op, h[i], ns, now);
      } else {
        FlushSafe(w, h[i], nsAfter, now, Shown(s, now));
      }
    }
  }

  // ---------- sorting a memtable's entries ----------

  function PairKey(): ((Bytes, Bytes)) -> seq<int> {
    (kv: (Bytes, Bytes)) => kv.0
  }

  /** kvs lists exactly the pairs of m. */
  ghost predicate Enumerates(kvs: KVs, m: Layer) {
    && (forall i | 0 <= i < |kvs| :: kvs[i].0 in m && m[kvs[i].0] == kvs[i].1)
    && (forall i, j | 0 <= i < j < |kvs| :: kvs[i].0 != kvs[j].0)
    && (forall k | k in m :: (k, m[k]) in kvs)
  }

  lemma SortedPairs(kvs: KVs)
    requires forall i, j | 0 <= i < j < |kvs| :: kvs[i].0 != kvs[j].0
    ensures Sorted(Sort(PairKey(), kvs))
    ensures forall kv :: kv in Sort(PairKey(), kvs) <==> kv in kvs
  {
    hide Less, Sort;
    SortAscending(PairKey(), kvs);
    var r := Sort(PairKey(), kvs);
    forall i, j | 0 <= i < j < |r|
      ensures Less(r[i].0, r[j].0)
    {
      assert Less(PairKey()(r[i]), PairKey()(r[j]));
    }
    forall kv
      ensures kv in r <==> kv in kvs
    {
      SortMembers(PairKey(), kvs, kv);
    }
  }

  /** A sorted list with the pairs of a map is the table of that map. */
  lemma TableOfPairs(r: KVs, kvs: KVs, m: Layer)
    requires Sorted(r) && Enumerates(kvs, m) && forall kv :: kv in r <==> kv in kvs
    ensures Enumerates(r, m) && ToMap(r) == m
  {
    hide Less;
    forall i, j | 0 <= i < j < |r|
      ensures r[i].0 != r[j].0
    {
      LessIrreflexive(r[i].0);
      assert Less(r[i].0, r[j].0);
    }
    forall i | 0 <= i < |r|
      ensures r[i].0 in m && m[r[i].0] == r[i].1
    {
      assert r[i] in kvs;
    }
    forall k | k in m
      ensures k in ToMap(r) && ToMap(r)[k] == m[k]
    {
      assert (k, m[k]) in r;
      var i :| 0 <= i < |r| && r[i] == (k, m[k]);
      ToMapHas(r, i);
    }
    forall k | k in ToMap(r)
      ensures k in m
    {
      var i := ToMapKey(r, k);
    }
  }

  /** The sorted live entries of a memtable are the table that a flush writes. */
  lemma SortedEntries(kvs: KVs, m: MemState, now: nat)
    requires Counted(m) && CellsFit(m.cells) && m.bytes < 2 * LARGE
    requires Enumerates(kvs, Live(m.cells, now))
    ensures Sorted(Sort(PairKey(), kvs)) && Fits(Sort(PairKey(), kvs))
    ensures ToMap(Sort(PairKey(), kvs)) == Live(m.cells, now)
  {
    hide Counted, CellsFit, Less, Sort, Fits, ToMap, Expired;
    SortedPairs(kvs);
    var r := Sort(PairKey(), kvs);
    TableOfPairs(r, kvs, Live(m.cells, now));
    assert Lists(r, m.cells);
    FlushFits(m, r);
  }

  /** es lists the entries of a memtable, each once. */
  ghost predicate Entries(es: seq<(Bytes, Cell)>, cells: Mem) {
    && (forall i | 0 <= i < |es| :: es[i].0 in cells && cells[es[i].0] == es[i].1)
    && (forall i, j | 0 <= i < j < |es| :: es[i].0 != es[j].0)
    && (forall k | k in cells :: (k, cells[k]) in es)
  }

  /** The unexpired ones among them, as pairs. */
  function LivePairs(es: seq<(Bytes, Cell)>, now: nat): KVs {
    if es == [] then []
    else
      var rest, e := LivePairs(es[..|es| - 1], now), es[|es| - 1];
      if Expired(e.1, now) then rest else rest + [(e.0, e.1.value)]
  }

  lemma {:induction false} LivePairsMember(es: seq<(Bytes, Cell)>, now: nat, kv: (Bytes, Bytes))
    ensures kv in LivePairs(es, now) <==> exists e :: e in es && !Expired(e.1, now) && kv == (e.0, e.1.value)
  {
    hide Expired;
    if es != [] {
      LivePairsMember(es[..|es| - 1], now, kv);
      assert es == es[..|es| - 1] + [es[|es| - 1]];
    }
  }

  lemma {:induction false} LivePairsDiffer(es: seq<(Bytes, Cell)>, now: nat)
    requires forall i, j | 0 <= i < j < |es| :: es[i].0 != es[j].0
    ensures var kvs := LivePairs(es, now); forall i, j | 0 <= i < j < |kvs| :: kvs[i].0 != kvs[j].0
  {
    hide Expired;
    if es != [] {
      var front, last := es[..|es| - 1], es[|es| - 1];
      LivePairsDiffer(front, now);
      var rest := LivePairs(front, now);
      forall i | 0 <= i < |rest|
        ensures rest[i].0 != last.0
      {
        assert rest[i] in rest;
        LivePairsMember(front, now, rest[i]);
        var e :| e in front && rest[i] == (e.0, e.1.value);
        var l :| 0 <= l < |front| && front[l] == e;
        assert es[l].0 != last.0;
      }
    }
  }

  lemma LivePairsEnumerate(es: seq<(Bytes, Cell)>, cells: Mem, now: nat)
    requires Entries(es, cells)
    ensures Enumerates(LivePairs(es, now), Live(cells, now))
  {
    hide LivePairs, Expired;
    LivePairsDiffer(es, now);
    var kvs := LivePairs(es, now);
    forall i | 0 <= i < |kvs|
      ensures kvs[i].0 in Live(cells, now) && Live(cells, now)[kvs[i].0] == kvs[i].1
    {
      assert kvs[i] in kvs;
      LivePairsMember(es, now, kvs[i]);
    }
    forall k | k in Live(cells, now)
      ensures (k, Live(cells, now)[k]) in kvs
    {
      LivePairsMember(es, now, (k, Live(cells, now)[k]));
      assert (k, cells[k]) in es;
    }
  }

  lemma FitsSizes(kvs: KVs)
    requires Fits(kvs)
    ensures SizesFit(kvs)
  {
  }

  lemma EmptyFits()
    ensures CellsFit(NO_CELLS.cells)
  {
  }

  lemma PutFits(cells: Mem, key: Bytes, value: Bytes, expireTs: nat)
    requires CellsFit(cells) && |key| < U32_LIMIT && |value| < U32_LIMIT
    ensures CellsFit(cells[key := Cell(value, expireTs)])
  {
  }

  lemma DelFits(cells: Mem, key: Bytes)
    requires CellsFit(cells)
    ensures CellsFit(cells - {key})
  {
  }

  lemma {:induction false} OpsEncodable(data: Bytes)
    ensures AllEncodable(OpsOf(data))
    decreases |data|
  {
    hide Checksum, FieldBytes, Number;
    var p := Parse(data);
    if p.Got? { OpsEncodable(data[p.size..]); }
  }

  /** A log without torn tail or times to live is the whole memory of the store opened from it. */
  lemma OpenedLogged(d: Disk, now: nat)
    requires NoTtl(OpsOf(d.wal))
    ensures Logged(Opened(d, now))
  {
    OpsEncodable(d.wal);
    ReplayTimeless(NO_CELLS, OpsOf(d.wal), now, 0);
  }

  lemma EncodeNone()
    ensures Encode([]) == []
  {
  }

  lemma LoggedEncodable(s: Store)
    requires Logged(s)
    ensures AllEncodable(s.log)
  {
  }

  // ---------- expiry on reading ----------

  /** A read asks the active memtable, the immutable one and the tables in turn. */
  lemma VisibleInTurn(active: Mem, immutable: Mem, layers: seq<Layer>, now: nat, key: Bytes)
    ensures Lookup(Visible(active, immutable, layers, now), key)
            == if key in active && !Expired(active[key], now) then Some(active[key].value)
               else if key in immutable && !Expired(immutable[key], now) then Some(immutable[key].value)
               else Lookup(Stack(layers), key)
  {
    hide Stack;
  }

  /** What a read of a key leaves of a memtable. */
  ghost function Evicted(cells: Mem, key: Bytes, now: nat): Mem {
    if key in cells && Expired(cells[key], now) then cells - {key} else cells
  }

  lemma EvictedCounted(m: MemState, key: Bytes, now: nat)
    requires Counted(m) && CellsFit(m.cells)
    ensures Counted(MemState(Evicted(m.cells, key, now), m.bytes)) && CellsFit(Evicted(m.cells, key, now))
    ensures Forever(m.cells) ==> Evicted(m.cells, key, now) == m.cells
  {
    hide Counted;
    CountedFewer(m, Evicted(m.cells, key, now));
  }

  /** Without an immutable memtable its round of the scan adds nothing. */
  lemma NoImmutable(g: Gathered, p: Bytes, now: nat)
    ensures Gather(g, Only(Live(map[], now), p), OnlyKeys(Dead(map[], now), p)) == g
  {
  }
}
