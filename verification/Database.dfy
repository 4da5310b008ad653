/** The store itself: log first, memtable over tables, flush, rotation and recovery (MiniVaultDB/src/db/db.cpp). */
module Database {
  import opened ByteStrings
  import opened Wrappers
  import opened Sorting
  import opened Cells = HashTable
  import opened Memory
  import opened Log
  import opened SortedTable
  import opened TableNames
  import opened Layers
  import opened Recovery
  import opened Accounting
  import opened Directories
  import opened Scanning

  class DB {
    const memLimit: nat
    const hash: Bytes -> nat
    const wal: Wal
    var active: MemTable
    var immutable: MemTable?
    var sstFiles: seq<string>       // oldest first, except after a reopening with more than ten tables
    var nextSstId: nat
    var files: map<string, Bytes>   // the table files of the directory

    ghost var tables: map<string, KVs>
    ghost var log: seq<Op>          // what was logged since the last rotation
    ghost var history: seq<Disk>    // every disk since opening, one for each write call

    ghost predicate ImmutableValid()
      reads this, immutable, if immutable != null then {immutable.table, immutable.table.entries} else {}
    {
      immutable != null ==> immutable.Valid()
    }

    ghost predicate Apart()
      reads this, active, active.table, immutable, if immutable != null then {immutable.table} else {}
    {
      immutable != null ==>
        active != immutable && active.table != immutable.table && active.table.entries != immutable.table.entries
    }

    ghost predicate Sized(m: MemState) {
      Counted(m) && CellsFit(m.cells) && m.bytes < 2 * LARGE
    }

    /** What holds even in the middle of an operation. */
    ghost predicate Shape()
      reads this, active, active.table, active.table.entries
      reads immutable, if immutable != null then {immutable.table, immutable.table.entries} else {}
    {
      && active.Valid() && ImmutableValid() && Apart()
      && Directory(files, tables, nextSstId) && ListsAll(sstFiles, files.Keys)
      && Sized(active.State()) && (immutable != null ==> Sized(immutable.State()))
      && memLimit <= LARGE
    }

    ghost predicate Valid()
      reads this, active, active.table, active.table.entries
      reads immutable, if immutable != null then {immutable.table, immutable.table.entries} else {}
    {
      Shape() && active.bytes <= LARGE
    }

    ghost function ImmutableCells(): Mem
      requires ImmutableValid()
      reads this, immutable, if immutable != null then {immutable.table, immutable.table.entries} else {}
    {
      if immutable == null then map[] else immutable.State().cells
    }

    ghost function State(): Store
      requires Shape()
      reads this, active, active.table, active.table.entries
      reads immutable, if immutable != null then {immutable.table, immutable.table.entries} else {}
    {
      Store(active.State(), LayersIn(files, sstFiles), log)
    }

    /** The state that recovery relies on: the memtable is the log replayed, and a reopening lists the tables as they are listed now. */
    ghost predicate Durable()
      reads this, wal, active, active.table, active.table.entries
      reads immutable, if immutable != null then {immutable.table, immutable.table.entries} else {}
    {
      && Valid() && immutable == null && Logged(State())
      && wal.file == Encode(log) && InTextOrder(sstFiles, files.Keys)
    }

    /** Opens what a crash or a shutdown left: the tables of the directory, then the log replayed into an empty memtable. */
    constructor (files: map<string, Bytes>, content: Bytes, memLimit: nat, hash: Bytes -> nat, now: nat,
                 ghost tables: map<string, KVs>, ghost next: nat)
      requires Directory(files, tables, next)
      requires memLimit <= LARGE && |content| <= LARGE
      ensures Valid() && immutable == null && nextSstId == next && history == []
      ensures fresh(wal) && fresh(active) && fresh(active.table) && fresh(active.table.entries)
      ensures this.files == files && wal.file == content && this.memLimit == memLimit
      ensures State() == Opened(Disk(files, content), now)
      ensures InTextOrder(sstFiles, files.Keys)
      // a log that ends with a whole record and has no times to live can be relied on again
      ensures NoTtl(OpsOf(content)) && AllEncodable(OpsOf(content)) && content == Encode(OpsOf(content)) ==> Durable()
    {
      hide NoTtl, Encode, Logged, Directory, NamesBelow, InTextOrder, ListsAll, Counted, CellsFit, HashTable.WellFormed, HashTable.Balanced, ApplyAll, OpsOf;
      DirectoryKeys(files, tables, next);
      OpsEncodable(content);
      if NoTtl(OpsOf(content)) { OpenedLogged(Disk(files, content), now); }
      this.memLimit := memLimit;
      this.hash := hash;
      wal := new Wal(content);
      active := new MemTable(hash);
      immutable := null;
      sstFiles, nextSstId := [], 0;
      this.files, this.tables, log, history := files, tables, OpsOf(content), [];
      new;
      LoadSstables(next);
      ReplayWal(now);
      ListingIs(sstFiles, files.Keys);
      TextOrderLists(sstFiles, files.Keys);
    }

    /** Collects the table files in whatever order the directory yields them, then sorts their names as text. */
    method LoadSstables(ghost next: nat)
      requires files.Keys == NamesBelow(next) && sstFiles == [] && nextSstId == 0
      modifies this`sstFiles, this`nextSstId
      ensures InTextOrder(sstFiles, files.Keys) && nextSstId == next
    {
      hide Name, IdOf;
      var rest := files.Keys;
      while rest != {}
        invariant rest <= files.Keys
        invariant forall n :: n in sstFiles <==> n in files.Keys - rest
        invariant forall i, j | 0 <= i < j < |sstFiles| :: sstFiles[i] != sstFiles[j]
        invariant nextSstId <= next && forall i: nat | i < next && Name(i) !in rest :: i < nextSstId
      {
        var n :| n in rest;
        ghost var i: nat :| i < next && Name(i) == n;
        IdOfName(i);
        assert n !in sstFiles;
        rest := rest - {n};
        sstFiles := sstFiles + [n];
        match IdOf(n) {
          case Some(id) => nextSstId := if nextSstId < id + 1 then id + 1 else nextSstId;
          case None =>
        }
        forall j: nat | j < next && Name(j) !in rest
          ensures j < nextSstId
        {
          if Name(j) == n { NameInjective(i, j); }
        }
      }
      SortedNames(sstFiles);
      sstFiles := Sort(TextKey(), sstFiles);
      if next > 0 { assert Name(next - 1) !in rest; }
    }

    method ReplayWal(now: nat)
      requires active.Valid() && active.State() == NO_CELLS
      requires |wal.file| <= LARGE
      modifies wal, active, active.table, active.table.entries
      ensures active.Valid() && wal.file == old(wal.file)
      ensures active.State() == ApplyAll(NO_CELLS, OpsOf(wal.file), now)
      ensures Sized(active.State()) && active.bytes <= LARGE
      ensures active.table.entries == old(active.table.entries) || fresh(active.table.entries)
    {
      CountedEmpty();
      CountedReplay(NO_CELLS, wal.file, now);
      hide Counted, HashTable.WellFormed, HashTable.Balanced, ApplyAll, OpsOf;
      wal.Replay(active, now);
    }

    // ---------- reading ----------

    /** The tables from the newest to the oldest; the first one with the key answers. */
    method GetFromTables(key: Bytes) returns (r: Option<Bytes>)
      requires Directory(files, tables, nextSstId) && ListsAll(sstFiles, files.Keys)
      ensures r == Lookup(Stack(LayersIn(files, sstFiles)), key)
    {
      hide Directory, Less, LayerOf, Stack, ToMap, Build, Fits;
      ghost var layers := LayersIn(files, sstFiles);
      var i := |sstFiles|;
      StackOfNone(layers);
      while i > 0
        invariant 0 <= i <= |sstFiles|
        invariant Lookup(Stack(layers), key) == Lookup(Stack(layers[..i]), key)
      {
        i := i - 1;
        OpenableTable(files, tables, nextSstId, sstFiles, i);
        var sst := new SSTable(files[sstFiles[i]], tables[sstFiles[i]]);
        r := sst.Get(key);
        StackSplit(layers, i);
        if r.Some? {
          return;
        }
      }
      r := None;
    }

    /** The active memtable's answer; an expired entry goes. */
    method GetActive(key: Bytes, now: nat) returns (r: Option<Bytes>)
      requires Valid()
      modifies active, active.table, active.table.entries
      ensures Valid() && active.table.entries == old(active.table.entries)
      ensures var was := old(active.State().cells);
              r == if key in was && !Expired(was[key], now) then Some(was[key].value) else None
      ensures State() == old(State()).(mem := old(State()).mem.(cells := old(Evicted(active.State().cells, key, now))))
      ensures old(Durable()) ==> Durable() && State() == old(State())
    {
      hide Directory, HashTable.WellFormed, HashTable.Balanced, Counted, CellsFit, Stack, Logged, Encode, InTextOrder, Forever;
      if Durable() { LoggedForever(State()); }
      EvictedCounted(active.State(), key, now);
      r := active.Get(key, now);
    }

    method GetImmutable(key: Bytes, now: nat) returns (r: Option<Bytes>)
      requires Valid() && immutable != null
      modifies immutable, immutable.table, immutable.table.entries
      ensures Valid() && State() == old(State()) && immutable.table.entries == old(immutable.table.entries)
      ensures var was := old(ImmutableCells());
              r == if key in was && !Expired(was[key], now) then Some(was[key].value) else None
    {
      hide Directory, ListsAll, HashTable.WellFormed, HashTable.Balanced, Counted, CellsFit;
      EvictedCounted(immutable.State(), key, now);
      r := immutable.Get(key, now);
    }

    /** Get answers with what the layers show. */
    method Get(key: Bytes, now: nat) returns (r: Option<Bytes>)
      requires Valid()
      modifies active, active.table, active.table.entries
      modifies immutable, if immutable != null then {immutable.table, immutable.table.entries} else {}
      ensures Valid()
      ensures immutable == old(immutable) && active == old(active) && active.table.entries == old(active.table.entries)
      ensures immutable != null ==> immutable.table.entries == old(immutable.table.entries)
      ensures r == Lookup(old(Visible(active.State().cells, ImmutableCells(), State().layers, now)), key)
      // only an expired entry of the key can go
      ensures State() == old(State()).(mem := old(State()).mem.(cells := old(Evicted(active.State().cells, key, now))))
      ensures old(Durable()) ==> Durable() && State() == old(State())
    {
      hide Directory, HashTable.WellFormed, HashTable.Balanced, Counted, CellsFit, Stack, Live, Logged, Encode, InTextOrder, Visible, Evicted;
      VisibleInTurn(active.State().cells, ImmutableCells(), State().layers, now, key);
      r := GetActive(key, now);
      if r.Some? {
        return;
      }
      if immutable != null {
        r := GetImmutable(key, now);
        if r.Some? {
          return;
        }
      }
      r := GetFromTables(key);
    }

    /** The tables' share of a scan, newest first. */
    method GatherFromTables(prefix: Bytes, g: Gathered) returns (r: Gathered)
      requires Directory(files, tables, nextSstId) && ListsAll(sstFiles, files.Keys)
      ensures r == GatherTables(g, OnlyAll(LayersIn(files, sstFiles), prefix))
    {
      hide Directory, Less, LayerOf, ToMap, Build, Fits, Gather, GatherTables, Only, HasPrefix, Prefixed;
      ghost var layers := OnlyAll(LayersIn(files, sstFiles), prefix);
      r := g;
      var i := |sstFiles|;
      assert layers[..i] == layers;
      while i > 0
        invariant 0 <= i <= |sstFiles|
        invariant GatherTables(g, layers) == GatherTables(r, layers[..i])
      {
        i := i - 1;
        OpenableTable(files, tables, nextSstId, sstFiles, i);
        ghost var kvs := tables[sstFiles[i]];
        var sst := new SSTable(files[sstFiles[i]], kvs);
        var found := sst.ScanPrefix(prefix, []);
        assert found == Prefixed(kvs, prefix);
        PrefixedDistinct(kvs, prefix);
        PrefixedMap(kvs, prefix);
        GatherNewest(r, layers, i);
        r := GatherTable(found, r);
      }
      GatherNone(r);
    }

    /** The scan returns, in ascending key order, exactly the pairs with the prefix that its layers show. */
    method ScanPrefix(prefix: Bytes, now: nat) returns (results: KVs)
      requires Valid()
      ensures Sorted(results)
      ensures Enumerates(results, Only(Scanned(active.State().cells, ImmutableCells(), State().layers, now), prefix))
    {
      hide Directory, HashTable.WellFormed, HashTable.Balanced, Counted, CellsFit, Stack, Live, Dead, Only, OnlyKeys, Gather, GatherTables, LayersIn, Scanned;
      var g := GatherMem(active, prefix, now, NOTHING);
      if immutable != null {
        g := GatherMem(immutable, prefix, now, g);
      } else {
        NoImmutable(g, prefix, now);
      }
      g := GatherFromTables(prefix, g);
      GatherIsScanned(active.State().cells, ImmutableCells(), State().layers, prefix, now);
      results := SortedResults(g.seen);
    }

    // ---------- writing ----------

    method FreezeMemtable()
      requires Shape() && immutable == null
      modifies this`active, this`immutable
      ensures Valid() && immutable == old(active) && immutable.State() == old(active.State())
      ensures active.State() == NO_CELLS && LayersIn(files, sstFiles) == old(LayersIn(files, sstFiles))
      ensures fresh(active) && fresh(active.table) && fresh(active.table.entries)
    {
      hide Directory, ListsAll, HashTable.WellFormed, HashTable.Balanced, Counted, CellsFit, LayersIn;
      immutable := active;
      active := new MemTable(hash);
      CountedEmpty();
      EmptyFits();
    }

    /** The unexpired entries of the frozen memtable, sorted into a table that fits its fields. */
    method FlushEntries(mem: MemTable, now: nat) returns (kvs: KVs)
      requires mem.Valid() && Counted(mem.State()) && CellsFit(mem.State().cells) && mem.bytes < 2 * LARGE
      ensures Sorted(kvs) && Fits(kvs) && ToMap(kvs) == Live(mem.State().cells, now)
    {
      hide HashTable.WellFormed, HashTable.Balanced, HashTable.Table.Valid, Counted, CellsFit, Sort, Sorted, ToMap, Fits, Enumerates, Live;
      var es := mem.ForEach();
      kvs := [];
      var i := 0;
      while i < |es|
        invariant 0 <= i <= |es| && kvs == LivePairs(es[..i], now)
      {
        assert es[..i + 1][..i] == es[..i];
        if !Expired(es[i].1, now) {
          kvs := kvs + [(es[i].0, es[i].1.value)];
        }
        i := i + 1;
      }
      assert es[..i] == es;
      LivePairsEnumerate(es, mem.State().cells, now);
      SortedEntries(kvs, mem.State(), now);
      kvs := Sort(PairKey(), kvs);
    }

    /** Writes the frozen memtable as the next table. */
    method FlushImmutable(now: nat)
      requires Valid()
      modifies this`nextSstId, this`files, this`tables, this`sstFiles, this`history, this`immutable
      ensures Valid() && immutable == null
      ensures old(immutable) == null ==> unchanged(this)
      ensures old(immutable) != null ==>
                && nextSstId == old(nextSstId) + 1 && sstFiles == old(sstFiles) + [Name(old(nextSstId))]
                && LayersIn(files, sstFiles) == old(LayersIn(files, sstFiles)) + [Live(old(ImmutableCells()), now)]
                && history == old(history) + [Disk(files, wal.file)]
    {
      hide Directory, HashTable.WellFormed, HashTable.Balanced, Counted, CellsFit, Live, Name, Sorted, Fits, Build, ToMap;
      hide LayersIn, ListsAll, SizesFit, MemTable.Valid, HashTable.Table.Valid, HashTable.Table.Contents;
      if immutable == null {
        return;
      }
      var kvs := FlushEntries(immutable, now);
      DirectoryGrows(files, tables, nextSstId, sstFiles, kvs);
      FitsSizes(kvs);
      var name := Name(nextSstId);
      nextSstId := nextSstId + 1;
      var file := BuildFile(kvs);
      files := files[name := file];
      tables := tables[name := kvs];
      history := history + [Disk(files, wal.file)];
      sstFiles := sstFiles + [name];
      immutable := null;
    }

    method RotateWal()
      modifies wal, this`log, this`history
      ensures wal.file == [] && log == [] && history == old(history) + [Disk(files, [])]
    {
      wal.Reset();
      log := [];
      history := history + [Disk(files, wal.file)];
    }

    /** The memtable is the one of old, or a new one. */
    twostate predicate ActiveKept()
      reads this, active, active.table
    {
      if active == old(active)
      then active.table.entries == old(active.table.entries) || fresh(active.table.entries)
      else fresh(active) && fresh(active.table) && fresh(active.table.entries)
    }

    /** A full memtable becomes a table; then the log starts afresh. */
    method MaybeFlush(now: nat)
      requires Shape() && immutable == null
      modifies this, wal
      ensures Valid() && immutable == null && ActiveKept()
      ensures State() == old(Flushed(State(), memLimit, now))
      ensures old(active.bytes) < memLimit ==> unchanged(this) && wal.file == old(wal.file) && wal.trace == old(wal.trace)
      ensures old(active.bytes) >= memLimit ==>
                && nextSstId == old(nextSstId) + 1 && sstFiles == old(sstFiles) + [Name(old(nextSstId))]
                && wal.file == [] && history == old(history) + [Disk(files, old(wal.file)), Disk(files, [])]
    {
      hide Directory, ListsAll, HashTable.WellFormed, HashTable.Balanced, Counted, CellsFit, Live, Name, LayersIn;
      if active.bytes >= memLimit {
        FreezeMemtable();
        FlushImmutable(now);
        RotateWal();
      }
    }

    /** Adds the disks that the log's write calls have left since the trace had t entries. */
    ghost method NoteWrites(t: nat)
      requires t <= |wal.trace|
      modifies this`history
      ensures history == old(history) + DisksFor(files, wal.trace[t..])
    {
      history := history + DisksFor(files, wal.trace[t..]);
    }

    /** The shared first half of put and del: the record is logged, and every write call noted with the disk it leaves. */
    method LogFirst(op: Op)
      requires Encodable(op)
      modifies wal, this`log, this`history
      ensures wal.file == old(wal.file) + Record(op) && log == old(log) + [op]
      ensures Grew(old(wal.file), old(wal.trace), wal.file, wal.trace) && |old(wal.trace)| <= |wal.trace|
      ensures history == old(history) + DisksFor(files, wal.trace[|old(wal.trace)|..])
    {
      hide Record, Encodable, Grew;
      ghost var trace, file := wal.trace, wal.file;
      match op {
        case Put(key, value, stamp) => wal.AppendPut(key, value, stamp);
        case Del(key) => wal.AppendDel(key);
      }
      TraceGrew(file, trace, wal.file, wal.trace);
      NoteWrites(|trace|);
      log := log + [op];
    }

    /** The second part of put and del: the memtable takes the operation. */
    method ApplyToMemtable(op: Op, now: nat)
      requires Valid() && Encodable(op)
      modifies active, active.table, active.table.entries
      ensures Shape() && (active.table.entries == old(active.table.entries) || fresh(active.table.entries))
      ensures State().layers == old(State()).layers && State().log == old(State()).log
      ensures active.State() == if op.Put? then AfterPut(old(active.State()), op.key, op.value, op.stamp, now)
                                else AfterDel(old(active.State()), op.key)
    {
      hide Directory, ListsAll, HashTable.WellFormed, HashTable.Balanced, Counted, CellsFit, LayersIn;
      match op {
        case Put(key, value, ttl) =>
          CountedPut(active.State(), key, value, ttl, now);
          PutFits(active.State().cells, key, value, ExpireAt(ttl, now));
          active.Put(key, value, ttl, now);
        case Del(key) =>
          CountedDel(active.State(), key);
          DelFits(active.State().cells, key);
          var _ := active.Del(key);
      }
    }

    /** What put and del have in common: log first, then the memtable, then a flush when it is full. */
    method WriteThrough(op: Op, now: nat)
      requires Valid() && immutable == null && Encodable(op)
      modifies this, wal, active, active.table, active.table.entries
      ensures Valid() && immutable == null && ActiveKept()
      ensures State() == Step(old(State()), op, memLimit, now)
      ensures old(history) <= history
      ensures DisksNoted(history[|old(history)|..], old(Disk(files, wal.file)), old(wal.file) + Record(op), Disk(files, wal.file),
                         old(Written(State(), op, now)).mem.bytes >= memLimit)
      ensures if old(Written(State(), op, now)).mem.bytes >= memLimit
              then nextSstId == old(nextSstId) + 1 && sstFiles == old(sstFiles) + [Name(old(nextSstId))]
              else nextSstId == old(nextSstId) && sstFiles == old(sstFiles)
    {
      hide Directory, ListsAll, HashTable.WellFormed, HashTable.Balanced, Counted, CellsFit, LayersIn, Name, Live, Record, Encode, Encodable,
           Grew, DisksNoted, DisksFor, Flushed, AfterPut, AfterDel;
      ghost var s, h, d, trace := State(), history, Disk(files, wal.file), wal.trace;
      LogFirst(op);
      ghost var appended, trace1 := wal.file, wal.trace;
      ApplyToMemtable(op, now);
      assert State() == Written(s, op, now);
      MaybeFlush(now);
      OperationNoted(h, history, d, trace, appended, trace1, Disk(files, wal.file), Written(s, op, now).mem.bytes >= memLimit);
    }

    /** Every write is crash safe while recovery can rely on the state, unless it writes an eleventh table or a later one. */
    method Write(op: Op, now: nat)
      requires Valid() && immutable == null && Encodable(op)
      modifies this, wal, active, active.table, active.table.entries
      ensures Valid() && immutable == null && ActiveKept()
      ensures State() == Step(old(State()), op, memLimit, now)
      ensures old(history) <= history && old(nextSstId) <= nextSstId <= old(nextSstId) + 1
      ensures DisksNoted(history[|old(history)|..], old(Disk(files, wal.file)), old(wal.file) + Record(op),
                         Disk(files, wal.file), nextSstId > old(nextSstId))
      ensures (op.Put? ==> op.stamp == 0) && old(Durable()) && (nextSstId <= 10 || nextSstId == old(nextSstId)) ==>
                && Durable()
                && AllSafe(history[|old(history)|..], old(Shown(State(), now)), Shown(State(), now))
    {
      hide Directory, ListsAll, HashTable.WellFormed, HashTable.Balanced, Counted, CellsFit, LayersIn, Name, Record, Encode,
           Encodable, Logged, InTextOrder, AllSafe, Shown, DisksNoted;
      ghost var s, h, d, ns := State(), |history|, Disk(files, wal.file), sstFiles;
      DirectoryKeys(files, tables, nextSstId);
      WriteThrough(op, now);
      if (op.Put? ==> op.stamp == 0) && old(Durable()) && (nextSstId <= 10 || nextSstId == old(nextSstId)) {
        LoggedEncodable(s);
        if nextSstId != old(nextSstId) { TextOrderGrows(ns, old(nextSstId)); }
        DirectoryKeys(files, tables, nextSstId);
        EncodeAppend(s.log, op);
        EncodeNone();
        OperationSafe(s, op, memLimit, now, history[h..], ns, d, sstFiles, Disk(files, wal.file));
        NowOnDisk(history[h..], d, d.wal + Record(op), Disk(files, wal.file), Written(s, op, now).mem.bytes >= memLimit);
      }
    }

    method Put(key: Bytes, value: Bytes, ttl: nat, now: nat)
      requires Valid() && immutable == null && Encodable(Op.Put(key, value, ttl))
      modifies this, wal, active, active.table, active.table.entries
      ensures Valid() && immutable == null && ActiveKept()
      ensures State() == Step(old(State()), Op.Put(key, value, ttl), memLimit, now)
      ensures old(history) <= history && old(nextSstId) <= nextSstId <= old(nextSstId) + 1
      ensures DisksNoted(history[|old(history)|..], old(Disk(files, wal.file)), old(wal.file) + Record(Op.Put(key, value, ttl)),
                         Disk(files, wal.file), nextSstId > old(nextSstId))
      ensures ttl == 0 && old(Durable()) && (nextSstId <= 10 || nextSstId == old(nextSstId)) ==>
                && Durable()
                && AllSafe(history[|old(history)|..], old(Shown(State(), now)), Shown(State(), now))
    {
      Write(Op.Put(key, value, ttl), now);
    }

    method Del(key: Bytes, now: nat)
      requires Valid() && immutable == null && Encodable(Op.Del(key))
      modifies this, wal, active, active.table, active.table.entries
      ensures Valid() && immutable == null && ActiveKept()
      ensures State() == Step(old(State()), Op.Del(key), memLimit, now)
      ensures old(history) <= history && old(nextSstId) <= nextSstId <= old(nextSstId) + 1
      ensures DisksNoted(history[|old(history)|..], old(Disk(files, wal.file)), old(wal.file) + Record(Op.Del(key)),
                         Disk(files, wal.file), nextSstId > old(nextSstId))
      ensures old(Durable()) && (nextSstId <= 10 || nextSstId == old(nextSstId)) ==>
                && Durable()
                && AllSafe(history[|old(history)|..], old(Shown(State(), now)), Shown(State(), now))
    {
      Write(Op.Del(key), now);
    }
  }

  lemma NowOnDisk(h: seq<Disk>, before: Disk, appended: Bytes, now: Disk, flushed: bool)
    requires DisksNoted(h, before, appended, now, flushed)
    ensures now.wal == (if flushed then [] else appended) && (!flushed ==> now.files == before.files)
  {
  }

  lemma TraceGrew(f0: Bytes, t0: seq<Bytes>, f1: Bytes, t1: seq<Bytes>)
    requires Grew(f0, t0, f1, t1)
    ensures |t0| <= |t1|
  {
  }

  lemma SortedNames(ns: seq<string>)
    requires forall i, j | 0 <= i < j < |ns| :: ns[i] != ns[j]
    ensures Ascending(TextKey(), Sort(TextKey(), ns))
    ensures forall n :: n in Sort(TextKey(), ns) <==> n in ns
  {
    hide Less, Sort;
    forall i, j | 0 <= i < j < |ns|
      ensures TextKey()(ns[i]) != TextKey()(ns[j])
    {
      if TextKey()(ns[i]) == TextKey()(ns[j]) { CodesInjective(ns[i], ns[j]); }
    }
    SortAscending(TextKey(), ns);
    forall n
      ensures n in Sort(TextKey(), ns) <==> n in ns
    {
      SortMembers(TextKey(), ns, n);
    }
  }
}
