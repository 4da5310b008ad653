/** A client's session with one store: opening it, running any commands, reading it back (MiniVaultDB/src/db/db.cpp:27-105). */
module Sessions {
  import opened ByteStrings
  import opened Wrappers
  import opened Log
  import opened SortedTable
  import opened Layers
  import opened Histories
  import opened Recovery
  import opened Directories
  import Cells = HashTable
  import opened Accounting
  import opened Database

  /** The layered model after commands from a given store on. */
  function RunFrom(s: Store, cmds: seq<Cmd>, limit: nat): Store {
    if cmds == [] then s
    else Step(RunFrom(s, cmds[..|cmds| - 1], limit), cmds[|cmds| - 1].op, limit, cmds[|cmds| - 1].at)
  }

  lemma {:induction false} RunFromEmpty(cmds: seq<Cmd>, limit: nat)
    ensures RunFrom(EMPTY, cmds, limit) == Run(cmds, limit)
  {
    hide Step;
    if cmds != [] { RunFromEmpty(cmds[..|cmds| - 1], limit); }
  }

  lemma RunFromNext(s: Store, cmds: seq<Cmd>, limit: nat, n: nat)
    requires n < |cmds|
    ensures RunFrom(s, cmds[..n + 1], limit) == Step(RunFrom(s, cmds[..n], limit), cmds[n].op, limit, cmds[n].at)
  {
    hide Step;
    assert cmds[..n + 1][..n] == cmds[..n];
  }

  ghost predicate Writable(cmds: seq<Cmd>) {
    forall i | 0 <= i < |cmds| :: Encodable(cmds[i].op)
  }

  /** Reopening from this disk shows the contents before or after command n. */
  ghost predicate SafeAt(d: Disk, s: Store, cmds: seq<Cmd>, limit: nat, n: nat)
    requires n < |cmds|
  {
    Safe(d, Shown(RunFrom(s, cmds[..n], limit), cmds[n].at), Shown(RunFrom(s, cmds[..n + 1], limit), cmds[n].at))
  }

  ghost predicate SafeWithin(d: Disk, s: Store, cmds: seq<Cmd>, limit: nat, done: nat)
    requires done <= |cmds|
  {
    exists n: nat :: n < done && SafeAt(d, s, cmds, limit, n)
  }

  /** Whichever of these disks a crash leaves, reopening shows the contents after some number of the commands. */
  ghost predicate SafeAlong(h: seq<Disk>, s: Store, cmds: seq<Cmd>, limit: nat, done: nat)
    requires done <= |cmds|
  {
    forall i | 0 <= i < |h| :: SafeWithin(h[i], s, cmds, limit, done)
  }

  lemma NoneDone(s: Store, cmds: seq<Cmd>, limit: nat)
    ensures RunFrom(s, cmds[..0], limit) == s && SafeAlong([], s, cmds, limit, 0)
  {
  }

  lemma SafeStep(h: seq<Disk>, more: seq<Disk>, s: Store, cmds: seq<Cmd>, limit: nat, done: nat)
    requires done < |cmds| && SafeAlong(h, s, cmds, limit, done)
    requires AllSafe(more, Shown(RunFrom(s, cmds[..done], limit), cmds[done].at), Shown(RunFrom(s, cmds[..done + 1], limit), cmds[done].at))
    ensures SafeAlong(h + more, s, cmds, limit, done + 1)
  {
    hide Safe, Shown, RunFrom;
    var all := h + more;
    forall i | 0 <= i < |all|
      ensures SafeWithin(all[i], s, cmds, limit, done + 1)
    {
      if i < |h| {
        assert SafeWithin(h[i], s, cmds, limit, done);
      } else {
        assert all[i] == more[i - |h|];
        assert SafeAt(all[i], s, cmds, limit, done);
      }
    }
  }

  /** One command of a session. */
  method Perform(db: DB, cmd: Cmd)
    requires db.Valid() && db.immutable == null && Encodable(cmd.op)
    modifies db, db.wal, db.active, db.active.table, db.active.table.entries
    ensures db.Valid() && db.immutable == null && db.ActiveKept()
    ensures db.State() == Step(old(db.State()), cmd.op, db.memLimit, cmd.at)
    ensures old(db.history) <= db.history && old(db.nextSstId) <= db.nextSstId
    ensures (cmd.op.Put? ==> cmd.op.stamp == 0) && old(db.Durable()) && db.nextSstId <= 10 ==>
              && db.Durable()
              && AllSafe(db.history[|old(db.history)|..], old(Shown(db.State(), cmd.at)), Shown(db.State(), cmd.at))
  {
    match cmd.op {
      case Put(key, value, stamp) => db.Put(key, value, stamp, cmd.at);
      case Del(key) => db.Del(key, cmd.at);
    }
  }

  lemma PlainAt(cmds: seq<Cmd>, i: nat)
    requires Plain(cmds) && i < |cmds|
    ensures cmds[i].op.Put? ==> cmds[i].op.stamp == 0
  {
  }

  /**
   Any run of commands takes the store through the same steps as the layered model. Without times to
   live and up to ten tables the store stays durable, and every disk noted on the way is safe.
   */
  method Execute(db: DB, cmds: seq<Cmd>)
    requires db.Valid() && db.immutable == null && Writable(cmds)
    modifies db, db.wal, db.active, db.active.table, db.active.table.entries
    ensures db.Valid() && db.immutable == null && db.ActiveKept()
    ensures db.State() == RunFrom(old(db.State()), cmds, db.memLimit)
    ensures old(db.history) <= db.history && old(db.nextSstId) <= db.nextSstId
    ensures Plain(cmds) && old(db.Durable()) && db.nextSstId <= 10 ==>
              db.Durable() && SafeAlong(db.history[|old(db.history)|..], old(db.State()), cmds, db.memLimit, |cmds|)
  {
    hide DB.Shape, DB.Durable, Step, AllSafe, Shown, Encodable, SafeAlong, RunFrom, Plain;
    NoneDone(db.State(), cmds, db.memLimit);
    ghost var s, h := db.State(), db.history;
    assert db.history[|h|..] == [];
    var i := 0;
    while i < |cmds|
      invariant 0 <= i <= |cmds| && db.Valid() && db.immutable == null && db.ActiveKept()
      invariant db.State() == RunFrom(s, cmds[..i], db.memLimit)
      invariant h <= db.history && old(db.nextSstId) <= db.nextSstId
      invariant Plain(cmds) && old(db.Durable()) && db.nextSstId <= 10 ==>
                  db.Durable() && SafeAlong(db.history[|h|..], s, cmds, db.memLimit, i)
    {
      ghost var before := db.history;
      Perform(db, cmds[i]);
      RunFromNext(s, cmds, db.memLimit, i);
      if Plain(cmds) && old(db.Durable()) && db.nextSstId <= 10 {
        PlainAt(cmds, i);
        SafeStep(before[|h|..], db.history[|before|..], s, cmds, db.memLimit, i);
        assert db.history[|h|..] == before[|h|..] + db.history[|before|..];
      }
      i := i + 1;
    }
    assert cmds[..i] == cmds;
  }

  // ---------- from opening to reading ----------

  lemma EmptyDirectory()
    ensures Directory(map[], map[], 0)
  {
  }

  /** An empty disk is opened as the empty store. */
  lemma NothingOpened(now: nat)
    ensures Opened(Disk(map[], []), now) == EMPTY
    ensures OpsOf([]) == [] && AllEncodable([]) && NoTtl([]) && Encode([]) == []
  {
    var d := Disk(map[], []);
    assert InTextOrder([], {}) && d.files.Keys == {};
    ListingIs([], {});
    assert OpsOf(d.wal) == [] && LayersIn(d.files, []) == [];
  }

  method OpenNew(memLimit: nat, hash: Bytes -> nat, now: nat) returns (db: DB)
    requires memLimit <= LARGE
    ensures fresh(db) && fresh(db.wal) && fresh(db.active) && fresh(db.active.table) && fresh(db.active.table.entries)
    ensures db.Valid() && db.immutable == null && db.memLimit == memLimit
    ensures db.State() == EMPTY && db.Durable() && db.history == [] && db.nextSstId == 0
  {
    hide DB.Shape, DB.Durable, Opened, Directory, Encode, OpsOf, NoTtl, AllEncodable;
    EmptyDirectory();
    NothingOpened(now);
    db := new DB(map[], [], memLimit, hash, now, map[], 0);
  }

  lemma EvictedForever(cells: Cells.Mem, key: Bytes, now: nat)
    requires Forever(cells)
    ensures Evicted(cells, key, now) == cells
  {
  }

  /** Without times to live a read answers with what is shown, and changes nothing. */
  method Read(db: DB, key: Bytes, now: nat) returns (r: Option<Bytes>)
    requires db.Valid() && db.immutable == null && Forever(db.State().mem.cells)
    modifies db.active, db.active.table, db.active.table.entries
    ensures db.Valid() && db.immutable == null && db.State() == old(db.State())
    ensures db.active == old(db.active) && db.active.table.entries == old(db.active.table.entries)
    ensures r == Lookup(old(Shown(db.State(), now)), key) && (old(db.Durable()) ==> db.Durable())
  {
    hide DB.Durable, Forever, Shown, Visible, Evicted;
    EvictedForever(db.State().mem.cells, key, now);
    ShownIsVisible(db.State(), now);
    r := db.Get(key, now);
  }

  /** No delete of the run hits a key that a table holds at that moment. */
  ghost predicate SparesTables(cmds: seq<Cmd>, limit: nat) {
    forall i | 0 <= i < |cmds| :: !DeletesFlushedKey(cmds, limit, i)
  }

  lemma ShownIsPlainMap(cmds: seq<Cmd>, limit: nat, now: nat)
    requires Plain(cmds) && SparesTables(cmds, limit)
    ensures Shown(Run(cmds, limit), now) == MapAfter(cmds)
  {
    hide Run, MapAfter, Shown, DeletesFlushedKey;
    RunIsPlainMap(cmds, limit, now);
    assert AgreesAt(cmds, limit, now, |cmds|) && cmds[..|cmds|] == cmds;
  }

  /**
   A new store, any commands without times to live, then a read: the answer is that of a plain map
   after the same commands as long as no delete hits a key that a table holds.
   */
  method RunAndRead(cmds: seq<Cmd>, memLimit: nat, hash: Bytes -> nat, key: Bytes, now: nat) returns (r: Option<Bytes>, db: DB)
    requires memLimit <= LARGE && Writable(cmds) && Plain(cmds)
    ensures fresh(db) && db.Valid() && db.immutable == null && db.State() == Run(cmds, memLimit)
    ensures r == Lookup(Shown(Run(cmds, memLimit), now), key)
    ensures SparesTables(cmds, memLimit) ==> r == Lookup(MapAfter(cmds), key)
    ensures db.nextSstId <= 10 ==> db.Durable() && SafeAlong(db.history, EMPTY, cmds, memLimit, |cmds|)
  {
    hide DB.Shape, DB.Durable, Run, RunFrom, MapAfter, Shown, SafeAlong, Writable, Plain, SparesTables, Forever;
    db := OpenNew(memLimit, hash, now);
    Execute(db, cmds);
    RunFromEmpty(cmds, memLimit);
    RunForever(cmds, memLimit);
    if SparesTables(cmds, memLimit) { ShownIsPlainMap(cmds, memLimit, now); }
    r := Read(db, key, now);
    assert db.history[0..] == db.history;
  }

  /** A new store, any commands, times to live or not, then a read: the answer comes from the history of the commands. */
  method RunAndGet(cmds: seq<Cmd>, memLimit: nat, hash: Bytes -> nat, key: Bytes, now: nat) returns (r: Option<Bytes>, db: DB)
    requires memLimit <= LARGE && Writable(cmds)
    ensures fresh(db) && db.Valid() && db.memLimit == memLimit
    ensures forall value :: r == Some(value) <==> Answers(cmds, memLimit, key, now, value)
  {
    hide DB.Shape, DB.Durable, Run, RunFrom, Shown, SafeAlong, Writable, Plain, Forever, Visible, Answers;
    db := OpenNew(memLimit, hash, now);
    Execute(db, cmds);
    RunFromEmpty(cmds, memLimit);
    ShownIsVisible(db.State(), now);
    r := db.Get(key, now);
    forall value {
      ReadByHistory(cmds, memLimit, key, now, value);
    }
  }

  lemma PairsUnder(kvs: KVs, m: Layer, prefix: Bytes)
    requires Enumerates(kvs, Only(m, prefix))
    ensures forall key: Bytes, value: Bytes :: (key, value) in kvs <==> HasPrefix(key, prefix) && Lookup(m, key) == Some(value)
  {
    hide HasPrefix;
    forall key: Bytes, value: Bytes
      ensures (key, value) in kvs <==> key in Only(m, prefix) && Only(m, prefix)[key] == value
    {
      if (key, value) in kvs {
        var i :| 0 <= i < |kvs| && kvs[i] == (key, value);
      }
    }
  }

  /** The same with a scan: in ascending order the pairs under the prefix that the history of the commands tells. */
  method RunAndScan(cmds: seq<Cmd>, memLimit: nat, hash: Bytes -> nat, prefix: Bytes, now: nat) returns (results: KVs, db: DB)
    requires memLimit <= LARGE && Writable(cmds)
    ensures fresh(db) && db.Valid() && db.memLimit == memLimit && Sorted(results)
    ensures forall key: Bytes, value: Bytes :: (key, value) in results <==>
              && HasPrefix(key, prefix) && Answers(cmds, memLimit, key, now, value)
              && (Present(Pending(cmds, memLimit), key) ==> CanRead(Pending(cmds, memLimit), key, now))
  {
    hide DB.Shape, DB.Durable, Run, RunFrom, Shown, SafeAlong, Writable, Plain, Forever, Scanned, Answers, CanRead, Present;
    db := OpenNew(memLimit, hash, now);
    Execute(db, cmds);
    RunFromEmpty(cmds, memLimit);
    results := db.ScanPrefix(prefix, now);
    PairsUnder(results, Scanned(db.State().mem.cells, map[], db.State().layers, now), prefix);
    forall key: Bytes, value: Bytes {
      ScanByHistory(cmds, memLimit, key, now, value);
    }
  }

  lemma ReopenedState(s: Store, d: Disk, ns: seq<string>, now: nat)
    requires Logged(s) && d.wal == Encode(s.log) && InTextOrder(ns, d.files.Keys) && s.layers == LayersIn(d.files, ns)
    ensures Opened(d, now) == s && OpsOf(d.wal) == s.log && NoTtl(s.log)
  {
    hide Opened, OpsOf, Encode, ApplyAll, NoTtl, InTextOrder;
    FullReplay(s.log);
    OpenedShows(s, d, ns, s.log, now);
  }

  /** Closing a durable store and opening it again, at any time, gives the same state, and it is durable again. */
  method Reopen(db: DB, now: nat) returns (again: DB)
    requires db.Durable() && |db.wal.file| <= LARGE
    ensures fresh(again) && fresh(again.wal) && fresh(again.active) && fresh(again.active.table) && fresh(again.active.table.entries)
    ensures again.Valid() && again.immutable == null && again.Durable() && again.history == []
    ensures again.State() == db.State() && again.memLimit == db.memLimit && again.nextSstId == db.nextSstId
  {
    hide Opened, OpsOf, Encode, Directory, Logged, InTextOrder, NoTtl, AllEncodable, ListsAll;
    ReopenedState(db.State(), Disk(db.files, db.wal.file), db.sstFiles, now);
    LoggedEncodable(db.State());
    again := new DB(db.files, db.wal.file, db.memLimit, db.hash, now, db.tables, db.nextSstId);
  }
}
