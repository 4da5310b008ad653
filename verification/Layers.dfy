/**
 The store as a stack of maps: what reads show, what a flush and a crash do to it, and how a run of
 operations compares with one plain map (MiniVaultDB/src/db/db.cpp).
 */
module Layers {
  import opened ByteStrings
  import opened Wrappers
  import opened Cells = HashTable
  import opened Memory
  import opened Log
  import opened SortedTable

  type Layer = map<Bytes, Bytes>

  /** Tables oldest first, the memtable, and the operations logged since the last rotation. */
  datatype Store = Store(mem: MemState, layers: seq<Layer>, log: seq<Op>)

  const EMPTY: Store := Store(NO_CELLS, [], [])

  // ---------- what reads show ----------

  /** The tables seen through newest first. */
  function Stack(layers: seq<Layer>): Layer {
    if layers == [] then map[] else Stack(layers[..|layers| - 1]) + layers[|layers| - 1]
  }

  lemma StackAppend(layers: seq<Layer>, newest: Layer)
    ensures Stack(layers + [newest]) == Stack(layers) + newest
  {
  }

  /** The entries of a memtable that have not expired. */
  function Live(cells: Mem, now: nat): Layer {
    map k | k in cells && !Expired(cells[k], now) :: cells[k].value
  }

  function Dead(cells: Mem, now: nat): set<Bytes> {
    set k | k in cells && Expired(cells[k], now)
  }

  /** What get answers over all keys. */
  function Visible(active: Mem, immutable: Mem, layers: seq<Layer>, now: nat): Layer {
    Stack(layers) + Live(immutable, now) + Live(active, now)
  }

  /** What scan_prefix sees: an expired memtable entry hides every older value of its key. */
  function Scanned(active: Mem, immutable: Mem, layers: seq<Layer>, now: nat): Layer {
    (Stack(layers) - Dead(immutable, now) - Dead(active, now)) + (Live(immutable, now) - Dead(active, now)) + Live(active, now)
  }

  /** Get and scan disagree on a key exactly when an expired entry covers a value that get falls through to. */
  predicate Uncovered(key: Bytes, active: Mem, immutable: Mem, layers: seq<Layer>, now: nat) {
    if key in active then key in Dead(active, now) && (key in Live(immutable, now) || key in Stack(layers))
    else key in Dead(immutable, now) && key in Stack(layers)
  }

  lemma ScanAgreesWithGet(key: Bytes, active: Mem, immutable: Mem, layers: seq<Layer>, now: nat)
    ensures Lookup(Scanned(active, immutable, layers, now), key) == Lookup(Visible(active, immutable, layers, now), key)
            <==> !Uncovered(key, active, immutable, layers, now)
  {
  }

  // ---------- how scan_prefix gathers its answer ----------

  /** The two collections that the scan fills, newest layer first. */
  datatype Gathered = Gathered(seen: Layer, deleted: set<Bytes>)

  const NOTHING: Gathered := Gathered(map[], {})

  /** A layer adds what no newer one has shown or hidden. */
  function Gather(g: Gathered, live: Layer, dead: set<Bytes>): Gathered {
    Gathered((live - g.deleted) + g.seen, g.deleted + (dead - g.seen.Keys))
  }

  function GatherTables(g: Gathered, layers: seq<Layer>): Gathered
    decreases |layers|
  {
    if layers == [] then g else GatherTables(Gather(g, layers[|layers| - 1], {}), layers[..|layers| - 1])
  }

  lemma GatherNewest(g: Gathered, layers: seq<Layer>, i: nat)
    requires i < |layers|
    ensures GatherTables(g, layers[..i + 1]) == GatherTables(Gather(g, layers[i], {}), layers[..i])
  {
    hide Gather;
    assert layers[..i + 1][..i] == layers[..i];
  }

  lemma GatherNone(g: Gathered)
    ensures GatherTables(g, []) == g
  {
  }

  function Only(m: Layer, p: Bytes): Layer {
    map k | k in m && HasPrefix(k, p) :: m[k]
  }

  function OnlyKeys(s: set<Bytes>, p: Bytes): set<Bytes> {
    set k | k in s && HasPrefix(k, p)
  }

  function OnlyAll(layers: seq<Layer>, p: Bytes): (r: seq<Layer>)
    ensures |r| == |layers| && forall i | 0 <= i < |layers| :: r[i] == Only(layers[i], p)
  {
    seq(|layers|, i requires 0 <= i < |layers| => Only(layers[i], p))
  }

  lemma {:induction false} GatherTablesIsStack(g: Gathered, layers: seq<Layer>)
    ensures GatherTables(g, layers) == Gathered((Stack(layers) - g.deleted) + g.seen, g.deleted)
    decreases |layers|
  {
    if layers == [] {
      assert (map[] - g.deleted) + g.seen == g.seen;
    } else {
      var newest, rest := layers[|layers| - 1], layers[..|layers| - 1];
      GatherTablesIsStack(Gather(g, newest, {}), rest);
      assert Gather(g, newest, {}).deleted == g.deleted;
      OverlayMinus(Stack(rest), newest, g.seen, g.deleted);
    }
  }

  lemma OverlayMinus(a: Layer, b: Layer, c: Layer, gone: set<Bytes>)
    ensures (a - gone) + ((b - gone) + c) == ((a + b) - gone) + c
  {
  }

  lemma {:induction false} StackOfOnly(layers: seq<Layer>, p: Bytes)
    ensures Stack(OnlyAll(layers, p)) == Only(Stack(layers), p)
    decreases |layers|
  {
    if layers != [] {
      var rest := layers[..|layers| - 1];
      StackOfOnly(rest, p);
      assert OnlyAll(layers, p)[..|layers| - 1] == OnlyAll(rest, p);
    }
  }

  /** Both memtables, then the tables from the newest to the oldest. */
  function ScanGather(active: Mem, immutable: Mem, layers: seq<Layer>, p: Bytes, now: nat): Gathered {
    var g := Gather(NOTHING, Only(Live(active, now), p), OnlyKeys(Dead(active, now), p));
    var h := Gather(g, Only(Live(immutable, now), p), OnlyKeys(Dead(immutable, now), p));
    GatherTables(h, OnlyAll(layers, p))
  }

  lemma SameReads(a: Layer, b: Layer)
    requires forall k :: Lookup(a, k) == Lookup(b, k)
    ensures a == b
  {
    assert forall k :: k in a <==> Lookup(a, k).Some?;
    assert forall k :: k in b <==> Lookup(b, k).Some?;
  }

  lemma GatherTwiceAt(s: Layer, la: Layer, da: set<Bytes>, li: Layer, di: set<Bytes>, p: Bytes, k: Bytes)
    requires la.Keys !! da && li.Keys !! di
    ensures var h := Gather(Gather(NOTHING, Only(la, p), OnlyKeys(da, p)), Only(li, p), OnlyKeys(di, p));
            Lookup((Only(s, p) - h.deleted) + h.seen, k) == Lookup(Only((s - di - da) + (li - da) + la, p), k)
  {
    hide HasPrefix;
    var g := Gather(NOTHING, Only(la, p), OnlyKeys(da, p));
    assert g == Gathered(Only(la, p), OnlyKeys(da, p));
    var h := Gather(g, Only(li, p), OnlyKeys(di, p));
    assert k in h.deleted <==> HasPrefix(k, p) && (k in da || (k in di && k !in la));
    assert Lookup(h.seen, k) == if !HasPrefix(k, p) then None else if k in la then Some(la[k])
                                else if k in li && k !in da then Some(li[k]) else None;
  }

  lemma GatherTwice(s: Layer, la: Layer, da: set<Bytes>, li: Layer, di: set<Bytes>, p: Bytes)
    requires la.Keys !! da && li.Keys !! di
    ensures var h := Gather(Gather(NOTHING, Only(la, p), OnlyKeys(da, p)), Only(li, p), OnlyKeys(di, p));
            (Only(s, p) - h.deleted) + h.seen == Only((s - di - da) + (li - da) + la, p)
  {
    hide Gather, Only, OnlyKeys, Lookup;
    var h := Gather(Gather(NOTHING, Only(la, p), OnlyKeys(da, p)), Only(li, p), OnlyKeys(di, p));
    forall k {
      GatherTwiceAt(s, la, da, li, di, p, k);
    }
    SameReads((Only(s, p) - h.deleted) + h.seen, Only((s - di - da) + (li - da) + la, p));
  }

  /** The gathering shows what the scan is said to see. */
  lemma GatherIsScanned(active: Mem, immutable: Mem, layers: seq<Layer>, p: Bytes, now: nat)
    ensures ScanGather(active, immutable, layers, p, now).seen == Only(Scanned(active, immutable, layers, now), p)
  {
    hide Stack, GatherTables, HasPrefix, Expired, OnlyAll, Gather, Only, OnlyKeys;
    var g := Gather(NOTHING, Only(Live(active, now), p), OnlyKeys(Dead(active, now), p));
    var h := Gather(g, Only(Live(immutable, now), p), OnlyKeys(Dead(immutable, now), p));
    GatherTablesIsStack(h, OnlyAll(layers, p));
    StackOfOnly(layers, p);
    GatherTwice(Stack(layers), Live(active, now), Dead(active, now), Live(immutable, now), Dead(immutable, now), p);
  }

  function Shown(s: Store, now: nat): Layer {
    Stack(s.layers) + Live(s.mem.cells, now)
  }

  lemma ShownIsVisible(s: Store, now: nat)
    ensures Shown(s, now) == Visible(s.mem.cells, map[], s.layers, now)
  {
    assert Live(map[], now) == map[];
  }

  // ---------- what writes do ----------

  /** maybe_flush: a full memtable becomes the newest table and the log starts afresh. */
  function Flushed(s: Store, limit: nat, now: nat): Store {
    if s.mem.bytes >= limit then Store(NO_CELLS, s.layers + [Live(s.mem.cells, now)], []) else s
  }

  /** The operation as DB::put and DB::del log it, applied to the memtable. */
  function Written(s: Store, op: Op, now: nat): Store {
    var mem := if op.Put? then AfterPut(s.mem, op.key, op.value, op.stamp, now) else AfterDel(s.mem, op.key);
    Store(mem, s.layers, s.log + [op])
  }

  function Step(s: Store, op: Op, limit: nat, now: nat): Store {
    Flushed(Written(s, op, now), limit, now)
  }

  /** A flush changes no read of the moment at which it happens. */
  lemma FlushKeepsReads(s: Store, limit: nat, now: nat)
    ensures Shown(Flushed(s, limit, now), now) == Shown(s, now)
  {
    if s.mem.bytes >= limit {
      StackAppend(s.layers, Live(s.mem.cells, now));
    }
  }

  /** The entry expires between two times while no table holds its value. */
  predicate Outlives(s: Store, key: Bytes, now: nat, later: nat) {
    && key in s.mem.cells && !Expired(s.mem.cells[key], now) && Expired(s.mem.cells[key], later)
    && !(key in Stack(s.layers) && Stack(s.layers)[key] == s.mem.cells[key].value)
  }

  /**
   The table written by a flush has no expiry times: a later read of any key is as without the flush
   exactly when its entry has not expired meanwhile, or an older table holds the same value.
   */
  lemma FlushKeepsLaterReads(s: Store, limit: nat, now: nat, later: nat, key: Bytes)
    requires s.mem.bytes >= limit && now <= later
    ensures Lookup(Shown(Flushed(s, limit, now), later), key) == Lookup(Shown(s, later), key) <==> !Outlives(s, key, now, later)
  {
    hide Stack;
    var live := Live(s.mem.cells, now);
    StackAppend(s.layers, live);
    assert Shown(Flushed(s, limit, now), later) == Stack(s.layers) + live;
  }

  /** Every live entry with an expiry time has the value that the tables show for its key anyway. */
  predicate ExpiringIsOld(s: Store, now: nat) {
    forall key | key in s.mem.cells && s.mem.cells[key].expireTs != 0 && !Expired(s.mem.cells[key], now) ::
      key in Stack(s.layers) && Stack(s.layers)[key] == s.mem.cells[key].value
  }

  /** So a flush changes no read, now or later, exactly when no entry that is new in the memtable can still expire. */
  lemma FlushKeepsAllReadsExactlyWhen(s: Store, limit: nat, now: nat)
    requires s.mem.bytes >= limit
    ensures (forall later: nat | now <= later :: Shown(Flushed(s, limit, now), later) == Shown(s, later)) <==> ExpiringIsOld(s, now)
  {
    hide Stack, Shown, Flushed;
    forall key: Bytes, later: nat | now <= later
      ensures Lookup(Shown(Flushed(s, limit, now), later), key) == Lookup(Shown(s, later), key) <==> !Outlives(s, key, now, later)
    {
      FlushKeepsLaterReads(s, limit, now, later, key);
    }
    if ExpiringIsOld(s, now) {
      forall later: nat | now <= later
        ensures Shown(Flushed(s, limit, now), later) == Shown(s, later)
      {
        SameReads(Shown(Flushed(s, limit, now), later), Shown(s, later));
      }
    } else {
      var key :| && key in s.mem.cells && s.mem.cells[key].expireTs != 0 && !Expired(s.mem.cells[key], now)
                 && !(key in Stack(s.layers) && Stack(s.layers)[key] == s.mem.cells[key].value);
      var later := if now <= s.mem.cells[key].expireTs then s.mem.cells[key].expireTs + 1 else now;
      assert Outlives(s, key, now, later);
    }
  }

  lemma LiveWithPut(cells: Mem, key: Bytes, value: Bytes, now: nat)
    ensures Live(cells[key := Cell(value, 0)], now) == Live(cells, now)[key := value]
  {
  }

  /** A put shows its value, and changes nothing else. */
  lemma PutShows(s: Store, key: Bytes, value: Bytes, limit: nat, now: nat)
    ensures Shown(Step(s, Put(key, value, 0), limit, now), now) == Shown(s, now)[key := value]
  {
    hide Stack, Flushed;
    var w := Written(s, Put(key, value, 0), now);
    FlushKeepsReads(w, limit, now);
    LiveWithPut(s.mem.cells, key, value, now);
    hide Live;
    assert Stack(s.layers) + Live(s.mem.cells, now)[key := value] == (Stack(s.layers) + Live(s.mem.cells, now))[key := value];
  }

  /** A delete removes the memtable's entry; there is no durable tombstone, so a table's value shows again. */
  lemma DelShows(s: Store, key: Bytes, limit: nat, now: nat)
    ensures Shown(Step(s, Del(key), limit, now), now)
            == if key in Stack(s.layers) then Shown(s, now)[key := Stack(s.layers)[key]] else Shown(s, now) - {key}
  {
    hide Stack, Flushed;
    var w := Written(s, Del(key), now);
    FlushKeepsReads(w, limit, now);
    assert Live(w.mem.cells, now) == Live(s.mem.cells, now) - {key};
  }

  // ---------- stores without times to live ----------

  ghost predicate NoTtl(ops: seq<Op>) {
    forall i | 0 <= i < |ops| && ops[i].Put? :: ops[i].stamp == 0
  }

  ghost predicate Forever(cells: Mem) {
    forall k | k in cells :: cells[k].expireTs == 0
  }

  lemma ForeverIsTimeless(cells: Mem, t: nat, u: nat)
    requires Forever(cells)
    ensures Live(cells, t) == Live(cells, u) && Dead(cells, t) == {}
  {
  }

  lemma StepForever(s: Store, op: Op, limit: nat, now: nat)
    requires Forever(s.mem.cells) && (op.Put? ==> op.stamp == 0)
    ensures Forever(Step(s, op, limit, now).mem.cells)
  {
  }

  // ---------- runs against one plain map ----------

  /** An operation of a client and the time at which it comes. */
  datatype Cmd = Cmd(op: Op, at: nat)

  ghost predicate Plain(cmds: seq<Cmd>) {
    forall i | 0 <= i < |cmds| && cmds[i].op.Put? :: cmds[i].op.stamp == 0
  }

  function Run(cmds: seq<Cmd>, limit: nat): Store {
    if cmds == [] then EMPTY
    else Step(Run(cmds[..|cmds| - 1], limit), cmds[|cmds| - 1].op, limit, cmds[|cmds| - 1].at)
  }

  function MapAfter(cmds: seq<Cmd>): Layer {
    if cmds == [] then map[]
    else
      var m, op := MapAfter(cmds[..|cmds| - 1]), cmds[|cmds| - 1].op;
      if op.Put? then m[op.key := op.value] else m - {op.key}
  }

  lemma {:induction false} RunForever(cmds: seq<Cmd>, limit: nat)
    requires Plain(cmds)
    ensures Forever(Run(cmds, limit).mem.cells)
  {
    if cmds != [] {
      var front, last := cmds[..|cmds| - 1], cmds[|cmds| - 1];
      RunForever(front, limit);
      StepForever(Run(front, limit), last.op, limit, last.at);
    }
  }

  /** One more operation keeps the agreement exactly when it is not a delete of a key that a table holds. */
  lemma AgreementStep(cmds: seq<Cmd>, limit: nat, t: nat, u: nat)
    requires cmds != [] && Plain(cmds)
    requires Shown(Run(cmds[..|cmds| - 1], limit), t) == MapAfter(cmds[..|cmds| - 1])
    ensures Shown(Run(cmds, limit), u) == MapAfter(cmds)
            <==> !(cmds[|cmds| - 1].op.Del? && cmds[|cmds| - 1].op.key in Stack(Run(cmds[..|cmds| - 1], limit).layers))
  {
    var front, last := cmds[..|cmds| - 1], cmds[|cmds| - 1];
    var s, op, at := Run(front, limit), last.op, last.at;
    RunForever(front, limit);
    RunForever(cmds, limit);
    ForeverIsTimeless(s.mem.cells, t, at);
    ForeverIsTimeless(Run(cmds, limit).mem.cells, at, u);
    assert Shown(s, t) == Shown(s, at) && Shown(Run(cmds, limit), u) == Shown(Run(cmds, limit), at);
    hide Stack, Step, Live, Shown;
    if op.Put? {
      assert op == Put(op.key, op.value, 0);
      PutShows(s, op.key, op.value, limit, at);
    } else {
      DelShows(s, op.key, limit, at);
      if op.key in Stack(s.layers) {
        assert op.key in Shown(Run(cmds, limit), at) && op.key !in MapAfter(cmds);
      }
    }
  }

  /** Some delete of the run hit a key that a table held at that moment. */
  ghost predicate DeletesFlushedKey(cmds: seq<Cmd>, limit: nat, i: nat)
    requires i < |cmds|
  {
    cmds[i].op.Del? && cmds[i].op.key in Stack(Run(cmds[..i], limit).layers)
  }

  /** Reads agree with one plain map after the first n operations. */
  ghost predicate AgreesAt(cmds: seq<Cmd>, limit: nat, t: nat, n: nat)
    requires n <= |cmds|
  {
    Shown(Run(cmds[..n], limit), t) == MapAfter(cmds[..n])
  }

  /** Reads agree with one plain map after every operation of a run exactly when no delete hits a flushed key. */
  lemma {:induction false} RunIsPlainMap(cmds: seq<Cmd>, limit: nat, t: nat)
    requires Plain(cmds)
    ensures (forall n | 0 <= n <= |cmds| :: AgreesAt(cmds, limit, t, n))
            <==> (forall i | 0 <= i < |cmds| :: !DeletesFlushedKey(cmds, limit, i))
  {
    hide Run, MapAfter, Shown, AgreesAt, DeletesFlushedKey;
    EmptyAgrees(cmds, limit, t);
    if cmds != [] {
      var last := |cmds| - 1;
      var front := cmds[..last];
      RunIsPlainMap(front, limit, t);
      FrontOfRun(cmds, limit, t);
      if AgreesAt(cmds, limit, t, last) {
        LastOfRun(cmds, limit, t);
      } else {
        assert !AgreesAt(front, limit, t, last);
        var i :| 0 <= i < last && DeletesFlushedKey(front, limit, i);
        assert DeletesFlushedKey(cmds, limit, i);
      }
      if forall n | 0 <= n <= |cmds| :: AgreesAt(cmds, limit, t, n) {
        forall n | 0 <= n <= last
          ensures AgreesAt(front, limit, t, n)
        {
          assert AgreesAt(cmds, limit, t, n);
        }
      }
      if forall i | 0 <= i < |cmds| :: !DeletesFlushedKey(cmds, limit, i) {
        forall i | 0 <= i < last
          ensures !DeletesFlushedKey(front, limit, i)
        {
          assert !DeletesFlushedKey(cmds, limit, i);
        }
      }
    }
  }

  lemma FrontOfRun(cmds: seq<Cmd>, limit: nat, t: nat)
    requires cmds != []
    ensures forall n | 0 <= n < |cmds| :: AgreesAt(cmds[..|cmds| - 1], limit, t, n) == AgreesAt(cmds, limit, t, n)
    ensures forall i | 0 <= i < |cmds| - 1 ::
              DeletesFlushedKey(cmds[..|cmds| - 1], limit, i) == DeletesFlushedKey(cmds, limit, i)
  {
    hide Run, MapAfter, Shown;
    var front := cmds[..|cmds| - 1];
    assert forall n | 0 <= n < |cmds| :: front[..n] == cmds[..n];
  }

  lemma LastOfRun(cmds: seq<Cmd>, limit: nat, t: nat)
    requires cmds != [] && Plain(cmds) && AgreesAt(cmds, limit, t, |cmds| - 1)
    ensures AgreesAt(cmds, limit, t, |cmds|) == !DeletesFlushedKey(cmds, limit, |cmds| - 1)
  {
    hide Run, MapAfter, Shown;
    AgreementStep(cmds, limit, t, t);
    assert cmds[..|cmds|] == cmds;
  }

  lemma EmptyAgrees(cmds: seq<Cmd>, limit: nat, t: nat)
    ensures AgreesAt(cmds, limit, t, 0)
  {
  }
}
