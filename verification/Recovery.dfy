/**
 What a store shows after a crash: the tables of the directory in text order under the replayed log
 (MiniVaultDB/src/db/db.cpp:27-40, 192-256).
 */
module Recovery {
  import opened ByteStrings
  import opened Wrappers
  import opened Sorting
  import opened Memory
  import opened Log
  import opened SortedTable
  import opened TableNames
  import opened Layers

  /** What survives a crash: the table files by name and the log file. */
  datatype Disk = Disk(files: map<string, Bytes>, wal: Bytes)

  // ---------- listing the directory ----------

  ghost predicate InTextOrder(ns: seq<string>, names: set<string>) {
    Ascending(TextKey(), ns) && forall n :: n in ns <==> n in names
  }

  lemma {:induction false} ListingExists(names: set<string>)
    ensures exists ns :: InTextOrder(ns, names)
  {
    if names == {} {
      assert InTextOrder([], names);
    } else {
      var x :| x in names;
      ListingExists(names - {x});
      var rest :| InTextOrder(rest, names - {x});
      var ns := Insert(TextKey(), rest, x);
      forall n
        ensures n in ns <==> n in names
      {
        InsertMembers(TextKey(), rest, x, n);
      }
      forall y | y in rest
        ensures TextKey()(y) != TextKey()(x)
      {
        if TextKey()(y) == TextKey()(x) { CodesInjective(y, x); }
      }
      InsertAscending(TextKey(), rest, x);
      assert InTextOrder(ns, names);
    }
  }

  /** The order in which load_sstables leaves the files. */
  ghost function Listing(names: set<string>): (ns: seq<string>)
    ensures InTextOrder(ns, names)
  {
    ListingExists(names);
    var ns :| InTextOrder(ns, names);
    ns
  }

  lemma ListingIs(ns: seq<string>, names: set<string>)
    requires InTextOrder(ns, names)
    ensures Listing(names) == ns
  {
    AscendingUnique(TextKey(), Listing(names), ns);
  }

  /** With at most ten tables the listing is by age. */
  lemma ListingByAge(n: nat)
    requires n <= 10
    ensures Listing(set i: nat | i < n :: Name(i)) == Names(n)
  {
    TextOrderIsAge(n);
    ListingIs(Names(n), set i: nat | i < n :: Name(i));
  }

  // ---------- reopening more than ten tables ----------

  /** The layers as a reopened store stacks them, when layer i was written to the table named Name(i). */
  ghost function Reordered(layers: seq<Layer>): (r: seq<Layer>)
    ensures |r| == |Listing(set i: nat | i < |layers| :: Name(i))|
  {
    var ns := Listing(set i: nat | i < |layers| :: Name(i));
    seq(|ns|, j requires 0 <= j < |ns| =>
      assert ns[j] in ns;
      var i :| 0 <= i < |layers| && Name(i) == ns[j];
      layers[i])
  }

  lemma ReorderedAt(layers: seq<Layer>, j: nat, i: nat)
    requires i < |layers| && j < |Reordered(layers)|
    requires Listing(set i: nat | i < |layers| :: Name(i))[j] == Name(i)
    ensures Reordered(layers)[j] == layers[i]
  {
    forall k | 0 <= k < |layers| && Name(k) == Name(i)
      ensures k == i
    {
      NameInjective(k, i);
    }
  }

  /** The newest layer that holds a key decides. */
  lemma {:induction false} StackNewest(layers: seq<Layer>, j: nat, key: Bytes)
    requires j < |layers| && key in layers[j]
    requires forall i | j < i < |layers| :: key !in layers[i]
    ensures key in Stack(layers) && Stack(layers)[key] == layers[j][key]
  {
    if j < |layers| - 1 { StackNewest(layers[..|layers| - 1], j, key); }
  }

  /** Ten empty tables, an old value in the tenth and a new one in the eleventh. */
  ghost function StaleExample(n: nat): (layers: seq<Layer>)
    ensures |layers| == n
  {
    seq(n, i => if i == 9 then map[[] := [0]] else if i == 10 then map[[] := [1]] else map[])
  }

  /** In text order the eleventh table comes before the tenth. */
  lemma TenthComesLater(ns: seq<string>, names: set<string>) returns (a: nat, b: nat)
    requires InTextOrder(ns, names) && Name(9) in names && Name(10) in names
    ensures b < a < |ns| && ns[a] == Name(9) && ns[b] == Name(10)
  {
    TenBeforeNine();
    LessAsymmetric(Codes(Name(10)), Codes(Name(9)));
    hide Name, Codes, Less;
    assert Name(9) in ns && Name(10) in ns;
    a :| 0 <= a < |ns| && ns[a] == Name(9);
    b :| 0 <= b < |ns| && ns[b] == Name(10);
    var later, earlier := TextKey()(ns[a]), TextKey()(ns[b]);
    assert !Less(later, earlier) && later != earlier;
  }

  lemma OnlyOncePerName(ns: seq<string>, names: set<string>, i: nat, j: nat)
    requires InTextOrder(ns, names) && i < j < |ns|
    ensures ns[i] != ns[j]
  {
    hide Less;
    assert Less(TextKey()(ns[i]), TextKey()(ns[j]));
    LessIrreflexive(TextKey()(ns[i]));
  }

  /** In text order the tenth table hides the eleventh. */
  lemma StaleRead(n: nat)
    requires n > 10
    ensures Lookup(Stack(StaleExample(n)), []) == Some([1]) && Lookup(Stack(Reordered(StaleExample(n))), []) == Some([0])
  {
    var layers, names := StaleExample(n), set i: nat | i < n :: Name(i);
    var ns := Listing(names);
    StackNewest(layers, 10, []);
    hide Name, Codes, Less, Stack;
    assert Name(9) in names && Name(10) in names;
    var a, b := TenthComesLater(ns, names);
    ReorderedAt(layers, a, 9);
    forall j | a < j < |ns|
      ensures [] !in Reordered(layers)[j]
    {
      assert ns[j] in names;
      var i :| 0 <= i < n && ns[j] == Name(i);
      OnlyOncePerName(ns, names, a, j);
      OnlyOncePerName(ns, names, b, j);
      ReorderedAt(layers, j, i);
    }
    StackNewest(Reordered(layers), a, []);
    assert Stack(layers)[[]] == [1] && Stack(Reordered(layers))[[]] == [0];
  }

  /** Every operation flushes at limit 0: a delete of nothing leaves an empty table. */
  function StaleOp(i: nat): Op {
    if i == 9 then Put([], [0], 0) else if i == 10 then Put([], [1], 0) else Del([])
  }

  function StaleCmds(n: nat): (cmds: seq<Cmd>)
    ensures |cmds| == n
  {
    seq(n, i requires 0 <= i < n => Cmd(StaleOp(i), 0))
  }

  lemma StaleStep(s: Store, i: nat)
    requires s.mem == NO_CELLS && s.layers == StaleExample(i)
    ensures Step(s, StaleOp(i), 0, 0).mem == NO_CELLS && Step(s, StaleOp(i), 0, 0).layers == StaleExample(i + 1)
  {
    var live := Live(Written(s, StaleOp(i), 0).mem.cells, 0);
    assert live == if i == 9 then map[[] := [0]] else if i == 10 then map[[] := [1]] else map[];
    assert StaleExample(i + 1) == StaleExample(i) + [live];
  }

  /** Those layers come about: n operations without times to live leave them behind. */
  lemma {:induction false} StaleRun(n: nat)
    ensures Plain(StaleCmds(n)) && Run(StaleCmds(n), 0).mem == NO_CELLS && Run(StaleCmds(n), 0).layers == StaleExample(n)
  {
    hide StaleOp, StaleExample, Step;
    if n == 0 {
      assert StaleExample(0) == [];
    } else {
      StaleRun(n - 1);
      assert StaleCmds(n)[..n - 1] == StaleCmds(n - 1);
      StaleStep(Run(StaleCmds(n - 1), 0), n - 1);
    }
    StaleIsPlain(n);
  }

  lemma StaleIsPlain(n: nat)
    ensures Plain(StaleCmds(n))
  {
  }

  /** So from the eleventh table on there is a run after which a reopening answers a read with an overwritten value. */
  lemma SomeRunReadsStale(n: nat)
    requires n > 10
    ensures var s := Run(StaleCmds(n), 0);
            |s.layers| == n && Lookup(Shown(s, 0), []) == Some([1]) && Lookup(Stack(Reordered(s.layers)), []) == Some([0])
  {
    hide Run, StaleCmds, StaleExample;
    StaleRun(n);
    StaleRead(n);
  }

  /** Reopening keeps every read for all contents of the tables exactly when there are at most ten of them. */
  lemma ReopenKeepsReads(n: nat)
    ensures (forall layers: seq<Layer> | |layers| == n :: Stack(Reordered(layers)) == Stack(layers)) <==> n <= 10
  {
    if n <= 10 {
      forall layers: seq<Layer> | |layers| == n
        ensures Stack(Reordered(layers)) == Stack(layers)
      {
        ListingByAge(n);
        forall j | 0 <= j < n
          ensures Reordered(layers)[j] == layers[j]
        {
          ReorderedAt(layers, j, j);
        }
        assert Reordered(layers) == layers;
      }
    } else {
      StaleRead(n);
      assert |StaleExample(n)| == n;
    }
  }

  // ---------- opening ----------

  ghost function LayerOf(file: Bytes): Layer {
    match ReadTable(file)
    case Some(kvs) => ToMap(kvs)
    case None => map[]
  }

  ghost function LayersIn(files: map<string, Bytes>, ns: seq<string>): (r: seq<Layer>)
    requires forall n | n in ns :: n in files
    ensures |r| == |ns| && forall i | 0 <= i < |ns| :: r[i] == LayerOf(files[ns[i]])
  {
    seq(|ns|, i requires 0 <= i < |ns| => LayerOf(files[ns[i]]))
  }

  /** The store that the constructor of DB makes of a disk. */
  ghost function Opened(d: Disk, now: nat): Store {
    Store(ApplyAll(NO_CELLS, OpsOf(d.wal), now), LayersIn(d.files, Listing(d.files.Keys)), OpsOf(d.wal))
  }

  // ---------- what a crash can lose ----------

  /** Without times to live replay does not depend on when it happens. */
  lemma {:induction false} ReplayTimeless(m: MemState, ops: seq<Op>, t: nat, u: nat)
    requires NoTtl(ops) && Forever(m.cells)
    ensures ApplyAll(m, ops, t) == ApplyAll(m, ops, u) && Forever(ApplyAll(m, ops, t).cells)
    decreases |ops|
  {
    if ops != [] {
      assert Apply(m, ops[0], t) == Apply(m, ops[0], u);
      ReplayTimeless(Apply(m, ops[0], t), ops[1..], t, u);
    }
  }

  /** The memtable is the log replayed from nothing, and the log can be written and has no times to live. */
  ghost predicate Logged(s: Store) {
    NoTtl(s.log) && AllEncodable(s.log) && s.mem == ApplyAll(NO_CELLS, s.log, 0)
  }

  lemma WrittenLogged(s: Store, op: Op, now: nat)
    requires Logged(s) && Encodable(op) && (op.Put? ==> op.stamp == 0)
    ensures Logged(Written(s, op, now)) && Forever(s.mem.cells) && Forever(Written(s, op, now).mem.cells)
  {
    ApplyAllAppend(NO_CELLS, s.log, op, 0);
    ReplayTimeless(NO_CELLS, s.log, 0, 0);
    ReplayTimeless(NO_CELLS, s.log + [op], 0, 0);
  }

  lemma FlushedLogged(s: Store, limit: nat, now: nat)
    requires Logged(s)
    ensures Logged(Flushed(s, limit, now))
  {
  }

  /** Reopening from the files of a store and a log that replays to ops. */
  lemma OpenedShows(s: Store, d: Disk, ns: seq<string>, ops: seq<Op>, t: nat)
    requires InTextOrder(ns, d.files.Keys) && OpsOf(d.wal) == ops && NoTtl(ops)
    ensures Opened(d, t) == Store(ApplyAll(NO_CELLS, ops, 0), LayersIn(d.files, ns), ops)
  {
    ListingIs(ns, d.files.Keys);
    ReplayTimeless(NO_CELLS, ops, t, 0);
  }

  /**
   A crash while a record is being appended, after any byte of it: the reopened store is the one
   before the operation or the one after it, never anything else.
   */
  lemma CrashInAppend(s: Store, op: Op, d: Disk, ns: seq<string>, now: nat, t: nat)
    requires Logged(s) && Encodable(op) && (op.Put? ==> op.stamp == 0)
    requires InTextOrder(ns, d.files.Keys) && s.layers == LayersIn(d.files, ns)
    requires Encode(s.log) <= d.wal <= Encode(s.log) + Record(op)
    ensures Opened(d, t) == s || Opened(d, t) == Written(s, op, now)
  {
    var n := |d.wal| - |Encode(s.log)|;
    assert d.wal == Encode(s.log) + Record(op)[..n];
    TornAppendReplays(s.log, op, n);
    WrittenLogged(s, op, now);
    OpenedShows(s, d, ns, if n < |Record(op)| then s.log else s.log + [op], t);
  }

  /** A flushed memtable under itself, or alone, reads as before the flush. */
  lemma FlushedTwice(layers: seq<Layer>, live: Layer)
    ensures Stack(layers + [live]) + live == Stack(layers) + live == Stack(layers + [live])
  {
  }

  /** A crash after the table is built and before the log is rotated: the data is there twice and reads the same. */
  lemma CrashAfterBuild(w: Store, d: Disk, ns: seq<string>, now: nat, t: nat)
    requires Logged(w) && Forever(w.mem.cells) && d.wal == Encode(w.log)
    requires InTextOrder(ns, d.files.Keys) && LayersIn(d.files, ns) == w.layers + [Live(w.mem.cells, now)]
    ensures Shown(Opened(d, t), t) == Shown(w, now)
  {
    hide OpsOf, Encode, Stack, Live, Forever, InTextOrder, ApplyAll, Opened;
    FullReplay(w.log);
    OpenedShows(w, d, ns, w.log, t);
    ForeverIsTimeless(w.mem.cells, t, now);
    FlushedTwice(w.layers, Live(w.mem.cells, now));
  }

  /** A crash after the log is rotated. */
  lemma CrashAfterRotate(w: Store, d: Disk, ns: seq<string>, now: nat, t: nat)
    requires d.wal == []
    requires InTextOrder(ns, d.files.Keys) && LayersIn(d.files, ns) == w.layers + [Live(w.mem.cells, now)]
    ensures Shown(Opened(d, t), t) == Shown(w, now)
  {
    hide Stack, Forever, InTextOrder, Opened;
    OpenedShows(w, d, ns, [], t);
    FlushedTwice(w.layers, Live(w.mem.cells, now));
    assert Live(map[], t) == map[];
  }
}
