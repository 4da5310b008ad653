/**
 What a run of puts and deletes comes to, told from the commands themselves: which of them a flush
 puts together into a table, and what a read shows at any time (MiniVaultDB/src/db/db.cpp:55-131,
 206-257, MiniVaultDB/src/engine/memtable.cpp:13-51).
 */
module Histories {
  import opened ByteStrings
  import opened Wrappers
  import opened Cells = HashTable
  import opened Memory
  import opened Log
  import opened SortedTable
  import opened Layers

  /** The command at i is the last one on the key. */
  ghost predicate LastOn(cmds: seq<Cmd>, i: int, key: Bytes) {
    0 <= i < |cmds| && cmds[i].op.key == key && forall j | i < j < |cmds| :: cmds[j].op.key != key
  }

  /** The key was put, and not deleted since. */
  ghost predicate Present(cmds: seq<Cmd>, key: Bytes) {
    exists i :: LastOn(cmds, i, key) && cmds[i].op.Put?
  }

  /** A put key and value count, and the key once more when it is deleted. */
  ghost function BytesOf(cmds: seq<Cmd>): nat {
    if cmds == [] then 0
    else
      var before, op := cmds[..|cmds| - 1], cmds[|cmds| - 1].op;
      BytesOf(before) + if op.Put? then |op.key| + |op.value| else if Present(before, op.key) then |op.key| else 0
  }

  /** What was put can be read at a time: always without a time to live, else up to the 64-bit sum; the sum 0 means always, too. */
  ghost predicate Readable(c: Cmd, t: nat) {
    && c.op.Put?
    && (c.op.stamp == 0 || var end := (c.at + c.op.stamp) % 0x1_0000_0000_0000_0000; end == 0 || t <= end)
  }

  /** The commands since the last flush: a flush comes as soon as they count as many bytes as the limit. */
  ghost function Pending(cmds: seq<Cmd>, limit: nat): seq<Cmd> {
    if cmds == [] then []
    else
      var p := Pending(cmds[..|cmds| - 1], limit) + [cmds[|cmds| - 1]];
      if BytesOf(p) >= limit then [] else p
  }

  /** The commands of each flush, oldest first. */
  ghost function Flushes(cmds: seq<Cmd>, limit: nat): seq<seq<Cmd>> {
    if cmds == [] then []
    else
      var p := Pending(cmds[..|cmds| - 1], limit) + [cmds[|cmds| - 1]];
      Flushes(cmds[..|cmds| - 1], limit) + if BytesOf(p) >= limit then [p] else []
  }

  ghost function OpsIn(cmds: seq<Cmd>): seq<Op> {
    seq(|cmds|, i requires 0 <= i < |cmds| => cmds[i].op)
  }

  /** The map has the value that was last put for each key that can be read, and no other key. */
  ghost predicate Shows(m: Layer, cmds: seq<Cmd>, t: nat) {
    && (forall key :: key in m <==> exists i :: LastOn(cmds, i, key) && Readable(cmds[i], t))
    && (forall key, i | LastOn(cmds, i, key) && key in m :: cmds[i].op.Put? && m[key] == cmds[i].op.value)
  }

  // ---------- the memtable ----------

  ghost predicate Mirrors(m: MemState, cmds: seq<Cmd>) {
    && m.bytes == BytesOf(cmds)
    && (forall key :: key in m.cells <==> Present(cmds, key))
    && (forall key, i | LastOn(cmds, i, key) && cmds[i].op.Put? ::
          m.cells[key] == Cell(cmds[i].op.value, ExpireAt(cmds[i].op.stamp, cmds[i].at)))
  }

  lemma LastOnNext(cmds: seq<Cmd>, c: Cmd, key: Bytes, i: int)
    ensures LastOn(cmds + [c], i, key) <==> if c.op.key == key then i == |cmds| else LastOn(cmds, i, key)
  {
    var all := cmds + [c];
    assert all[|cmds|] == c;
    assert forall j | 0 <= j < |cmds| :: all[j] == cmds[j];
  }

  lemma MirrorsNext(s: Store, cmds: seq<Cmd>, c: Cmd)
    requires Mirrors(s.mem, cmds)
    ensures Mirrors(Written(s, c.op, c.at).mem, cmds + [c])
  {
    hide LastOn, ExpireAt;
    var all := cmds + [c];
    assert all[..|cmds|] == cmds && all[|cmds|] == c;
    forall key, i {
      LastOnNext(cmds, c, key, i);
    }
    forall key, i | LastOn(cmds, i, key)
      ensures 0 <= i < |cmds| && all[i] == cmds[i]
    {
      LastOnBounds(cmds, i, key);
    }
    assert LastOn(all, |cmds|, c.op.key);
  }

  lemma LastOnBounds(cmds: seq<Cmd>, i: int, key: Bytes)
    ensures LastOn(cmds, i, key) ==> 0 <= i < |cmds|
  {
  }

  lemma OneLast(cmds: seq<Cmd>, i: int, j: int, key: Bytes)
    requires LastOn(cmds, i, key) && LastOn(cmds, j, key)
    ensures i == j
  {
  }

  lemma MirrorsNothing()
    ensures Mirrors(NO_CELLS, [])
  {
  }

  /** The entries that have not expired are the ones that can be read, and those that have expired the other puts. */
  lemma LiveShows(m: MemState, cmds: seq<Cmd>, t: nat)
    requires Mirrors(m, cmds)
    ensures Shows(Live(m.cells, t), cmds, t)
    ensures forall key :: key in Dead(m.cells, t) <==> exists i :: LastOn(cmds, i, key) && cmds[i].op.Put? && !Readable(cmds[i], t)
  {
    hide Mirrors, Live, Dead, Readable;
    forall key, i | LastOn(cmds, i, key)
      ensures key in Live(m.cells, t) <==> Readable(cmds[i], t)
      ensures key in Dead(m.cells, t) <==> cmds[i].op.Put? && !Readable(cmds[i], t)
      ensures key in Live(m.cells, t) ==> cmds[i].op.Put? && Live(m.cells, t)[key] == cmds[i].op.value
    {
      LiveAt(m, cmds, t, key, i);
    }
    forall key | key in Live(m.cells, t) || key in Dead(m.cells, t)
      ensures Present(cmds, key)
    {
      LivePresent(m, cmds, t, key);
    }
  }

  lemma LiveAt(m: MemState, cmds: seq<Cmd>, t: nat, key: Bytes, i: int)
    requires Mirrors(m, cmds) && LastOn(cmds, i, key)
    ensures key in Live(m.cells, t) <==> Readable(cmds[i], t)
    ensures key in Dead(m.cells, t) <==> cmds[i].op.Put? && !Readable(cmds[i], t)
    ensures key in Live(m.cells, t) ==> cmds[i].op.Put? && Live(m.cells, t)[key] == cmds[i].op.value
  {
    hide Expired, ExpireAt, Readable, BytesOf;
    OnlyPutsRead(cmds[i], t);
    if Present(cmds, key) {
      var j :| LastOn(cmds, j, key) && cmds[j].op.Put?;
      OneLast(cmds, i, j, key);
    }
    assert cmds[i].op.Put? ==> Present(cmds, key);
  }

  /** The stamp that a put leaves runs out exactly when the put can no longer be read. */
  lemma OnlyPutsRead(c: Cmd, t: nat)
    ensures Readable(c, t) <==> c.op.Put? && !Expired(Cell(c.op.value, ExpireAt(c.op.stamp, c.at)), t)
  {
  }

  lemma LivePresent(m: MemState, cmds: seq<Cmd>, t: nat, key: Bytes)
    requires Mirrors(m, cmds) && (key in Live(m.cells, t) || key in Dead(m.cells, t))
    ensures Present(cmds, key)
  {
    hide LastOn;
  }

  // ---------- whole runs ----------

  /** Each table has what could be read, at the moment of its flush, of the commands that it stands for. */
  ghost predicate TablesShow(layers: seq<Layer>, flushes: seq<seq<Cmd>>) {
    && |layers| == |flushes|
    && forall k | 0 <= k < |layers| :: flushes[k] != [] && Shows(layers[k], flushes[k], flushes[k][|flushes[k]| - 1].at)
  }

  /**
   After any run, times to live included: the byte count is that of the pending commands, the log
   holds just these, the memtable shows them, and the tables are those of the flushes.
   */
  lemma {:induction false} RunByHistory(cmds: seq<Cmd>, limit: nat)
    ensures var s, p := Run(cmds, limit), Pending(cmds, limit);
            && s.mem.bytes == BytesOf(p) && s.log == OpsIn(p) && TablesShow(s.layers, Flushes(cmds, limit)) && Mirrors(s.mem, p)
  {
    hide Mirrors, BytesOf, TablesShow, Step;
    MirrorsNothing();
    NoBytes();
    NoTables();
    if cmds != [] {
      var front, c := cmds[..|cmds| - 1], cmds[|cmds| - 1];
      RunByHistory(front, limit);
      HistoryStep(Run(front, limit), Pending(front, limit), Flushes(front, limit), c, limit);
      assert Flushes(front, limit) + [] == Flushes(front, limit);
    }
  }

  lemma HistoryStep(s: Store, p: seq<Cmd>, fs: seq<seq<Cmd>>, c: Cmd, limit: nat)
    requires Mirrors(s.mem, p) && s.log == OpsIn(p) && TablesShow(s.layers, fs)
    ensures var r, q := Step(s, c.op, limit, c.at), p + [c];
            if BytesOf(q) >= limit then r.mem == NO_CELLS && r.log == [] && TablesShow(r.layers, fs + [q])
            else Mirrors(r.mem, q) && r.mem.bytes == BytesOf(q) && r.log == OpsIn(q) && TablesShow(r.layers, fs)
  {
    hide Mirrors, Shows, BytesOf, Live, Written, TablesShow;
    var w, q := Written(s, c.op, c.at), p + [c];
    MirrorsNext(s, p, c);
    WrittenParts(s, c.op, c.at);
    MirroredBytes(w.mem, q);
    LiveShows(w.mem, q, c.at);
    TablesAppend(s.layers, fs, Live(w.mem.cells, c.at), q);
    assert OpsIn(q) == OpsIn(p) + [c.op];
  }

  lemma TablesAppend(layers: seq<Layer>, fs: seq<seq<Cmd>>, newest: Layer, q: seq<Cmd>)
    requires TablesShow(layers, fs) && q != [] && Shows(newest, q, q[|q| - 1].at)
    ensures TablesShow(layers + [newest], fs + [q])
  {
    hide Shows;
  }

  lemma NoTables()
    ensures TablesShow([], [])
  {
  }

  lemma WrittenParts(s: Store, op: Op, now: nat)
    ensures Written(s, op, now).layers == s.layers && Written(s, op, now).log == s.log + [op]
    ensures op.Put? ==> Written(s, op, now).mem == AfterPut(s.mem, op.key, op.value, op.stamp, now)
  {
  }

  lemma NoBytes()
    ensures BytesOf([]) == 0
  {
  }

  lemma MirroredBytes(m: MemState, cmds: seq<Cmd>)
    requires Mirrors(m, cmds)
    ensures m.bytes == BytesOf(cmds)
  {
  }

  /** The key can be read among these commands, at this time. */
  ghost predicate CanRead(cmds: seq<Cmd>, key: Bytes, t: nat) {
    exists i :: LastOn(cmds, i, key) && Readable(cmds[i], t)
  }

  ghost predicate FlushedWith(flush: seq<Cmd>, key: Bytes) {
    flush != [] && CanRead(flush, key, flush[|flush| - 1].at)
  }

  ghost predicate LastPut(cmds: seq<Cmd>, key: Bytes, value: Bytes) {
    exists i :: LastOn(cmds, i, key) && cmds[i].op.Put? && cmds[i].op.value == value
  }

  /** The answer of a read: from the pending commands if the key can be read there, else from the latest flush where it could. */
  ghost predicate Answers(cmds: seq<Cmd>, limit: nat, key: Bytes, t: nat, value: Bytes) {
    var p, fs := Pending(cmds, limit), Flushes(cmds, limit);
    if CanRead(p, key, t) then LastPut(p, key, value)
    else exists k :: 0 <= k < |fs| && FlushedWith(fs[k], key) && LastPut(fs[k], key, value)
                     && forall l | k < l < |fs| :: !FlushedWith(fs[l], key)
  }

  lemma ShownValue(m: Layer, cmds: seq<Cmd>, t: nat, key: Bytes)
    requires Shows(m, cmds, t)
    ensures key in m <==> CanRead(cmds, key, t)
    ensures key in m ==> forall v :: m[key] == v <==> LastPut(cmds, key, v)
  {
    if key in m {
      var i :| LastOn(cmds, i, key) && Readable(cmds[i], t);
      assert m[key] == cmds[i].op.value;
    }
  }

  lemma {:induction false} StackByFlushes(layers: seq<Layer>, fs: seq<seq<Cmd>>, key: Bytes, value: Bytes)
    requires TablesShow(layers, fs)
    ensures Lookup(Stack(layers), key) == Some(value)
            <==> exists k :: 0 <= k < |fs| && FlushedWith(fs[k], key) && LastPut(fs[k], key, value)
                             && forall l | k < l < |fs| :: !FlushedWith(fs[l], key)
    decreases |layers|
  {
    hide Shows, LastPut, CanRead;
    if layers != [] {
      var n := |fs| - 1;
      var front := fs[..n];
      StackByFlushes(layers[..n], front, key, value);
      ShownValue(layers[n], fs[n], fs[n][|fs[n]| - 1].at, key);
      assert forall k | 0 <= k < n :: front[k] == fs[k];
    }
  }

  /** A read at any time after any run answers from the history of the commands alone. */
  lemma ReadByHistory(cmds: seq<Cmd>, limit: nat, key: Bytes, t: nat, value: Bytes)
    ensures Lookup(Shown(Run(cmds, limit), t), key) == Some(value) <==> Answers(cmds, limit, key, t, value)
  {
    hide Run, Shows, LastPut, CanRead, Stack, Live, FlushedWith;
    var s := Run(cmds, limit);
    RunByHistory(cmds, limit);
    LiveShows(s.mem, Pending(cmds, limit), t);
    ShownValue(Live(s.mem.cells, t), Pending(cmds, limit), t, key);
    StackByFlushes(s.layers, Flushes(cmds, limit), key, value);
  }

  /** A scan answers alike, except that a put whose time is over hides what was flushed before. */
  lemma ScanByHistory(cmds: seq<Cmd>, limit: nat, key: Bytes, t: nat, value: Bytes)
    ensures var s, p := Run(cmds, limit), Pending(cmds, limit);
            Lookup(Scanned(s.mem.cells, map[], s.layers, t), key) == Some(value)
            <==> Answers(cmds, limit, key, t, value) && (Present(p, key) ==> CanRead(p, key, t))
  {
    hide Run, Shows, LastPut, CanRead, Stack, Live, Dead, Mirrors, FlushedWith;
    var s, p := Run(cmds, limit), Pending(cmds, limit);
    RunByHistory(cmds, limit);
    LiveShows(s.mem, p, t);
    ShownValue(Live(s.mem.cells, t), p, t, key);
    StackByFlushes(s.layers, Flushes(cmds, limit), key, value);
    ScannedParts(s, key, t);
    PresentOrNot(s.mem, p, key, t);
  }

  lemma NoCells(t: nat)
    ensures Live(map[], t) == map[] && Dead(map[], t) == {}
  {
  }

  lemma ScannedParts(s: Store, key: Bytes, t: nat)
    ensures Lookup(Scanned(s.mem.cells, map[], s.layers, t), key)
            == if key in Live(s.mem.cells, t) then Some(Live(s.mem.cells, t)[key])
               else if key in Dead(s.mem.cells, t) then None else Lookup(Stack(s.layers), key)
  {
    hide Stack;
    NoCells(t);
  }

  lemma PresentOrNot(m: MemState, cmds: seq<Cmd>, key: Bytes, t: nat)
    requires Mirrors(m, cmds)
    ensures Present(cmds, key) <==> key in Live(m.cells, t) || key in Dead(m.cells, t)
  {
    hide LastOn;
  }

  /** A read right after a put, at the same time or later: the value is there until its time is over, and from then on what the tables had. */
  lemma PutThenRead(cmds: seq<Cmd>, limit: nat, key: Bytes, value: Bytes, ttl: nat, now: nat, t: nat)
    requires 0 < now <= t && now + ttl < 0x1_0000_0000_0000_0000
    ensures var all := cmds + [Cmd(Put(key, value, ttl), now)];
            var flushed := BytesOf(Pending(cmds, limit) + [Cmd(Put(key, value, ttl), now)]) >= limit;
            Lookup(Shown(Run(all, limit), t), key)
            == if ttl == 0 || t <= now + ttl || flushed then Some(value) else Lookup(Stack(Run(cmds, limit).layers), key)
  {
    hide BytesOf, Run, Shows, Mirrors, Stack, Live, Written, Flushed, AfterPut;
    var c := Cmd(Put(key, value, ttl), now);
    var all := cmds + [c];
    var s := Run(cmds, limit);
    assert all[..|cmds|] == cmds;
    RunNextStore(cmds, limit, c);
    RunByHistory(cmds, limit);
    var w := Written(s, c.op, c.at);
    WrittenParts(s, c.op, c.at);
    MirrorsNext(s, Pending(cmds, limit), c);
    MirroredBytes(w.mem, Pending(cmds, limit) + [c]);
    PutLives(s.mem, key, value, ttl, now, now);
    PutLives(s.mem, key, value, ttl, now, t);
    FlushedParts(w, limit, now);
    StackAppend(s.layers, Live(w.mem.cells, now));
  }

  lemma RunNextStore(cmds: seq<Cmd>, limit: nat, c: Cmd)
    ensures Run(cmds + [c], limit) == Step(Run(cmds, limit), c.op, limit, c.at)
  {
    hide Step;
    assert (cmds + [c])[..|cmds|] == cmds;
  }

  lemma FlushedParts(s: Store, limit: nat, now: nat)
    ensures Flushed(s, limit, now) == if s.mem.bytes >= limit then Store(NO_CELLS, s.layers + [Live(s.mem.cells, now)], []) else s
    ensures forall t :: Live(NO_CELLS.cells, t) == map[]
  {
    assert forall t :: Live(NO_CELLS.cells, t) == map[];
  }

  lemma PutLives(m: MemState, key: Bytes, value: Bytes, ttl: nat, now: nat, t: nat)
    requires 0 < now && now + ttl < 0x1_0000_0000_0000_0000
    ensures Lookup(Live(AfterPut(m, key, value, ttl, now).cells, t), key) == if ttl == 0 || t <= now + ttl then Some(value) else None
  {
  }

  // ---------- what a replay of the log restores ----------

  /** The operation at i is the last one on the key. */
  ghost predicate LastOp(ops: seq<Op>, i: int, key: Bytes) {
    0 <= i < |ops| && ops[i].key == key && forall j | i < j < |ops| :: ops[j].key != key
  }

  /** The commands that a replay amounts to. */
  ghost function Replayed(ops: seq<Op>, now: nat): seq<Cmd> {
    seq(|ops|, i requires 0 <= i < |ops| =>
      Cmd(match ops[i] case Put(key, value, stamp) => Put(key, value, Remaining(stamp, now)) case Del(key) => Del(key), now))
  }

  lemma {:induction false} ReplayMirrors(ops: seq<Op>, now: nat)
    ensures Mirrors(ApplyAll(NO_CELLS, ops, now), Replayed(ops, now))
  {
    hide Mirrors, Remaining, AfterPut, AfterDel;
    if ops == [] {
      MirrorsNothing();
      assert Replayed(ops, now) == [];
    } else {
      var front, op := ops[..|ops| - 1], ops[|ops| - 1];
      ReplayMirrors(front, now);
      ApplyAllAppend(NO_CELLS, front, op, now);
      assert ops == front + [op];
      var c := Replayed(ops, now)[|ops| - 1];
      assert Replayed(ops, now) == Replayed(front, now) + [c];
      MirrorsNext(Store(ApplyAll(NO_CELLS, front, now), [], []), Replayed(front, now), c);
    }
  }

  lemma RemainingReads(value: Bytes, key: Bytes, stamp: nat, now: nat, t: nat)
    requires stamp < 0x1_0000_0000_0000_0000 && now < 0x1_0000_0000_0000_0000
    ensures Readable(Cmd(Put(key, value, Remaining(stamp, now)), now), t) <==> stamp == 0 || stamp == now || t <= stamp
  {
  }

  /**
   What can be read of a replayed log: the last put of a key, at any time if its logged stamp is 0 or just
   the time of the replay, and else up to the stamp itself. The byte count is that of the logged operations.
   */
  lemma ReplayByHistory(ops: seq<Op>, now: nat, t: nat, key: Bytes, value: Bytes)
    requires AllEncodable(ops) && now < 0x1_0000_0000_0000_0000
    ensures var m := ApplyAll(NO_CELLS, ops, now);
            && m.bytes == BytesOf(Replayed(ops, now))
            && (Lookup(Live(m.cells, t), key) == Some(value)
                <==> exists i :: LastOp(ops, i, key) && ops[i].Put? && ops[i].value == value
                                 && (ops[i].stamp == 0 || ops[i].stamp == now || t <= ops[i].stamp))
  {
    hide Mirrors, Remaining, Live, Readable, BytesOf;
    var m, cs := ApplyAll(NO_CELLS, ops, now), Replayed(ops, now);
    ReplayMirrors(ops, now);
    MirroredBytes(m, cs);
    LiveShows(m, cs, t);
    forall i | 0 <= i < |ops| && ops[i].Put?
      ensures Readable(cs[i], t) <==> ops[i].stamp == 0 || ops[i].stamp == now || t <= ops[i].stamp
    {
      RemainingReads(ops[i].value, ops[i].key, ops[i].stamp, now, t);
    }
    assert forall j | 0 <= j < |ops| :: cs[j].op.key == ops[j].key;
  }
}
