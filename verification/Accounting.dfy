/** The memtable's byte count bounds what it holds, so that every offset of a flushed table fits its 64-bit field. */
module Accounting {
  import opened ByteStrings
  import opened Crc32
  import opened Cells = HashTable
  import opened Memory
  import opened Log
  import opened SortedTable

  /** A limit on memtables and logs, far above any that fits in memory. */
  const LARGE: nat := 0x200_0000_0000_0000

  function Weight(kvs: KVs): nat {
    if kvs == [] then 0 else Weight(kvs[..|kvs| - 1]) + |kvs[|kvs| - 1].0| + |kvs[|kvs| - 1].1|
  }

  /** kvs lists entries of the memtable, none twice. */
  ghost predicate Lists(kvs: KVs, cells: Mem) {
    && (forall i | 0 <= i < |kvs| :: kvs[i].0 in cells && cells[kvs[i].0].value == kvs[i].1)
    && (forall i, j | 0 <= i < j < |kvs| :: kvs[i].0 != kvs[j].0)
  }

  /** The byte count never undercounts the entries. */
  ghost predicate Counted(m: MemState) {
    forall kvs: KVs | Lists(kvs, m.cells) :: Weight(kvs) <= m.bytes
  }

  ghost predicate CellsFit(cells: Mem) {
    forall k | k in cells :: |k| < U32_LIMIT && |cells[k].value| < U32_LIMIT
  }

  function Without(kvs: KVs, i: nat): KVs
    requires i < |kvs|
  {
    kvs[..i] + kvs[i + 1..]
  }

  lemma {:induction false} WeightWithout(kvs: KVs, i: nat)
    requires i < |kvs|
    ensures Weight(kvs) == Weight(Without(kvs, i)) + |kvs[i].0| + |kvs[i].1|
  {
    var last := |kvs| - 1;
    if i == last {
      assert Without(kvs, i) == kvs[..last];
    } else {
      WeightWithout(kvs[..last], i);
      assert Without(kvs, i)[..last - 1] == Without(kvs[..last], i);
    }
  }

  lemma CountedPut(m: MemState, key: Bytes, value: Bytes, ttl: nat, now: nat)
    requires Counted(m)
    ensures Counted(AfterPut(m, key, value, ttl, now))
  {
    hide Weight, ExpireAt;
    var n := AfterPut(m, key, value, ttl, now);
    forall kvs: KVs | Lists(kvs, n.cells)
      ensures Weight(kvs) <= n.bytes
    {
      if exists i :: 0 <= i < |kvs| && kvs[i].0 == key {
        var i :| 0 <= i < |kvs| && kvs[i].0 == key;
        WeightWithout(kvs, i);
        assert Lists(Without(kvs, i), m.cells);
      } else {
        assert Lists(kvs, m.cells);
      }
    }
  }

  lemma CountedDel(m: MemState, key: Bytes)
    requires Counted(m)
    ensures Counted(AfterDel(m, key))
  {
  }

  lemma CountedFewer(m: MemState, cells: Mem)
    requires Counted(m) && forall k | k in cells :: k in m.cells && cells[k] == m.cells[k]
    ensures Counted(MemState(cells, m.bytes))
  {
  }

  lemma CountedEmpty()
    ensures Counted(NO_CELLS)
  {
  }

  /** Replay keeps the count, and it counts no more bytes than the log has. */
  lemma {:induction false} CountedReplay(m: MemState, data: Bytes, now: nat)
    requires Counted(m) && CellsFit(m.cells)
    ensures Counted(ApplyAll(m, OpsOf(data), now)) && CellsFit(ApplyAll(m, OpsOf(data), now).cells)
    ensures ApplyAll(m, OpsOf(data), now).bytes <= m.bytes + |data|
    decreases |data|
  {
    hide Counted, Checksum, FieldBytes, Number;
    var p := Parse(data);
    if p.Got? {
      if p.op.Put? {
        CountedPut(m, p.op.key, p.op.value, Remaining(p.op.stamp, now), now);
      } else {
        CountedDel(m, p.op.key);
      }
      CountedReplay(Apply(m, p.op, now), data[p.size..], now);
    }
  }

  lemma {:induction false} NonemptyKeys(kvs: KVs)
    requires forall i | 0 <= i < |kvs| :: kvs[i].0 != []
    ensures |kvs| <= Weight(kvs)
  {
    if kvs != [] { NonemptyKeys(kvs[..|kvs| - 1]); }
  }

  /** Only one key is empty, so there are hardly more entries than bytes. */
  lemma FewEntries(kvs: KVs)
    requires forall i, j | 0 <= i < j < |kvs| :: kvs[i].0 != kvs[j].0
    ensures |kvs| <= Weight(kvs) + 1
  {
    hide Weight;
    if exists i :: 0 <= i < |kvs| && kvs[i].0 == [] {
      var i :| 0 <= i < |kvs| && kvs[i].0 == [];
      WeightWithout(kvs, i);
      NonemptyKeys(Without(kvs, i));
    } else {
      NonemptyKeys(kvs);
    }
  }

  lemma {:induction false} DataSize(kvs: KVs)
    requires SizesFit(kvs)
    ensures |Data(kvs)| == 20 * |kvs| + Weight(kvs)
  {
    hide RecordOf;
    if kvs != [] { DataSize(kvs[..|kvs| - 1]); }
  }

  lemma {:induction false} IndexSize(kvs: KVs, es: seq<IndexEntry>)
    requires KeysFit(es) && |es| == |kvs| && forall i | 0 <= i < |kvs| :: es[i].key == kvs[i].0
    ensures |IndexBytes(es)| <= 12 * |kvs| + Weight(kvs)
    decreases |kvs|
  {
    hide EntryBytes;
    if kvs != [] {
      var last := |kvs| - 1;
      IndexBytesAppend(es, last);
      assert es[..last + 1] == es;
      IndexSize(kvs[..last], es[..last]);
    }
  }

  /** A table of entries that a bounded memtable holds fits its fields. */
  lemma FlushFits(m: MemState, kvs: KVs)
    requires Counted(m) && CellsFit(m.cells) && m.bytes < 2 * LARGE && Lists(kvs, m.cells)
    ensures Fits(kvs)
  {
    hide Data, IndexBytes;
    FewEntries(kvs);
    DataSize(kvs);
    IndexSize(kvs, Index(kvs));
  }
}
