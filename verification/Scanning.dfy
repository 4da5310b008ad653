/** The loops of DB::scan_prefix: gathering one layer at a time, then sorting (MiniVaultDB/src/db/db.cpp:115-171). */
module Scanning {
  import opened ByteStrings
  import opened Wrappers
  import opened Sorting
  import opened Cells = HashTable
  import opened Memory
  import opened SortedTable
  import opened Layers
  import opened Directories

  // ---------- one memtable ----------

  function PartLive(es: seq<(Bytes, Cell)>, p: Bytes, now: nat): Layer {
    if es == [] then map[]
    else
      var rest, e := PartLive(es[..|es| - 1], p, now), es[|es| - 1];
      if HasPrefix(e.0, p) && !Expired(e.1, now) then rest[e.0 := e.1.value] else rest
  }

  function PartDead(es: seq<(Bytes, Cell)>, p: Bytes, now: nat): set<Bytes> {
    if es == [] then {}
    else
      var rest, e := PartDead(es[..|es| - 1], p, now), es[|es| - 1];
      if HasPrefix(e.0, p) && Expired(e.1, now) then rest + {e.0} else rest
  }

  lemma {:induction false} PartKeys(es: seq<(Bytes, Cell)>, p: Bytes, now: nat, k: Bytes)
    requires forall i | 0 <= i < |es| :: es[i].0 != k
    ensures k !in PartLive(es, p, now) && k !in PartDead(es, p, now)
  {
    hide HasPrefix, Expired;
    if es != [] { PartKeys(es[..|es| - 1], p, now, k); }
  }

  lemma {:induction false} PartEntry(es: seq<(Bytes, Cell)>, p: Bytes, now: nat, i: nat)
    requires i < |es| && forall i, j | 0 <= i < j < |es| :: es[i].0 != es[j].0
    ensures es[i].0 in PartDead(es, p, now) <==> HasPrefix(es[i].0, p) && Expired(es[i].1, now)
    ensures Lookup(PartLive(es, p, now), es[i].0)
            == if HasPrefix(es[i].0, p) && !Expired(es[i].1, now) then Some(es[i].1.value) else None
  {
    hide HasPrefix, Expired;
    var last := |es| - 1;
    if i == last {
      PartKeys(es[..last], p, now, es[i].0);
    } else {
      PartEntry(es[..last], p, now, i);
    }
  }

  /** Going through all entries collects the live and the expired keys with the prefix. */
  lemma PartsAreWhole(es: seq<(Bytes, Cell)>, cells: Mem, p: Bytes, now: nat)
    requires Entries(es, cells)
    ensures PartLive(es, p, now) == Only(Live(cells, now), p)
    ensures PartDead(es, p, now) == OnlyKeys(Dead(cells, now), p)
  {
    hide HasPrefix, Expired, PartLive, PartDead;
    forall k
      ensures Lookup(PartLive(es, p, now), k) == Lookup(Only(Live(cells, now), p), k)
      ensures k in PartDead(es, p, now) <==> k in OnlyKeys(Dead(cells, now), p)
    {
      if k in cells {
        var i :| 0 <= i < |es| && es[i] == (k, cells[k]);
        PartEntry(es, p, now, i);
      } else {
        PartKeys(es, p, now, k);
      }
    }
    SameReads(PartLive(es, p, now), Only(Live(cells, now), p));
  }

  /** What the loop does with one entry whose key it has not met in this memtable. */
  lemma GatherEntry(g: Gathered, live: Layer, dead: set<Bytes>, k: Bytes, v: Bytes)
    requires k !in live && k !in dead
    ensures Gather(g, live[k := v], dead)
            == if k !in Gather(g, live, dead).seen && k !in Gather(g, live, dead).deleted
               then Gather(g, live, dead).(seen := Gather(g, live, dead).seen[k := v]) else Gather(g, live, dead)
    ensures Gather(g, live, dead + {k})
            == if k !in Gather(g, live, dead).seen && k !in Gather(g, live, dead).deleted
               then Gather(g, live, dead).(deleted := Gather(g, live, dead).deleted + {k}) else Gather(g, live, dead)
  {
  }

  /** One memtable's share of the scan. */
  method GatherMem(mem: MemTable, p: Bytes, now: nat, g: Gathered) returns (r: Gathered)
    requires mem.Valid()
    ensures r == Gather(g, Only(Live(mem.State().cells, now), p), OnlyKeys(Dead(mem.State().cells, now), p))
  {
    hide HasPrefix, Expired, Gather, HashTable.WellFormed, HashTable.Balanced;
    var es := mem.ForEach();
    assert Entries(es, mem.State().cells);
    r := g;
    GatherNothing(g);
    var i := 0;
    while i < |es|
      invariant 0 <= i <= |es| && r == Gather(g, PartLive(es[..i], p, now), PartDead(es[..i], p, now))
    {
      var k, cell := es[i].0, es[i].1;
      assert es[..i + 1][..i] == es[..i];
      PartKeys(es[..i], p, now, k);
      GatherEntry(g, PartLive(es[..i], p, now), PartDead(es[..i], p, now), k, cell.value);
      if HasPrefix(k, p) {
        if k !in r.seen && k !in r.deleted {
          if !Expired(cell, now) {
            r := r.(seen := r.seen[k := cell.value]);
          } else {
            r := r.(deleted := r.deleted + {k});
          }
        }
      }
      i := i + 1;
    }
    assert es[..i] == es;
    PartsAreWhole(es, mem.State().cells, p, now);
  }

  lemma GatherNothing(g: Gathered)
    ensures Gather(g, map[], {}) == g
  {
  }

  // ---------- one table ----------

  lemma {:induction false} PrefixedMap(kvs: KVs, p: Bytes)
    ensures ToMap(Prefixed(kvs, p)) == Only(ToMap(kvs), p)
  {
    hide HasPrefix;
    if kvs != [] {
      var front, last := kvs[..|kvs| - 1], kvs[|kvs| - 1];
      PrefixedMap(front, p);
      if HasPrefix(last.0, p) {
        assert (Prefixed(front, p) + [last])[..|Prefixed(front, p)|] == Prefixed(front, p);
      } else {
        assert Prefixed(kvs, p) == Prefixed(front, p);
      }
    }
  }

  lemma {:induction false} PrefixedDistinct(kvs: KVs, p: Bytes)
    requires Sorted(kvs)
    ensures forall i, j | 0 <= i < j < |Prefixed(kvs, p)| :: Prefixed(kvs, p)[i].0 != Prefixed(kvs, p)[j].0
  {
    hide HasPrefix, Less;
    if kvs != [] {
      var front, last := kvs[..|kvs| - 1], kvs[|kvs| - 1];
      PrefixedDistinct(front, p);
      forall kv | kv in Prefixed(front, p)
        ensures kv.0 != last.0
      {
        PrefixedMember(front, p, kv);
        var i :| 0 <= i < |front| && front[i] == kv;
        assert Less(kvs[i].0, last.0);
        LessIrreflexive(last.0);
      }
    }
  }

  /** One table's share of the scan. */
  method GatherTable(kvs: KVs, g: Gathered) returns (r: Gathered)
    requires forall i, j | 0 <= i < j < |kvs| :: kvs[i].0 != kvs[j].0
    ensures r == Gather(g, ToMap(kvs), {})
  {
    hide Gather;
    r := g;
    GatherNothing(g);
    var i := 0;
    while i < |kvs|
      invariant 0 <= i <= |kvs| && r == Gather(g, ToMap(kvs[..i]), {})
    {
      assert kvs[..i + 1][..i] == kvs[..i];
      ToMapOnly(kvs[..i], kvs[i].0);
      GatherEntry(g, ToMap(kvs[..i]), {}, kvs[i].0, kvs[i].1);
      if kvs[i].0 !in r.seen && kvs[i].0 !in r.deleted {
        r := r.(seen := r.seen[kvs[i].0 := kvs[i].1]);
      }
      i := i + 1;
    }
    assert kvs[..i] == kvs;
  }

  // ---------- the answer ----------

  /** An unordered map poured into a vector, in whatever order, and sorted by key. */
  method SortedResults(seen: Layer) returns (r: KVs)
    ensures Sorted(r) && Enumerates(r, seen) && ToMap(r) == seen
  {
    var rest := seen.Keys;
    var kvs: KVs := [];
    while rest != {}
      invariant rest <= seen.Keys
      invariant forall i | 0 <= i < |kvs| :: kvs[i].0 in seen && kvs[i].0 !in rest && seen[kvs[i].0] == kvs[i].1
      invariant forall i, j | 0 <= i < j < |kvs| :: kvs[i].0 != kvs[j].0
      invariant forall k | k in seen && k !in rest :: (k, seen[k]) in kvs
    {
      var k :| k in rest;
      rest := rest - {k};
      kvs := kvs + [(k, seen[k])];
    }
    SortedPairs(kvs);
    r := Sort(PairKey(), kvs);
    TableOfPairs(r, kvs, seen);
  }
}
