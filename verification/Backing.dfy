/**
 The client's dictionary of texts over the layered byte store underneath it: what the key and value
 encodings carry over (recon/storage.py:143-194, MiniVaultDB/src/db/db.cpp:50-171). Keys are encoded
 in UTF-8; how a value becomes bytes is a parameter.
 */
module Backing {
  import opened ByteStrings
  import opened Sorting
  import opened SortedTable
  import opened Layers
  import opened Directories
  import Log
  import Texts
  import Storage
  import Utf8

  type Encoding = Storage.Value -> Bytes

  /** The store's map holds exactly the dictionary's pairs, encoded. */
  ghost predicate Mirrors(data: Storage.Data, m: Layer, encode: Encoding) {
    && (forall k | k in data :: Utf8.Encode(k) in m && m[Utf8.Encode(k)] == encode(data[k]))
    && (forall b | b in m :: exists k :: k in data && Utf8.Encode(k) == b)
  }

  lemma PutMirrors(data: Storage.Data, m: Layer, encode: Encoding, key: string, value: Storage.Value)
    requires Mirrors(data, m, encode)
    ensures Mirrors(data[key := value], m[Utf8.Encode(key) := encode(value)], encode)
  {
    var next, after := data[key := value], m[Utf8.Encode(key) := encode(value)];
    forall k | k in next
      ensures Utf8.Encode(k) in after && after[Utf8.Encode(k)] == encode(next[k])
    {
      if k != key && Utf8.Encode(k) == Utf8.Encode(key) { Utf8.EncodeInjective(k, key); }
    }
    forall b | b in after
      ensures exists k :: k in next && Utf8.Encode(k) == b
    {
      if b == Utf8.Encode(key) {
        assert key in next;
      } else {
        var k :| k in data && Utf8.Encode(k) == b;
        assert k in next;
      }
    }
  }

  // ---------- scans ----------

  ghost function Image(es: Storage.Items, encode: Encoding): (kvs: KVs)
    ensures |kvs| == |es|
  {
    seq(|es|, i requires 0 <= i < |es| => (Utf8.Encode(es[i].0), encode(es[i].1)))
  }

  /** The store's sorted pairs with a prefix are the encoded pairs of the dictionary's scan, in the same order. */
  lemma ScanMirrors(data: Storage.Data, m: Layer, encode: Encoding, p: string, kvs: KVs)
    requires Mirrors(data, m, encode) && Sorted(kvs) && Enumerates(kvs, Only(m, Utf8.Encode(p)))
    ensures kvs == Image(Storage.ScanOf(data, p), encode)
  {
    hide Less, Texts.StartsWith, HasPrefix, Utf8.Encode;
    var es := Storage.ScanOf(data, p);
    var image := Image(es, encode);
    forall i, j | 0 <= i < j < |image|
      ensures Less(PairKey()(image[i]), PairKey()(image[j]))
    {
      assert Less(Storage.ItemKey()(es[i]), Storage.ItemKey()(es[j]));
      Utf8.EncodeKeepsOrder(es[i].0, es[j].0);
    }
    forall i, j | 0 <= i < j < |kvs|
      ensures Less(PairKey()(kvs[i]), PairKey()(kvs[j]))
    {
      assert Less(kvs[i].0, kvs[j].0);
    }
    forall i | 0 <= i < |kvs|
      ensures kvs[i] in image
    {
      FoundInImage(data, m, encode, p, kvs[i]);
    }
    forall i | 0 <= i < |image|
      ensures image[i] in kvs
    {
      assert es[i] in es;
      FoundInStore(data, m, encode, p, es[i]);
    }
    AscendingUnique(PairKey(), kvs, image);
  }

  lemma FoundInStore(data: Storage.Data, m: Layer, encode: Encoding, p: string, e: Storage.Item)
    requires Mirrors(data, m, encode) && e in Storage.ScanOf(data, p)
    ensures Utf8.Encode(e.0) in Only(m, Utf8.Encode(p)) && m[Utf8.Encode(e.0)] == encode(e.1)
  {
    hide Less, Texts.StartsWith, HasPrefix, Utf8.Encode;
    Utf8.EncodeKeepsPrefixes(e.0, p);
  }

  lemma FoundInImage(data: Storage.Data, m: Layer, encode: Encoding, p: string, kv: (Bytes, Bytes))
    requires Mirrors(data, m, encode)
    requires kv.0 in Only(m, Utf8.Encode(p)) && m[kv.0] == kv.1
    ensures kv in Image(Storage.ScanOf(data, p), encode)
  {
    hide Less, Texts.StartsWith, HasPrefix, Utf8.Encode;
    var es := Storage.ScanOf(data, p);
    var k :| k in data && Utf8.Encode(k) == kv.0;
    Utf8.EncodeKeepsPrefixes(k, p);
    assert (k, data[k]) in es;
    var i :| 0 <= i < |es| && es[i] == (k, data[k]);
    assert Image(es, encode)[i] == kv;
  }

  // ---------- runs of a client that only puts ----------

  function DataAfter(writes: Storage.Items): Storage.Data {
    if writes == [] then map[] else DataAfter(writes[..|writes| - 1])[writes[|writes| - 1].0 := writes[|writes| - 1].1]
  }

  /** The commands that the client's puts become; it never sets a time to live. */
  ghost predicate Carries(cmds: seq<Cmd>, writes: Storage.Items, encode: Encoding) {
    && |cmds| == |writes|
    && forall i | 0 <= i < |writes| :: cmds[i].op == Log.Put(Utf8.Encode(writes[i].0), encode(writes[i].1), 0)
  }

  lemma {:induction false} WritesMirror(cmds: seq<Cmd>, writes: Storage.Items, encode: Encoding)
    requires Carries(cmds, writes, encode)
    ensures Mirrors(DataAfter(writes), MapAfter(cmds), encode)
  {
    hide Mirrors, Utf8.Encode;
    if writes == [] {
      assert Mirrors(map[], map[], encode) by { NothingMirrors(encode); }
    } else {
      var n := |writes| - 1;
      WritesMirror(cmds[..n], writes[..n], encode);
      PutMirrors(DataAfter(writes[..n]), MapAfter(cmds[..n]), encode, writes[n].0, writes[n].1);
    }
  }

  lemma NothingMirrors(encode: Encoding)
    ensures Mirrors(map[], map[], encode)
  {
  }

  /** Whenever it looks, the client finds in the store exactly what its dictionary holds, through all flushes. */
  lemma StoreMirrorsClient(cmds: seq<Cmd>, writes: Storage.Items, encode: Encoding, limit: nat, t: nat)
    requires Carries(cmds, writes, encode)
    ensures Mirrors(DataAfter(writes), Shown(Run(cmds, limit), t), encode)
  {
    hide Mirrors, Utf8.Encode, Run, MapAfter, Shown;
    WritesMirror(cmds, writes, encode);
    RunIsPlainMap(cmds, limit, t);
    assert forall i | 0 <= i < |cmds| :: !DeletesFlushedKey(cmds, limit, i);
    assert AgreesAt(cmds, limit, t, |cmds|) && cmds[..|cmds|] == cmds;
  }

  /** Without times to live a scan sees what the reads see. */
  lemma ScannedIsShown(cmds: seq<Cmd>, limit: nat, t: nat)
    requires Plain(cmds)
    ensures var s := Run(cmds, limit); Scanned(s.mem.cells, map[], s.layers, t) == Shown(s, t)
  {
    hide Run;
    RunForever(cmds, limit);
    var s := Run(cmds, limit);
    ForeverIsTimeless(s.mem.cells, t, t);
    ShownIsVisible(s, t);
    assert Dead(map[], t) == {} && Live(map[], t) == map[];
    assert Live(s.mem.cells, t) - {} == Live(s.mem.cells, t) && Stack(s.layers) - {} - {} == Stack(s.layers);
  }

  /** What the store's prefix scan returns is the client's scan of its dictionary, encoded pair by pair. */
  lemma StoreScanIsClientScan(cmds: seq<Cmd>, writes: Storage.Items, encode: Encoding, limit: nat, t: nat, p: string, kvs: KVs)
    requires Carries(cmds, writes, encode) && Sorted(kvs)
    requires var s := Run(cmds, limit); Enumerates(kvs, Only(Scanned(s.mem.cells, map[], s.layers, t), Utf8.Encode(p)))
    ensures kvs == Image(Storage.ScanOf(DataAfter(writes), p), encode)
  {
    hide Mirrors, Utf8.Encode, Run, Shown, Enumerates, Only, Scanned, Less;
    ScannedIsShown(cmds, limit, t);
    StoreMirrorsClient(cmds, writes, encode, limit, t);
    ScanMirrors(DataAfter(writes), Shown(Run(cmds, limit), t), encode, p, kvs);
  }
}
