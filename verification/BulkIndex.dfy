/** The index maps that reconcile_all builds from one scan, against the prefix scans they replace (recon/matcher.py:103-128). */
module BulkIndex {
  import opened ByteStrings
  import opened Wrappers
  import opened Sorting
  import opened Texts
  import opened Schemas
  import opened Storage

  /** The entries that fall under one owner and kind, in scan order. */
  function Grouped(es: Items, place: Place): Items {
    if es == [] then []
    else
      var rest, e := Grouped(es[..|es| - 1], place), es[|es| - 1];
      if ParseIndex(e.0) == Some(place) then rest + [e] else rest
  }

  lemma {:induction false} GroupedMembers(es: Items, place: Place, e: Item)
    ensures e in Grouped(es, place) <==> e in es && ParseIndex(e.0) == Some(place)
  {
    hide ParseIndex;
    if es != [] {
      GroupedMembers(es[..|es| - 1], place, e);
      assert es == es[..|es| - 1] + [es[|es| - 1]];
    }
  }

  lemma {:induction false} GroupedAscending(es: Items, place: Place)
    requires Ascending(ItemKey(), es)
    ensures Ascending(ItemKey(), Grouped(es, place))
  {
    hide ParseIndex, Less;
    if es != [] {
      var front, last := es[..|es| - 1], es[|es| - 1];
      GroupedAscending(front, place);
      forall e | e in Grouped(front, place)
        ensures Less(ItemKey()(e), ItemKey()(last))
      {
        GroupedMembers(front, place, e);
        var i :| 0 <= i < |front| && front[i] == e;
        assert Less(ItemKey()(es[i]), ItemKey()(es[|es| - 1]));
      }
    }
  }

  // ---------- when the maps agree with the scans ----------

  function Rest(k: string, p: string): string
    requires StartsWith(k, p)
  {
    k[|p|..]
  }

  /** Every key under the owner's prefix ends right after it, and no key lacks its owner when the owner is empty. */
  ghost predicate Regular(data: Data, name: string, owner: string, kind: string) {
    && (forall k | k in data && StartsWith(k, OwnerPrefix(name, owner, kind)) :: ColonFree(Rest(k, OwnerPrefix(name, owner, kind))))
    && (owner == "" ==> forall k | k in data && StartsWith(k, IndexPrefix(name) + kind + ":") ::
                          !ColonFree(Rest(k, IndexPrefix(name) + kind + ":")))
  }

  lemma OwnerPrefixExtends(k: string, name: string, owner: string, kind: string)
    requires StartsWith(k, OwnerPrefix(name, owner, kind))
    ensures StartsWith(k, IndexPrefix(name))
  {
  }

  lemma OwnerlessIsOther(k: string, name: string, kind: string)
    requires ColonFree(kind) && kind != "" && StartsWith(k, IndexPrefix(name) + kind + ":")
    ensures StartsWith(k, IndexPrefix(name)) && !StartsWith(k, OwnerPrefix(name, "", kind))
  {
    var p := IndexPrefix(name);
    assert (p + kind + ":")[..|p|] == p;
    assert k[|p|] == (p + kind + ":")[|p|] == kind[0];
    assert OwnerPrefix(name, "", kind)[|p|] == ':';
  }

  /** Membership in the group is membership in the scan, key by key. */
  lemma SamePlace(data: Data, name: string, owner: string, kind: string, k: string)
    requires ColonFree(name) && ColonFree(kind) && kind != "" && k in data
    requires Regular(data, name, owner, kind)
    ensures StartsWith(k, IndexPrefix(name)) && ParseIndex(k) == Some(Place(owner, kind))
            <==> StartsWith(k, OwnerPrefix(name, owner, kind))
  {
    hide ParseIndex, IndexPrefix;
    var p := OwnerPrefix(name, owner, kind);
    if StartsWith(k, p) {
      OwnerPrefixExtends(k, name, owner, kind);
      assert k == p + Rest(k, p);
      PlaceOfKey(name, k, owner, kind);
    } else if StartsWith(k, IndexPrefix(name)) && ParseIndex(k) == Some(Place(owner, kind)) {
      PlaceOfKey(name, k, owner, kind);
      NotOwnerless(data, name, owner, kind, k);
    }
  }

  lemma NotOwnerless(data: Data, name: string, owner: string, kind: string, k: string)
    requires k in data && Regular(data, name, owner, kind)
    ensures !(owner == "" && exists id :: ColonFree(id) && k == IndexPrefix(name) + kind + ":" + id)
  {
  }

  /**
   Looking an owner and kind up in the bulk map gives the list of the prefix scan exactly when the
   store is regular there. Nothing is assumed about the ids.
   */
  lemma BulkAgreesWithScan(data: Data, name: string, owner: string, kind: string)
    requires ColonFree(name) && ColonFree(kind) && kind != ""
    ensures Grouped(ScanOf(data, IndexPrefix(name)), Place(owner, kind)) == ScanOf(data, OwnerPrefix(name, owner, kind))
            <==> Regular(data, name, owner, kind)
  {
    hide ParseIndex, IndexPrefix, OwnerPrefix, StartsWith, Grouped, Less;
    var all, place := ScanOf(data, IndexPrefix(name)), Place(owner, kind);
    var group, scan := Grouped(all, place), ScanOf(data, OwnerPrefix(name, owner, kind));
    GroupedAscending(all, place);
    forall e
      ensures e in group <==> e in all && ParseIndex(e.0) == Some(place)
    {
      GroupedMembers(all, place, e);
    }
    if Regular(data, name, owner, kind) {
      forall k | k in data {
        SamePlace(data, name, owner, kind, k);
      }
      AscendingUnique(ItemKey(), group, scan);
    } else if group == scan {
      AgreementIsRegular(data, name, owner, kind);
    }
  }

  /** The other direction: a key that breaks the shape is in one of the two lists only. */
  lemma AgreementIsRegular(data: Data, name: string, owner: string, kind: string)
    requires ColonFree(name) && ColonFree(kind) && kind != ""
    requires Grouped(ScanOf(data, IndexPrefix(name)), Place(owner, kind)) == ScanOf(data, OwnerPrefix(name, owner, kind))
    ensures Regular(data, name, owner, kind)
  {
    hide ParseIndex, IndexPrefix, Grouped, Less;
    var all, place, p := ScanOf(data, IndexPrefix(name)), Place(owner, kind), OwnerPrefix(name, owner, kind);
    forall k | k in data && StartsWith(k, p)
      ensures ColonFree(Rest(k, p))
    {
      var e := (k, data[k]);
      assert e in ScanOf(data, p);
      GroupedMembers(all, place, e);
      OwnerPrefixExtends(k, name, owner, kind);
      PlaceOfKey(name, k, owner, kind);
      PlacedRest(name, owner, kind, k);
    }
    if owner == "" {
      var q := IndexPrefix(name) + kind + ":";
      forall k | k in data && StartsWith(k, q)
        ensures !ColonFree(Rest(k, q))
      {
        var e := (k, data[k]);
        OwnerlessIsOther(k, name, kind);
        PlaceOfKey(name, k, owner, kind);
        GroupedMembers(all, place, e);
        assert e in all && e !in ScanOf(data, p);
        assert k == IndexPrefix(name) + kind + ":" + Rest(k, q);
      }
    }
  }

  lemma PlacedRest(name: string, owner: string, kind: string, k: string)
    requires ColonFree(kind) && kind != "" && StartsWith(k, OwnerPrefix(name, owner, kind))
    requires (exists id :: ColonFree(id) && k == OwnerPrefix(name, owner, kind) + id)
             || (owner == "" && exists id :: ColonFree(id) && k == IndexPrefix(name) + kind + ":" + id)
    ensures ColonFree(Rest(k, OwnerPrefix(name, owner, kind)))
  {
  }

  // ---------- stores loaded with clean records ----------

  lemma NamesOfIndexes(name: string)
    requires name in {"ORDER", "TXN", "REF"}
    ensures ColonFree(name) && name != "MERCHANT"
  {
  }

  /** In a store of clean records every key of an entity index names its owner, its kind and an id without colons. */
  lemma HeldIndexKey(data: Data, records: set<Record>, name: string, k: string) returns (r: Record, owner: string)
    requires Holds(data, records) && k in data && name in {"ORDER", "TXN", "REF"} && StartsWith(k, IndexPrefix(name))
    ensures r in records && k in EntityKeys(r) && k == IndexKey(name, owner, KeyKind(r), Id(r)) && ColonFree(owner)
    ensures data[k] == Pointer(ToKey(r))
  {
    hide Clean, ToKey, EntityKeys, TemporalKey, KeyKind, Id, ColonFree;
    r :| r in records && (k == ToKey(r) || k in AllIndexKeys(r));
    HeldClean(data, records, r);
    PrimaryIsNoIndex(r);
    IndexNameAt(k, name);
    TemporalNameAt(r);
    assert k in EntityKeys(r);
    var name2: string;
    name2, owner := EntityKeyShape(r, k);
    SameIndexName(name, name2, owner, KeyKind(r), Id(r));
  }

  lemma IndexNameAt(k: string, name: string)
    requires name in {"ORDER", "TXN", "REF"} && StartsWith(k, IndexPrefix(name))
    ensures |k| > 4 && k[4] == name[0] && StartsWith(k, "IDX:")
  {
  }

  lemma TemporalNameAt(r: Record)
    ensures |TemporalKey(r)| > 4 && TemporalKey(r)[4] == 'M'
  {
    hide RecordType, ToKey, LastPart, TenDigits;
    TemporalKeyMiddle(r);
  }

  lemma SameIndexName(name: string, name2: string, owner: string, kind: string, id: string)
    requires name in {"ORDER", "TXN", "REF"} && name2 in {"ORDER", "TXN", "REF", "BATCH"}
    requires StartsWith(IndexKey(name2, owner, kind, id), IndexPrefix(name))
    ensures name == name2
  {
    var k := IndexKey(name2, owner, kind, id);
    IndexNameAt(k, name);
    assert k[4] == name2[0];
  }

  /** A key that starts with an owner and a kind without colons has just that owner and kind. */
  lemma OwnerOfKey(name: string, owner: string, kind: string, owner2: string, kind2: string, id: string)
    requires ColonFree(name) && ColonFree(owner) && ColonFree(kind) && ColonFree(owner2) && ColonFree(kind2) && ColonFree(id)
    requires StartsWith(IndexKey(name, owner2, kind2, id), OwnerPrefix(name, owner, kind))
    ensures owner == owner2 && kind == kind2 && Rest(IndexKey(name, owner2, kind2, id), OwnerPrefix(name, owner, kind)) == id
  {
    hide Split, IndexPrefix;
    var k, p := IndexKey(name, owner2, kind2, id), OwnerPrefix(name, owner, kind);
    var rest := Rest(k, p);
    SplitOfIndexKey(name, owner2, kind2, id);
    SplitColonFree(owner2);
    assert k == IndexPrefix(name) + (owner + ":" + (kind + ":" + rest));
    SplitOfIndexPrefix(name, owner + ":" + (kind + ":" + rest));
    SplitAtColon(owner, kind + ":" + rest);
    SplitAtColon(kind, rest);
    SplitColonFree(owner);
    SplitColonFree(kind);
    assert Split(k) == ["IDX", name, owner, kind] + Split(rest);
    assert Split(k) == ["IDX", name, owner2, kind2, id];
    assert Split(k)[2] == owner && Split(k)[3] == kind;
  }

  /** Stores of clean records are regular at every owner, so there the maps and the scans always agree. */
  lemma HeldIsRegular(data: Data, records: set<Record>, name: string, owner: string, kind: string)
    requires Holds(data, records) && name in {"ORDER", "TXN", "REF"} && ColonFree(owner) && ColonFree(kind) && kind != ""
    ensures Regular(data, name, owner, kind)
  {
    hide Holds, EntityKeys, ToKey, IndexKey, IndexPrefix, ColonFree, Clean, Id, KeyKind, OwnerPrefix, StartsWith;
    NamesOfIndexes(name);
    forall k | k in data && StartsWith(k, OwnerPrefix(name, owner, kind))
      ensures ColonFree(Rest(k, OwnerPrefix(name, owner, kind)))
    {
      OwnerPrefixExtends(k, name, owner, kind);
      var r, owner2 := HeldIndexKey(data, records, name, k);
      HeldClean(data, records, r);
      CleanParts(r);
      KindsColonFree(r);
      OwnerOfKey(name, owner, kind, owner2, KeyKind(r), Id(r));
    }
    var p := IndexPrefix(name) + kind + ":";
    forall k | k in data && StartsWith(k, p)
      ensures !ColonFree(Rest(k, p))
    {
      assert p == IndexPrefix(name) + (kind + ":");
      PrefixOfPrefix(k, IndexPrefix(name), kind + ":");
      var r, owner2 := HeldIndexKey(data, records, name, k);
      HeldClean(data, records, r);
      CleanParts(r);
      KindsColonFree(r);
      FourPartsOnly(name, kind, owner2, KeyKind(r), Id(r));
    }
  }

  lemma PrefixOfPrefix(k: string, p: string, q: string)
    requires StartsWith(k, p + q)
    ensures StartsWith(k, p)
  {
  }

  lemma FourPartsOnly(name: string, kind: string, owner2: string, kind2: string, id: string)
    requires ColonFree(name) && ColonFree(kind) && ColonFree(owner2) && ColonFree(kind2) && ColonFree(id)
    requires StartsWith(IndexKey(name, owner2, kind2, id), IndexPrefix(name) + kind + ":")
    ensures !ColonFree(Rest(IndexKey(name, owner2, kind2, id), IndexPrefix(name) + kind + ":"))
  {
    hide Split, IndexPrefix;
    var k, p := IndexKey(name, owner2, kind2, id), IndexPrefix(name) + kind + ":";
    var rest := Rest(k, p);
    SplitOfIndexKey(name, owner2, kind2, id);
    SplitColonFree(owner2);
    assert k == IndexPrefix(name) + (kind + ":" + rest);
    SplitOfIndexPrefix(name, kind + ":" + rest);
    SplitAtColon(kind, rest);
    SplitColonFree(kind);
    assert |Split(k)| == 3 + |Split(rest)| == 5;
    if ColonFree(rest) { SplitColonFree(rest); }
  }

  // ---------- what the entries under an owner are ----------

  function EntryUnder(name: string, owner: string, kind: string, r: Record): Item {
    (IndexKey(name, owner, kind, Id(r)), Pointer(ToKey(r)))
  }

  /** An entry that the scan under an owner finds belongs to a stored record of that kind. */
  lemma EntryRecord(data: Data, records: set<Record>, name: string, owner: string, kind: string, e: Item) returns (r: Record)
    requires Holds(data, records) && name in {"ORDER", "TXN", "REF"} && ColonFree(owner) && ColonFree(kind)
    requires e in ScanOf(data, OwnerPrefix(name, owner, kind))
    ensures r in records && KeyKind(r) == kind && e.0 in EntityKeys(r) && e == EntryUnder(name, owner, kind, r)
  {
    hide Holds, EntityKeys, ToKey, IndexKey, IndexPrefix, ColonFree, Clean, Id, KeyKind, OwnerPrefix, StartsWith, Less;
    NamesOfIndexes(name);
    assert StartsWith(e.0, OwnerPrefix(name, owner, kind));
    OwnerPrefixExtends(e.0, name, owner, kind);
    var owner2: string;
    r, owner2 := HeldIndexKey(data, records, name, e.0);
    HeldClean(data, records, r);
    CleanParts(r);
    KindsColonFree(r);
    OwnerOfKey(name, owner, kind, owner2, KeyKind(r), Id(r));
  }

  /** A stored record is found under each owner that its index keys name. */
  lemma RecordEntry(data: Data, records: set<Record>, name: string, owner: string, kind: string, r: Record)
    requires Holds(data, records) && r in records && IndexKey(name, owner, kind, Id(r)) in EntityKeys(r)
    ensures EntryUnder(name, owner, kind, r) in ScanOf(data, OwnerPrefix(name, owner, kind))
  {
    hide EntityKeys, ToKey, ColonFree, Clean, Id, Less, IndexPrefix, StartsWith, Ascending, TemporalKey;
    var k := IndexKey(name, owner, kind, Id(r));
    assert k in AllIndexKeys(r);
    UnderOwner(name, owner, kind, Id(r));
  }

  lemma UnderOwner(name: string, owner: string, kind: string, id: string)
    ensures StartsWith(IndexKey(name, owner, kind, id), OwnerPrefix(name, owner, kind))
  {
  }

  // ---------- building the maps ----------

  type IndexMap = map<string, map<string, Items>>
  type OwnerMap = map<string, Items>

  function LookUp(m: IndexMap, owner: string, kind: string): Items {
    if owner in m && kind in m[owner] then m[owner][kind] else []
  }

  function LookUpOwner(m: OwnerMap, owner: string): Items {
    if owner in m then m[owner] else []
  }

  lemma GroupedNext(es: Items, i: nat, place: Place)
    requires i < |es|
    ensures Grouped(es[..i + 1], place) == Grouped(es[..i], place) + if ParseIndex(es[i].0) == Some(place) then [es[i]] else []
  {
    hide ParseIndex;
    assert es[..i + 1][..i] == es[..i];
  }

  /** One pass over the scanned entries of an index, into a map by owner and kind. */
  method BuildIndexMap(es: Items) returns (m: IndexMap)
    ensures forall owner, kind :: LookUp(m, owner, kind) == Grouped(es, Place(owner, kind))
  {
    hide Split, Join, Grouped;
    m := map[];
    var i := 0;
    GroupedNone(es);
    while i < |es|
      invariant 0 <= i <= |es|
      invariant forall owner, kind :: LookUp(m, owner, kind) == Grouped(es[..i], Place(owner, kind))
    {
      forall owner, kind {
        GroupedNext(es, i, Place(owner, kind));
      }
      var parts := Split(es[i].0);
      if |parts| >= 4 {
        var kind, owner := parts[|parts| - 2], Join(parts[2..|parts| - 2]);
        var kinds := if owner in m then m[owner] else map[];
        var entries := if kind in kinds then kinds[kind] else [];
        m := m[owner := kinds[kind := entries + [es[i]]]];
      }
      i := i + 1;
    }
    assert es[..i] == es;
  }

  lemma GroupedNone(es: Items)
    ensures forall place :: Grouped(es[..0], place) == []
  {
  }

  /** The same for settlements by transaction; entries of other kinds are skipped. */
  method BuildSettlementMap(es: Items) returns (m: OwnerMap)
    ensures forall owner :: LookUpOwner(m, owner) == Grouped(es, Place(owner, "SETTLEMENT"))
  {
    hide Split, Join, Grouped;
    m := map[];
    var i := 0;
    GroupedNone(es);
    while i < |es|
      invariant 0 <= i <= |es|
      invariant forall owner :: LookUpOwner(m, owner) == Grouped(es[..i], Place(owner, "SETTLEMENT"))
    {
      forall owner {
        GroupedNext(es, i, Place(owner, "SETTLEMENT"));
      }
      var parts := Split(es[i].0);
      if |parts| >= 4 && parts[|parts| - 2] == "SETTLEMENT" {
        var owner := Join(parts[2..|parts| - 2]);
        m := m[owner := (if owner in m then m[owner] else []) + [es[i]]];
      }
      i := i + 1;
    }
    assert es[..i] == es;
  }
}
