/**
 The open-addressing hash table under the memtable (MiniVaultDB/src/util/hash.cpp): linear probing
 over a power-of-two array, tombstones on deletion, doubling when the table is 70% used.

 The hash function is a parameter, so every result holds for all of them.
 */
module HashTable {
  import opened ByteStrings
  import opened Wrappers

  datatype Cell = Cell(value: Bytes, expireTs: nat)

  datatype Entry = Empty | Tombstone | Occupied(hash: nat, key: Bytes, cell: Cell)

  /** What a table means. */
  type Mem = map<Bytes, Cell>

  /** The rule of HashTable::get: time 0 means never. */
  predicate Expired(c: Cell, now: nat) {
    c.expireTs != 0 && c.expireTs < now
  }

  /** The test that opens put, exact on integers. */
  predicate Loaded(size: nat, tombstones: nat, capacity: nat) {
    10 * (size + tombstones) >= 7 * capacity
  }

  /** Seven tenths of the slots are in use. */
  lemma LoadedIsSeventyPercent(size: nat, tombstones: nat, capacity: nat)
    ensures Loaded(size, tombstones, capacity) <==> (size + tombstones) as real >= capacity as real * 0.7
  {
  }

  /**
   Filling a table without ever meeting the load test is possible exactly when it has fewer than
   four slots; from four slots on, put leaves an empty slot.
   */
  lemma LoadTestKeepsASlotFree(n: nat)
    ensures (forall used: nat | used < Pow2(n) :: !Loaded(used, 0, Pow2(n))) <==> Pow2(n) < 4
  {
    if Pow2(n) >= 4 {
      assert Loaded(Pow2(n) - 1, 0, Pow2(n));
    } else {
      assert n < 2 || Pow2(n) == 4 * Pow2(n - 2);
    }
  }

  // ---------- probing ----------

  /** The slot that a probe from home visits after the given number of steps. */
  function SlotAt(home: nat, step: nat, capacity: nat): (slot: nat)
    requires home < capacity && step < capacity
    ensures slot < capacity
  {
    if home + step < capacity then home + step else home + step - capacity
  }

  function StepsTo(home: nat, slot: nat, capacity: nat): (step: nat)
    requires home < capacity && slot < capacity
    ensures step < capacity && SlotAt(home, step, capacity) == slot
  {
    if home <= slot then slot - home else slot + capacity - home
  }

  /** No empty slot lies between home and the slot, so that a probe from home gets there. */
  ghost predicate Reachable(s: seq<Entry>, home: nat, slot: nat)
    requires home < |s| && slot < |s|
  {
    forall t {:trigger SlotAt(home, t, |s|)} | 0 <= t < StepsTo(home, slot, |s|) ::
      !s[SlotAt(home, t, |s|)].Empty?
  }

  /** slotOf names, for every live key, the only slot that holds it, and that slot is reachable. */
  ghost predicate Located(s: seq<Entry>, hash: Bytes -> nat, slotOf: map<Bytes, nat>) {
    && (forall k | k in slotOf ::
          && slotOf[k] < |s| && s[slotOf[k]].Occupied?
          && s[slotOf[k]].key == k && s[slotOf[k]].hash == hash(k)
          && Reachable(s, hash(k) % |s|, slotOf[k]))
    && (forall i | 0 <= i < |s| && s[i].Occupied? :: s[i].key in slotOf && slotOf[s[i].key] == i)
  }

  /** The map that the slots stand for. */
  ghost function View(s: seq<Entry>, hash: Bytes -> nat, slotOf: map<Bytes, nat>): Mem
    requires Located(s, hash, slotOf)
  {
    map k | k in slotOf :: s[slotOf[k]].cell
  }

  lemma ReachableKept(s: seq<Entry>, i: nat, e: Entry, home: nat, slot: nat)
    requires home < |s| && slot < |s| && i < |s| && !e.Empty?
    requires Reachable(s, home, slot)
    ensures Reachable(s[i := e], home, slot)
  {
  }

  /** The slots, the places of the live keys, and the counters agree; tombstones may be overcounted. */
  ghost predicate WellFormed(s: seq<Entry>, hash: Bytes -> nat, slotOf: map<Bytes, nat>, used: set<nat>, size: nat, tombstones: nat) {
    && Located(s, hash, slotOf)
    && (forall i | 0 <= i < |s| :: !s[i].Empty? <==> i in used)
    && (forall i | i in used :: i < |s|)
    && size == |slotOf| && |used| <= size + tombstones
  }

  /** Writing a new key into the free slot that its probe found adds exactly that key. */
  lemma InsertLocated(s: seq<Entry>, hash: Bytes -> nat, slotOf: map<Bytes, nat>, key: Bytes, cell: Cell, i: nat)
    requires Located(s, hash, slotOf) && key !in slotOf
    requires i < |s| && !s[i].Occupied? && Reachable(s, hash(key) % |s|, i)
    ensures Located(s[i := Occupied(hash(key), key, cell)], hash, slotOf[key := i])
  {
    var e := Occupied(hash(key), key, cell);
    forall k | k in slotOf {
      ReachableKept(s, i, e, hash(k) % |s|, slotOf[k]);
    }
    ReachableKept(s, i, e, hash(key) % |s|, i);
  }

  lemma InsertKeeps(s: seq<Entry>, hash: Bytes -> nat, slotOf: map<Bytes, nat>, used: set<nat>, size: nat, tombstones: nat,
                    key: Bytes, cell: Cell, i: nat)
    requires WellFormed(s, hash, slotOf, used, size, tombstones) && key !in slotOf
    requires i < |s| && !s[i].Occupied? && Reachable(s, hash(key) % |s|, i)
    ensures WellFormed(s[i := Occupied(hash(key), key, cell)], hash, slotOf[key := i], used + {i}, size + 1, tombstones)
  {
    InsertLocated(s, hash, slotOf, key, cell, i);
    hide Located;
  }

  lemma InsertView(s: seq<Entry>, hash: Bytes -> nat, slotOf: map<Bytes, nat>, key: Bytes, cell: Cell, i: nat)
    requires Located(s, hash, slotOf) && key !in slotOf
    requires i < |s| && !s[i].Occupied? && Reachable(s, hash(key) % |s|, i)
    ensures Located(s[i := Occupied(hash(key), key, cell)], hash, slotOf[key := i])
    ensures View(s[i := Occupied(hash(key), key, cell)], hash, slotOf[key := i]) == View(s, hash, slotOf)[key := cell]
  {
    InsertLocated(s, hash, slotOf, key, cell, i);
    hide Reachable;
  }

  lemma OverwriteKeeps(s: seq<Entry>, hash: Bytes -> nat, slotOf: map<Bytes, nat>, used: set<nat>, size: nat, tombstones: nat,
                       key: Bytes, cell: Cell)
    requires WellFormed(s, hash, slotOf, used, size, tombstones) && key in slotOf
    ensures WellFormed(s[slotOf[key] := Occupied(hash(key), key, cell)], hash, slotOf, used, size, tombstones)
    ensures View(s[slotOf[key] := Occupied(hash(key), key, cell)], hash, slotOf) == View(s, hash, slotOf)[key := cell]
  {
    var e := Occupied(hash(key), key, cell);
    forall k | k in slotOf {
      ReachableKept(s, slotOf[key], e, hash(k) % |s|, slotOf[k]);
    }
    assert Located(s[slotOf[key] := e], hash, slotOf);
  }

  /** A tombstone removes exactly its key and cuts no probe short. */
  lemma BuryLocated(s: seq<Entry>, hash: Bytes -> nat, slotOf: map<Bytes, nat>, key: Bytes)
    requires Located(s, hash, slotOf) && key in slotOf
    ensures Located(s[slotOf[key] := Tombstone], hash, slotOf - {key})
  {
  }

  lemma BuryKeeps(s: seq<Entry>, hash: Bytes -> nat, slotOf: map<Bytes, nat>, used: set<nat>, size: nat, tombstones: nat,
                  key: Bytes)
    requires WellFormed(s, hash, slotOf, used, size, tombstones) && key in slotOf
    ensures size > 0
    ensures WellFormed(s[slotOf[key] := Tombstone], hash, slotOf - {key}, used, size - 1, tombstones + 1)
    ensures View(s[slotOf[key] := Tombstone], hash, slotOf - {key}) == View(s, hash, slotOf) - {key}
  {
    hide Reachable;
    BuryLocated(s, hash, slotOf, key);
    assert (slotOf - {key}).Keys == slotOf.Keys - {key};
  }

  lemma NextSlot(home: nat, step: nat, capacity: nat)
    requires home < capacity && step + 1 < capacity
    ensures (SlotAt(home, step, capacity) + 1) % capacity == SlotAt(home, step + 1, capacity)
  {
  }

  /** The first t probes met neither an empty slot nor the key. */
  ghost predicate Missed(s: seq<Entry>, home: nat, key: Bytes, t: nat)
    requires home < |s| && t <= |s|
  {
    forall u {:trigger SlotAt(home, u, |s|)} | 0 <= u < t ::
      var e := s[SlotAt(home, u, |s|)]; !e.Empty? && (e.Occupied? ==> e.key != key)
  }

  /** The first t probes met live entries only. */
  ghost predicate Crowded(s: seq<Entry>, home: nat, t: nat)
    requires home < |s| && t <= |s|
  {
    forall u {:trigger SlotAt(home, u, |s|)} | 0 <= u < t :: s[SlotAt(home, u, |s|)].Occupied?
  }

  lemma NothingProbed(s: seq<Entry>, home: nat, key: Bytes)
    requires home < |s|
    ensures SlotAt(home, 0, |s|) == home && Missed(s, home, key, 0) && Crowded(s, home, 0)
  {
  }

  lemma ProbeStep(s: seq<Entry>, home: nat, key: Bytes, t: nat)
    requires home < |s| && t < |s| && Missed(s, home, key, t)
    ensures var i := SlotAt(home, t, |s|);
            && StepsTo(home, i, |s|) == t && Reachable(s, home, i)
            && (!s[i].Empty? && (s[i].Occupied? ==> s[i].key != key) ==> Missed(s, home, key, t + 1))
  {
  }

  lemma CrowdedStep(s: seq<Entry>, home: nat, t: nat)
    requires home < |s| && t < |s| && Crowded(s, home, t)
    ensures s[SlotAt(home, t, |s|)].Occupied? ==> Crowded(s, home, t + 1)
  {
  }

  lemma PassedIsReachable(s: seq<Entry>, home: nat, key: Bytes, t: nat, slot: nat)
    requires home < |s| && t <= |s| && slot < |s| && Missed(s, home, key, t) && StepsTo(home, slot, |s|) <= t
    ensures Reachable(s, home, slot)
  {
  }

  /** A probe that meets an empty slot before meeting the key has proved the key absent. */
  lemma EmptyMeansAbsent(s: seq<Entry>, hash: Bytes -> nat, slotOf: map<Bytes, nat>, key: Bytes, t: nat)
    requires Located(s, hash, slotOf) && t < |s| && Missed(s, hash(key) % |s|, key, t)
    requires s[SlotAt(hash(key) % |s|, t, |s|)].Empty?
    ensures key !in slotOf
  {
  }

  lemma {:induction false} FullSetIsLarge(u: set<nat>, n: nat)
    requires forall i | 0 <= i < n :: i in u
    ensures |u| >= n
  {
    if n != 0 { FullSetIsLarge(u - {n - 1}, n - 1); }
  }

  lemma {:induction false} SubsetIsSmaller<T>(a: set<T>, b: set<T>)
    requires a <= b
    ensures |a| <= |b|
  {
    if a != {} {
      var x :| x in a;
      SubsetIsSmaller(a - {x}, b - {x});
    }
  }

  /** A table with fewer used slots than slots has an empty one. */
  lemma EmptySlotExists(s: seq<Entry>, used: set<nat>) returns (e: nat)
    requires forall i | 0 <= i < |s| :: !s[i].Empty? <==> i in used
    requires |used| < |s|
    ensures e < |s| && s[e].Empty?
  {
    if forall i | 0 <= i < |s| :: i in used { FullSetIsLarge(used, |s|); }
    e :| 0 <= e < |s| && e !in used;
  }

  /** The live keys in the first i slots: what a rehash has moved after i slots. */
  ghost function KeysBelow(slotOf: map<Bytes, nat>, i: nat): set<Bytes> {
    set k | k in slotOf && slotOf[k] < i
  }

  /** The part of the map that those keys make up. */
  ghost function PartView(s: seq<Entry>, hash: Bytes -> nat, slotOf: map<Bytes, nat>, i: nat): Mem
    requires Located(s, hash, slotOf)
  {
    map k | k in KeysBelow(slotOf, i) :: s[slotOf[k]].cell
  }

  lemma PartViewStep(s: seq<Entry>, hash: Bytes -> nat, slotOf: map<Bytes, nat>, i: nat)
    requires Located(s, hash, slotOf) && i < |s|
    ensures KeysBelow(slotOf, i + 1) <= slotOf.Keys
    ensures if s[i].Occupied?
            then && s[i].key !in KeysBelow(slotOf, i)
                 && KeysBelow(slotOf, i + 1) == KeysBelow(slotOf, i) + {s[i].key}
                 && PartView(s, hash, slotOf, i + 1) == PartView(s, hash, slotOf, i)[s[i].key := s[i].cell]
            else && KeysBelow(slotOf, i + 1) == KeysBelow(slotOf, i)
                 && PartView(s, hash, slotOf, i + 1) == PartView(s, hash, slotOf, i)
  {
  }

  lemma LiveCount(s: seq<Entry>, hash: Bytes -> nat, slotOf: map<Bytes, nat>, used: set<nat>, size: nat, tombstones: nat)
    requires WellFormed(s, hash, slotOf, used, size, tombstones)
    ensures Located(s, hash, slotOf) && |slotOf| == size
  {
  }

  lemma NothingStored(n: nat, hash: Bytes -> nat)
    ensures WellFormed(seq(n, _ => Empty), hash, map[], {}, 0, 0) && View(seq(n, _ => Empty), hash, map[]) == map[]
  {
  }

  lemma NothingMoved(s: seq<Entry>, hash: Bytes -> nat, slotOf: map<Bytes, nat>)
    requires Located(s, hash, slotOf)
    ensures KeysBelow(slotOf, 0) == {} && PartView(s, hash, slotOf, 0) == map[]
  {
  }

  /**
   What keeps one slot empty and bounds the cost of growing. puts counts the calls of put, moved the
   re-insertions of all rehashes.
   */
  ghost predicate Balanced(initial: nat, capacity: nat, size: nat, tombstones: nat, puts: nat, moved: nat) {
    && 4 <= initial <= capacity && capacity % 4 == 0
    && 10 * (size + tombstones) < 7 * capacity + 10
    && size + tombstones <= puts
    && (capacity == initial || 7 * capacity <= 20 * puts)
    && 4 * moved <= 3 * (capacity - initial)
  }

  lemma RehashBalances(initial: nat, capacity: nat, size: nat, tombstones: nat, puts: nat, moved: nat)
    requires Balanced(initial, capacity, size, tombstones, puts, moved) && Loaded(size, tombstones, capacity)
    ensures Balanced(initial, 2 * capacity, size, 0, puts, moved + size) && !Loaded(size, 0, 2 * capacity)
  {
    var q := capacity / 4;
    assert capacity == 4 * q && 10 * size < 28 * q + 10;
    assert size <= 3 * q;
  }

  class Table {
    var entries: array<Entry>
    var capacity: nat
    var size: nat
    var tombstones: nat
    const hash: Bytes -> nat
    const initial: nat

    ghost var exponent: nat
    ghost var slotOf: map<Bytes, nat>
    ghost var used: set<nat>   // the slots that are not empty
    ghost var puts: nat        // calls of Put from outside
    ghost var moved: nat       // re-insertions by all rehashes so far

    ghost predicate Valid()
      reads this, entries
    {
      && entries.Length == capacity == Pow2(exponent)
      && Balanced(initial, capacity, size, tombstones, puts, moved)
      && WellFormed(entries[..], hash, slotOf, used, size, tombstones)
    }

    ghost function Contents(): Mem
      requires Valid()
      reads this, entries
    {
      View(entries[..], hash, slotOf)
    }

    constructor (initialCapacity: nat, hash: Bytes -> nat)
      requires initialCapacity >= 3
      ensures Valid() && Contents() == map[] && fresh(entries)
      ensures size == tombstones == puts == moved == 0 && capacity == initial
      ensures initialCapacity <= capacity < 2 * initialCapacity && this.hash == hash
    {
      var c := 1;
      ghost var n := 0;
      while c < initialCapacity
        invariant c == Pow2(n) && c < 2 * initialCapacity
      {
        c := 2 * c;
        n := n + 1;
      }
      assert n >= 2 && Pow2(n) == 2 * Pow2(n - 1) == 4 * Pow2(n - 2);
      this.hash := hash;
      initial := c;
      capacity := c;
      size, tombstones := 0, 0;
      entries := new Entry[c](_ => Empty);
      exponent, slotOf, used, puts, moved := n, map[], {}, 0, 0;
    }

    ghost function Home(key: Bytes): (home: nat)
      requires capacity > 0
      reads this
      ensures home < capacity
    {
      hash(key) % capacity
    }

    /** The probing loop. It ends because the table keeps an empty slot. */
    method FindSlot(h: nat, key: Bytes, forInsert: bool) returns (slot: nat)
      requires Valid() && h == hash(key)
      ensures slot < capacity && Reachable(entries[..], Home(key), slot)
      ensures entries[slot].Occupied? <==> key in slotOf
      ensures key in slotOf ==> slot == slotOf[key] && entries[slot].cell == Contents()[key]
      ensures key !in slotOf && !forInsert ==> entries[slot].Empty?
      // a new key goes to the first slot of its probe that is free
      ensures key !in slotOf && forInsert ==> Crowded(entries[..], Home(key), StepsTo(Home(key), slot, capacity))
    {
      hide Pow2, Missed, Crowded, Reachable, SlotAt, StepsTo;
      ghost var s := entries[..];
      var home := h % capacity;
      var idx := home;
      var firstTombstone: Option<nat> := None;
      ghost var t := 0;
      ghost var e := EmptySlotExists(s, used);
      NothingProbed(s, home, key);
      while true
        invariant 0 <= t <= StepsTo(home, e, capacity)
        invariant idx == SlotAt(home, t, capacity)
        invariant Missed(s, home, key, t)
        invariant forInsert && firstTombstone.None? ==> Crowded(s, home, t)
        invariant firstTombstone.Some? ==>
                    && forInsert && firstTombstone.value < capacity && s[firstTombstone.value].Tombstone?
                    && StepsTo(home, firstTombstone.value, capacity) < t
                    && Crowded(s, home, StepsTo(home, firstTombstone.value, capacity))
        decreases StepsTo(home, e, capacity) - t
      {
        ProbeStep(s, home, key, t);
        if forInsert && firstTombstone.None? { CrowdedStep(s, home, t); }
        var entry := entries[idx];
        if entry.Empty? {
          EmptyMeansAbsent(s, hash, slotOf, key, t);
          slot := if firstTombstone.Some? then firstTombstone.value else idx;
          PassedIsReachable(s, home, key, t, slot);
          return;
        }
        if entry.Tombstone? {
          if forInsert && firstTombstone.None? {
            firstTombstone := Some(idx);
          }
        } else if entry.hash == h && entry.key == key {
          return idx;
        }
        assert idx != e;
        NextSlot(home, t, capacity);
        idx := (idx + 1) % capacity;
        t := t + 1;
      }
    }

    /** Put on a key that the probe found. */
    method Overwrite(key: Bytes, cell: Cell, idx: nat)
      requires Valid() && idx < capacity && key in slotOf && idx == slotOf[key]
      modifies this, entries
      ensures Valid() && entries == old(entries) && capacity == old(capacity)
      ensures Contents() == old(Contents())[key := cell] && size == old(size) && slotOf == old(slotOf)
      ensures puts == old(puts) + 1 && moved == old(moved) && tombstones == old(tombstones)
    {
      hide Located, Reachable;
      OverwriteKeeps(entries[..], hash, slotOf, used, size, tombstones, key, cell);
      ghost var s := entries[..];
      entries[idx] := Occupied(hash(key), key, cell);
      assert entries[..] == s[idx := Occupied(hash(key), key, cell)];
      puts := puts + 1;
    }

    /** Put of a new key into the free slot that the probe found; a tombstone there stays counted. */
    method Insert(key: Bytes, cell: Cell, idx: nat)
      requires Valid() && !Loaded(size, tombstones, capacity) && key !in slotOf
      requires idx < capacity && !entries[idx].Occupied? && Reachable(entries[..], Home(key), idx)
      modifies this, entries
      ensures Valid() && entries == old(entries) && capacity == old(capacity)
      ensures Contents() == old(Contents())[key := cell] && size == old(size) + 1 && slotOf.Keys == old(slotOf.Keys) + {key}
      ensures puts == old(puts) + 1 && moved == old(moved) && tombstones == old(tombstones)
    {
      hide Located, Reachable;
      InsertKeeps(entries[..], hash, slotOf, used, size, tombstones, key, cell, idx);
      InsertView(entries[..], hash, slotOf, key, cell, idx);
      ghost var s := entries[..];
      entries[idx] := Occupied(hash(key), key, cell);
      assert entries[..] == s[idx := Occupied(hash(key), key, cell)];
      slotOf := slotOf[key := idx];
      used := used + {idx};
      size := size + 1;
      puts := puts + 1;
    }

    method Put(key: Bytes, value: Bytes, expireTs: nat)
      requires Valid()
      modifies this, entries
      ensures Valid() && Contents() == old(Contents())[key := Cell(value, expireTs)]
      ensures puts == old(puts) + 1
      ensures slotOf.Keys == old(slotOf.Keys) + {key} && size == old(size) + (if key in old(slotOf) then 0 else 1)
      ensures if old(Loaded(size, tombstones, capacity))
              then fresh(entries) && capacity == 2 * old(capacity) && moved == old(moved) + old(size) && tombstones == 0
              else entries == old(entries) && capacity == old(capacity) && moved == old(moved) && tombstones == old(tombstones)
      decreases if Loaded(size, tombstones, capacity) then 2 else 0
    {
      hide Located, Reachable;
      if Loaded(size, tombstones, capacity) {
        Rehash();
      }
      var idx := FindSlot(hash(key), key, true);
      if entries[idx].Occupied? {
        Overwrite(key, Cell(value, expireTs), idx);
      } else {
        Insert(key, Cell(value, expireTs), idx);
      }
    }

    /** A rehash has brought over the live keys of the first i old slots. */
    ghost predicate Moving(was: seq<Entry>, wasAt: map<Bytes, nat>, i: nat, p: nat, m: nat)
      reads this, entries
    {
      && Valid() && Located(was, hash, wasAt) && capacity == 2 * |was| && i <= |was|
      && Balanced(initial, capacity, |wasAt|, 0, p, m + |wasAt|) && !Loaded(|wasAt|, 0, capacity)
      && tombstones == 0 && puts == p + size && moved == m + size
      && slotOf.Keys == KeysBelow(wasAt, i) && Contents() == PartView(was, hash, wasAt, i)
    }

    /** The empty array of twice the size with which a rehash begins. */
    method StartDoubling()
      requires Valid() && Loaded(size, tombstones, capacity)
      modifies this
      ensures fresh(entries) && Moving(old(entries[..]), old(slotOf), 0, old(puts), old(moved))
      ensures old(entries)[..] == old(entries[..])
    {
      hide Located, Reachable, KeysBelow, PartView, View, WellFormed;
      LiveCount(entries[..], hash, slotOf, used, size, tombstones);
      RehashBalances(initial, capacity, size, tombstones, puts, moved);
      NothingStored(2 * capacity, hash);
      NothingMoved(entries[..], hash, slotOf);
      capacity := 2 * capacity;
      exponent := exponent + 1;
      entries := new Entry[capacity](_ => Empty);
      size, tombstones := 0, 0;
      slotOf, used := map[], {};
      assert entries[..] == seq(capacity, _ => Empty);
    }

    /** One round of the rehash loop; its insertion cannot trigger another rehash. */
    method MoveEntry(e: Entry, ghost was: seq<Entry>, ghost wasAt: map<Bytes, nat>, ghost i: nat, ghost p: nat, ghost m: nat)
      requires i < |was| && Moving(was, wasAt, i, p, m) && e == was[i] && e.Occupied?
      modifies this, entries
      ensures Moving(was, wasAt, i + 1, p, m) && entries == old(entries)
      decreases 1, 0
    {
      hide Located, Reachable, KeysBelow, PartView, View, Pow2;
      PartViewStep(was, hash, wasAt, i);
      SubsetIsSmaller(slotOf.Keys + {e.key}, wasAt.Keys);
      Put(e.key, e.cell.value, e.cell.expireTs);
      moved := moved + 1;
    }

    /** Doubles the table and inserts the live entries again. */
    method Rehash()
      requires Valid() && Loaded(size, tombstones, capacity)
      modifies this
      ensures Valid() && fresh(entries) && Contents() == old(Contents()) && slotOf.Keys == old(slotOf.Keys)
      ensures !Loaded(size, tombstones, capacity)
      ensures capacity == 2 * old(capacity) && size == old(size) && tombstones == 0
      ensures puts == old(puts) && moved == old(moved) + size
      decreases 1
    {
      hide Located, Reachable;
      ghost var was, wasAt, p, m := entries[..], slotOf, puts, moved;
      var oldEntries, oldCapacity := entries, capacity;
      StartDoubling();
      var i := 0;
      while i < oldCapacity
        invariant 0 <= i <= oldCapacity && fresh(entries) && oldEntries[..] == was
        invariant Moving(was, wasAt, i, p, m)
      {
        var e := oldEntries[i];
        assert e == was[i];
        if e.Occupied? {
          MoveEntry(e, was, wasAt, i, p, m);
        } else {
          PartViewStep(was, hash, wasAt, i);
        }
        i := i + 1;
      }
      FinishMoving(was, wasAt, p, m);
      puts := p;
    }

    /** After the last slot the new table holds what the old one held. */
    lemma FinishMoving(was: seq<Entry>, wasAt: map<Bytes, nat>, p: nat, m: nat)
      requires Moving(was, wasAt, |was|, p, m)
      ensures slotOf.Keys == wasAt.Keys && size == |wasAt| && Contents() == View(was, hash, wasAt)
    {
    }

    /** A hit on an expired entry turns it into a tombstone and reports a miss. */
    method Get(key: Bytes, now: nat) returns (r: Option<Bytes>)
      requires Valid()
      modifies this, entries
      ensures Valid() && entries == old(entries) && capacity == old(capacity)
      ensures var was := old(Contents());
              && r == (if key in was && (was[key].expireTs == 0 || now <= was[key].expireTs) then Some(was[key].value) else None)
              && Contents() == (if key in was && 0 < was[key].expireTs < now then was - {key} else was)
      ensures puts == old(puts) && moved == old(moved) && size + tombstones == old(size + tombstones)
    {
      var idx := FindSlot(hash(key), key, false);
      if !entries[idx].Occupied? {
        return None;
      }
      if Expired(entries[idx].cell, now) {
        Bury(key, idx);
        return None;
      }
      return Some(entries[idx].cell.value);
    }

    method Del(key: Bytes) returns (ok: bool)
      requires Valid()
      modifies this, entries
      ensures Valid() && entries == old(entries) && capacity == old(capacity)
      ensures ok == (key in old(Contents())) && Contents() == old(Contents()) - {key}
      ensures puts == old(puts) && moved == old(moved) && size + tombstones == old(size + tombstones)
    {
      var idx := FindSlot(hash(key), key, false);
      if !entries[idx].Occupied? {
        assert Contents() - {key} == Contents();
        return false;
      }
      Bury(key, idx);
      return true;
    }

    method Bury(key: Bytes, idx: nat)
      requires Valid() && idx < capacity && key in slotOf && idx == slotOf[key]
      modifies this, entries
      ensures Valid() && entries == old(entries) && capacity == old(capacity)
      ensures Contents() == old(Contents()) - {key}
      ensures puts == old(puts) && moved == old(moved) && size + tombstones == old(size + tombstones)
    {
      hide Located, Reachable;
      BuryKeeps(entries[..], hash, slotOf, used, size, tombstones, key);
      ghost var s := entries[..];
      entries[idx] := Tombstone;
      assert entries[..] == s[idx := Tombstone];
      slotOf := slotOf - {key};
      size := size - 1;
      tombstones := tombstones + 1;
    }

    /** What for_each visits: every live entry once, in slot order. */
    method ForEach() returns (es: seq<(Bytes, Cell)>)
      requires Valid()
      ensures forall i | 0 <= i < |es| :: es[i].0 in Contents() && Contents()[es[i].0] == es[i].1
      ensures forall i, j | 0 <= i < j < |es| :: es[i].0 != es[j].0
      ensures forall k | k in Contents() :: (k, Contents()[k]) in es
    {
      es := [];
      var i := 0;
      while i < capacity
        invariant 0 <= i <= capacity
        invariant forall j | 0 <= j < |es| ::
                    es[j].0 in slotOf && slotOf[es[j].0] < i && entries[slotOf[es[j].0]].cell == es[j].1
        invariant forall j, j' | 0 <= j < j' < |es| :: es[j].0 != es[j'].0
        invariant forall k | k in slotOf && slotOf[k] < i :: (k, entries[slotOf[k]].cell) in es
      {
        var e := entries[i];
        if e.Occupied? {
          es := es + [(e.key, e.cell)];
        }
        i := i + 1;
      }
    }

    /**
     Growth over any run of n puts, however deletions and expiries interleave: the capacity stays
     within 20n/7 of slots unless it is still the initial one, and all rehashes together have moved
     at most 15n/7 entries.
     */
    lemma GrowthIsLinear()
      requires Valid()
      ensures capacity == initial || 7 * capacity <= 20 * puts
      ensures 7 * moved <= 15 * puts
      ensures exists i :: 0 <= i < entries.Length && entries[i].Empty?
    {
      var e := EmptySlotExists(entries[..], used);
      assert entries[e].Empty?;
    }
  }
}
