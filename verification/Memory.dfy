/** The memtable: the hash table, expiry times, and the byte count that triggers a flush. */
module Memory {
  import opened ByteStrings
  import opened Wrappers
  import HashTable
  import opened Cells = HashTable

  /** What a memtable means: its cells and its byte count. */
  datatype MemState = MemState(cells: Mem, bytes: nat)

  const NO_CELLS: MemState := MemState(map[], 0)

  /** A time to live as an expiry time, in 64-bit arithmetic; 0 stays 0. */
  function ExpireAt(ttl: nat, now: nat): nat {
    if ttl == 0 then 0 else (now + ttl) % U64_LIMIT
  }

  function AfterPut(m: MemState, key: Bytes, value: Bytes, ttl: nat, now: nat): MemState {
    MemState(m.cells[key := Cell(value, ExpireAt(ttl, now))], m.bytes + |key| + |value|)
  }

  function AfterDel(m: MemState, key: Bytes): MemState {
    if key in m.cells then MemState(m.cells - {key}, m.bytes + |key|) else m
  }

  lemma {:induction false} SixteenIsPower(n: nat)
    ensures n > 4 ==> Pow2(n) >= 32
    ensures 16 <= Pow2(n) < 32 ==> Pow2(n) == 16
  {
    if n > 5 { SixteenIsPower(n - 1); }
    assert Pow2(4) == 16 && Pow2(5) == 32;
  }

  class MemTable {
    const table: HashTable.Table
    var bytes: nat

    ghost predicate Valid()
      reads this, table, table.entries
    {
      table.Valid()
    }

    ghost function State(): MemState
      requires Valid()
      reads this, table, table.entries
    {
      MemState(table.Contents(), bytes)
    }

    constructor (hash: Bytes -> nat)
      ensures Valid() && State() == NO_CELLS && table.capacity == 16 && fresh(table) && fresh(table.entries)
    {
      hide HashTable.WellFormed, HashTable.Balanced;
      table := new HashTable.Table(16, hash);
      bytes := 0;
      new;
      SixteenIsPower(table.exponent);
    }

    method Put(key: Bytes, value: Bytes, ttl: nat, now: nat)
      requires Valid()
      modifies this, table, table.entries
      ensures Valid() && State() == AfterPut(old(State()), key, value, ttl, now)
      ensures table.entries == old(table.entries) || fresh(table.entries)
    {
      hide HashTable.WellFormed, HashTable.Balanced;
      table.Put(key, value, ExpireAt(ttl, now));
      bytes := bytes + |key| + |value|;
    }

    method Get(key: Bytes, now: nat) returns (r: Option<Bytes>)
      requires Valid()
      modifies this, table, table.entries
      ensures Valid() && table.entries == old(table.entries) && bytes == old(bytes)
      ensures var was := old(State()).cells;
              && r == (if key in was && (was[key].expireTs == 0 || now <= was[key].expireTs) then Some(was[key].value) else None)
              && State().cells == (if key in was && 0 < was[key].expireTs < now then was - {key} else was)
    {
      r := table.Get(key, now);
    }

    method Del(key: Bytes) returns (ok: bool)
      requires Valid()
      modifies this, table, table.entries
      ensures Valid() && table.entries == old(table.entries)
      ensures ok == (key in old(State()).cells) && State() == AfterDel(old(State()), key)
    {
      hide HashTable.WellFormed, HashTable.Balanced;
      ok := table.Del(key);
      if ok {
        bytes := bytes + |key|;
      } else {
        assert old(State()).cells - {key} == old(State()).cells;
      }
    }

    method ForEach() returns (es: seq<(Bytes, Cell)>)
      requires Valid()
      ensures forall i | 0 <= i < |es| :: es[i].0 in State().cells && State().cells[es[i].0] == es[i].1
      ensures forall i, j | 0 <= i < j < |es| :: es[i].0 != es[j].0
      ensures forall k | k in State().cells :: (k, State().cells[k]) in es
    {
      es := table.ForEach();
    }
  }
}
