/** Immutable sorted tables: file format, index, binary search and prefix scan (MiniVaultDB/src/engine/sstable.cpp). */
module SortedTable {
  import opened ByteStrings
  import opened Wrappers
  import opened Crc32

  type KVs = seq<(Bytes, Bytes)>

  datatype IndexEntry = IndexEntry(key: Bytes, offset: nat)

  const MAGIC: nat := 0x4D56_5354_424C_4551
  const FOOTER: nat := 24

  ghost predicate Sorted(kvs: KVs) {
    forall i, j | 0 <= i < j < |kvs| :: Less(kvs[i].0, kvs[j].0)
  }

  predicate SizesFit(kvs: KVs) {
    forall i | 0 <= i < |kvs| :: |kvs[i].0| < U32_LIMIT && |kvs[i].1| < U32_LIMIT
  }

  /** Lengths and file offsets fit their fields. */
  predicate Fits(kvs: KVs) {
    SizesFit(kvs) && |Build(kvs)| < U64_LIMIT
  }

  // ---------- the meaning of a table ----------

  function ToMap(kvs: KVs): map<Bytes, Bytes> {
    if kvs == [] then map[] else ToMap(kvs[..|kvs| - 1])[kvs[|kvs| - 1].0 := kvs[|kvs| - 1].1]
  }

  function Lookup(m: map<Bytes, Bytes>, key: Bytes): Option<Bytes> {
    if key in m then Some(m[key]) else None
  }

  lemma {:induction false} ToMapOnly(kvs: KVs, key: Bytes)
    requires forall i | 0 <= i < |kvs| :: kvs[i].0 != key
    ensures key !in ToMap(kvs)
  {
    if kvs != [] { ToMapOnly(kvs[..|kvs| - 1], key); }
  }

  lemma {:induction false} ToMapHas(kvs: KVs, i: nat)
    requires Sorted(kvs) && i < |kvs|
    ensures kvs[i].0 in ToMap(kvs) && ToMap(kvs)[kvs[i].0] == kvs[i].1
  {
    var last := |kvs| - 1;
    if i < last {
      LessAsymmetric(kvs[i].0, kvs[last].0);
      ToMapHas(kvs[..last], i);
    }
  }

  lemma {:induction false} ToMapKey(kvs: KVs, key: Bytes) returns (i: nat)
    requires key in ToMap(kvs)
    ensures i < |kvs| && kvs[i].0 == key
  {
    if kvs[|kvs| - 1].0 == key {
      i := |kvs| - 1;
    } else {
      i := ToMapKey(kvs[..|kvs| - 1], key);
    }
  }

  /** The pairs whose key starts with p, in table order. */
  function Prefixed(kvs: KVs, p: Bytes): KVs {
    if kvs == [] then []
    else Prefixed(kvs[..|kvs| - 1], p) + if HasPrefix(kvs[|kvs| - 1].0, p) then [kvs[|kvs| - 1]] else []
  }

  /** They form one block of the table. */
  lemma {:induction false} PrefixedIsABlock(kvs: KVs, p: Bytes, lo: nat, hi: nat)
    requires lo <= hi <= |kvs|
    requires forall i | 0 <= i < |kvs| :: HasPrefix(kvs[i].0, p) <==> lo <= i < hi
    ensures Prefixed(kvs, p) == kvs[lo..hi]
  {
    hide HasPrefix;
    if kvs != [] {
      var last := |kvs| - 1;
      var front := kvs[..last];
      if lo == |kvs| {
        PrefixedIsABlock(front, p, last, last);
      } else if hi == |kvs| {
        PrefixedIsABlock(front, p, lo, last);
        assert kvs[lo..] == front[lo..last] + [kvs[last]];
      } else {
        PrefixedIsABlock(front, p, lo, hi);
      }
    }
  }

  /** The block starts at the lower bound of p and ends where the scan first meets another key. */
  lemma ScanFindsBlock(kvs: KVs, p: Bytes, lo: nat, hi: nat)
    requires Sorted(kvs) && lo <= hi <= |kvs|
    requires forall i | 0 <= i < lo :: Less(kvs[i].0, p)
    requires forall i | lo <= i < |kvs| :: !Less(kvs[i].0, p)
    requires forall i | lo <= i < hi :: HasPrefix(kvs[i].0, p)
    requires hi < |kvs| ==> !HasPrefix(kvs[hi].0, p)
    ensures Prefixed(kvs, p) == kvs[lo..hi]
  {
    forall i | 0 <= i < |kvs|
      ensures HasPrefix(kvs[i].0, p) <==> lo <= i < hi
    {
      if i < lo && HasPrefix(kvs[i].0, p) {
        PrefixNotBelow(kvs[i].0, p);
      } else if hi < i && HasPrefix(kvs[i].0, p) {
        PrefixesAreABlock(p, kvs[hi].0, kvs[i].0);
      }
    }
    PrefixedIsABlock(kvs, p, lo, hi);
  }

  lemma {:induction false} PrefixedMember(kvs: KVs, p: Bytes, kv: (Bytes, Bytes))
    ensures kv in Prefixed(kvs, p) <==> kv in kvs && HasPrefix(kv.0, p)
  {
    if kvs != [] {
      var last := |kvs| - 1;
      PrefixedMember(kvs[..last], p, kv);
      assert kvs == kvs[..last] + [kvs[last]];
    }
  }

  // ---------- writing ----------

  function RecordOf(kv: (Bytes, Bytes)): (r: Bytes)
    requires |kv.0| < U32_LIMIT && |kv.1| < U32_LIMIT
    ensures |r| == 20 + |kv.0| + |kv.1|
  {
    U32(|kv.0|) + U32(|kv.1|) + U64(0) + kv.0 + kv.1
    + U32(Checksum(FieldBytes(0, |kv.0|, |kv.1|, 0, kv.0, kv.1)))
  }

  function Data(kvs: KVs): Bytes
    requires SizesFit(kvs)
  {
    if kvs == [] then [] else Data(kvs[..|kvs| - 1]) + RecordOf(kvs[|kvs| - 1])
  }

  function Index(kvs: KVs): (es: seq<IndexEntry>)
    requires SizesFit(kvs)
    ensures |es| == |kvs|
    ensures forall i | 0 <= i < |kvs| :: es[i] == IndexEntry(kvs[i].0, |Data(kvs[..i])|)
  {
    seq(|kvs|, i requires 0 <= i < |kvs| => IndexEntry(kvs[i].0, |Data(kvs[..i])|))
  }

  /** Key length, key and the 64-bit offset. */
  function EntryBytes(e: IndexEntry): (r: Bytes)
    requires |e.key| < U32_LIMIT
    ensures |r| == 12 + |e.key|
  {
    U32(|e.key|) + e.key + Little(e.offset, 8)
  }

  predicate KeysFit(es: seq<IndexEntry>) {
    forall i | 0 <= i < |es| :: |es[i].key| < U32_LIMIT
  }

  function IndexBytes(es: seq<IndexEntry>): Bytes
    requires KeysFit(es)
  {
    if es == [] then [] else EntryBytes(es[0]) + IndexBytes(es[1..])
  }

  function Footer(offset: nat, size: nat): (r: Bytes)
    ensures |r| == FOOTER
  {
    Little(offset, 8) + Little(size, 8) + Little(MAGIC, 8)
  }

  /** The whole file. */
  function Build(kvs: KVs): Bytes
    requires SizesFit(kvs)
  {
    Data(kvs) + IndexBytes(Index(kvs)) + Footer(|Data(kvs)|, |IndexBytes(Index(kvs))|)
  }

  /** The bytes of a record: both lengths, eight zeros, key, value, and the checksum of a zero and all of that. */
  lemma RecordLayout(key: Bytes, value: Bytes)
    requires |key| < 0x1_0000_0000 && |value| < 0x1_0000_0000
    ensures var r, k, v := RecordOf((key, value)), |key|, |value|;
            && |r| == 20 + k + v && ReadU32(r[..4]) == k && ReadU32(r[4..8]) == v && r[8..16] == [0, 0, 0, 0, 0, 0, 0, 0]
            && r[16..16 + k] == key && r[16 + k..16 + k + v] == value
            && ReadU32(r[|r| - 4..]) == Checksum([0] + r[..|r| - 4])
  {
    hide Checksum, Number;
    var r, sum := RecordOf((key, value)), Checksum(FieldBytes(0, |key|, |value|, 0, key, value));
    U64Halves(0);
    U32Bytes(0);
    assert U64(0) == [0, 0, 0, 0, 0, 0, 0, 0];
    hide Little;
    U32RoundTrip(|key|);
    U32RoundTrip(|value|);
    U32RoundTrip(sum);
    assert r == U32(|key|) + U32(|value|) + U64(0) + key + value + U32(sum);
    assert r[..4] == U32(|key|) && r[4..8] == U32(|value|) && r[8..16] == U64(0);
    assert r[|r| - 4..] == U32(sum);
    assert [0] + r[..|r| - 4] == FieldBytes(0, |key|, |value|, 0, key, value);
  }

  /** The last 24 bytes of a file: where the index starts, how long it is, and eight fixed bytes. */
  lemma FileEnd(kvs: KVs)
    requires Fits(kvs)
    ensures var f, n := Build(kvs), |Build(kvs)|;
            && n >= 24 && f[n - 8..] == [0x51, 0x45, 0x4C, 0x42, 0x54, 0x53, 0x56, 0x4D]
            && ReadU64(f[n - 24..n - 16]) == |Data(kvs)| && ReadU64(f[n - 16..n - 8]) == n - 24 - |Data(kvs)|
            && f[|Data(kvs)|..n - 24] == IndexBytes(Index(kvs)) && f[..|Data(kvs)|] == Data(kvs)
  {
    hide Data, IndexBytes, Index, Little, Number;
    var f, n, d, x := Build(kvs), |Build(kvs)|, Data(kvs), IndexBytes(Index(kvs));
    MagicBytes();
    U64RoundTrip(|d|);
    U64RoundTrip(|x|);
    assert f == d + x + (U64(|d|) + U64(|x|) + U64(MAGIC));
    assert f[n - 24..n - 16] == U64(|d|) && f[n - 16..n - 8] == U64(|x|) && f[n - 8..] == U64(MAGIC);
  }

  lemma MagicBytes()
    ensures U64(MAGIC) == [0x51, 0x45, 0x4C, 0x42, 0x54, 0x53, 0x56, 0x4D]
  {
    hide Little;
    U64Halves(MAGIC);
    LowHalf();
    HighHalf();
  }

  lemma LowHalf()
    ensures U32(0x424C_4551) == [0x51, 0x45, 0x4C, 0x42]
  {
    hide Little;
    U32Bytes(0x424C_4551);
  }

  lemma HighHalf()
    ensures U32(0x4D56_5354) == [0x54, 0x53, 0x56, 0x4D]
  {
    hide Little;
    U32Bytes(0x4D56_5354);
  }

  /** An index entry: the length of the key, the key, and the offset of its record. */
  lemma EntryLayout(key: Bytes, offset: nat)
    requires |key| < 0x1_0000_0000 && offset < 0x1_0000_0000_0000_0000
    ensures var e, k := EntryBytes(IndexEntry(key, offset)), |key|;
            |e| == 12 + k && ReadU32(e[..4]) == k && e[4..4 + k] == key && ReadU64(e[4 + k..]) == offset
  {
    hide Little, Number;
    U32RoundTrip(|key|);
    U64RoundTrip(offset);
    var e := EntryBytes(IndexEntry(key, offset));
    assert e == U32(|key|) + key + U64(offset);
    assert e[..4] == U32(|key|) && e[4..4 + |key|] == key && e[4 + |key|..] == U64(offset);
  }

  // ---------- reading ----------

  datatype EntryRead = NoEntry | AnEntry(entry: IndexEntry, size: nat)

  function ReadEntry(d: Bytes): (r: EntryRead)
    ensures r.AnEntry? ==> 12 <= r.size <= |d|
  {
    if |d| < 4 then NoEntry else
    var n := ReadU32(d[..4]);
    if |d| < 12 + n then NoEntry else AnEntry(IndexEntry(d[4..4 + n], ReadU64(d[4 + n..12 + n])), 12 + n)
  }

  function ReadIndex(d: Bytes): seq<IndexEntry>
    decreases |d|
  {
    match ReadEntry(d)
    case NoEntry => []
    case AnEntry(e, size) => [e] + ReadIndex(d[size..])
  }

  /** The record that starts a byte string; None when it is cut short or its checksum does not fit. */
  function ReadPair(d: Bytes): Option<(Bytes, Bytes)> {
    if |d| < 16 then None else
    var kl, vl, stamp := ReadU32(d[..4]), ReadU32(d[4..8]), ReadU64(d[8..16]);
    var end := 16 + kl + vl;
    if |d| < end + 4 then None else
    var key, value := d[16..16 + kl], d[16 + kl..end];
    if Checksum(FieldBytes(0, kl, vl, stamp, key, value)) != ReadU32(d[end..end + 4]) then None
    else Some((key, value))
  }

  /** What is read of any bytes: a record that is whole and whose checksum is that of a zero and all before it. */
  lemma ReadPairExactly(d: Bytes)
    ensures ReadPair(d) ==
              if |d| < 20 then None
              else
                var k, n := ReadU32(d[..4]), 20 + ReadU32(d[..4]) + ReadU32(d[4..8]);
                if |d| < n || ReadU32(d[n - 4..n]) != Checksum([0] + d[..n - 4]) then None else Some((d[16..16 + k], d[16 + k..n - 4]))
  {
    hide Checksum, Little, Number;
    if |d| >= 20 {
      var k, v, stamp := ReadU32(d[..4]), ReadU32(d[4..8]), ReadU64(d[8..16]);
      var n := 20 + k + v;
      if |d| >= n {
        assert d[..n - 4] == d[..4] + d[4..8] + d[8..16] + d[16..16 + k] + d[16 + k..n - 4];
        assert [0] + d[..n - 4] == FieldBytes(0, k, v, stamp, d[16..16 + k], d[16 + k..n - 4]);
      }
    }
  }

  function ReadPairs(file: Bytes, es: seq<IndexEntry>): Option<KVs> {
    if es == [] then Some([])
    else if |file| < es[0].offset then None
    else
      match (ReadPair(file[es[0].offset..]), ReadPairs(file, es[1..]))
      case (Some(kv), Some(kvs)) => Some([kv] + kvs)
      case _ => None
  }

  /** Everything that the index of a file leads to. */
  function ReadTable(file: Bytes): Option<KVs> {
    if |file| < FOOTER then None else
    var foot := file[|file| - FOOTER..];
    var offset, size := ReadU64(foot[..8]), ReadU64(foot[8..16]);
    if ReadU64(foot[16..]) != MAGIC || offset + size > |file| then None
    else ReadPairs(file, ReadIndex(file[offset..offset + size]))
  }

  // ---------- round trips ----------

  lemma PairFields(kv: (Bytes, Bytes), rest: Bytes)
    requires |kv.0| < U32_LIMIT && |kv.1| < U32_LIMIT
    ensures var d := RecordOf(kv) + rest;
            var end := 16 + |kv.0| + |kv.1|;
            && d[..4] == U32(|kv.0|) && d[4..8] == U32(|kv.1|) && d[8..16] == U64(0)
            && d[16..16 + |kv.0|] == kv.0 && d[16 + |kv.0|..end] == kv.1
            && d[end..end + 4] == U32(Checksum(FieldBytes(0, |kv.0|, |kv.1|, 0, kv.0, kv.1)))
  {
    hide Little, Checksum, FieldBytes;
    var d, a, b, c := RecordOf(kv) + rest, U32(|kv.0|), U32(|kv.1|), U64(0);
    var sum := U32(Checksum(FieldBytes(0, |kv.0|, |kv.1|, 0, kv.0, kv.1)));
    assert d == a + b + c + kv.0 + kv.1 + sum + rest;
    assert d[..4] == a && d[4..8] == b && d[8..16] == c;
  }

  lemma ReadPairBack(kv: (Bytes, Bytes), rest: Bytes)
    requires |kv.0| < U32_LIMIT && |kv.1| < U32_LIMIT
    ensures ReadPair(RecordOf(kv) + rest) == Some(kv)
  {
    hide Little, Number, Checksum, FieldBytes, RecordOf;
    PairFields(kv, rest);
    U32RoundTrip(|kv.0|);
    U32RoundTrip(|kv.1|);
    U64RoundTrip(0);
    U32RoundTrip(Checksum(FieldBytes(0, |kv.0|, |kv.1|, 0, kv.0, kv.1)));
  }

  lemma ReadEntryBack(e: IndexEntry, rest: Bytes)
    requires |e.key| < U32_LIMIT && e.offset < U64_LIMIT
    ensures ReadEntry(EntryBytes(e) + rest) == AnEntry(e, 12 + |e.key|)
  {
    hide Little, Number;
    var d, n := EntryBytes(e) + rest, |e.key|;
    assert d[..4] == U32(n);
    assert d[4..4 + n] == e.key;
    assert d[4 + n..12 + n] == U64(e.offset);
    U32RoundTrip(n);
    U64RoundTrip(e.offset);
  }

  lemma SliceOfSlice(s: Bytes, p: nat, q: nat, a: nat, b: nat)
    requires p <= q <= |s| && a <= b <= q - p
    ensures s[p..q][a..b] == s[p + a..p + b]
  {
    var t, u := s[p..q][a..b], s[p + a..p + b];
    forall i | 0 <= i < b - a
      ensures t[i] == u[i]
    {
      assert t[i] == s[p..q][a + i] == s[p + (a + i)];
      assert u[i] == s[p + a + i];
    }
  }

  lemma EntryFields(e: IndexEntry, rest: Bytes)
    requires |e.key| < U32_LIMIT && e.offset < U64_LIMIT
    ensures var d, n := EntryBytes(e) + rest, |e.key|;
            && |d| == 12 + n + |rest| && d[0..4] == U32(n) && d[4..4 + n] == e.key && d[4 + n..12 + n] == U64(e.offset)
            && d[12 + n..|d|] == rest
  {
    hide Little;
    var d := EntryBytes(e) + rest;
    assert d == U32(|e.key|) + e.key + U64(e.offset) + rest;
  }

  lemma NoEntryInNothing()
    ensures ReadEntry([]) == NoEntry
  {
  }

  lemma {:induction false} ReadIndexBack(es: seq<IndexEntry>)
    requires KeysFit(es) && forall i | 0 <= i < |es| :: es[i].offset < U64_LIMIT
    ensures ReadIndex(IndexBytes(es)) == es
    decreases |es|
  {
    hide ReadEntry, EntryBytes;
    if es == [] {
      NoEntryInNothing();
    } else {
      ReadEntryBack(es[0], IndexBytes(es[1..]));
      ReadIndexBack(es[1..]);
    }
  }

  lemma {:induction false} DataSplits(kvs: KVs, i: nat)
    requires SizesFit(kvs) && i < |kvs|
    ensures |Data(kvs[..i])| + |RecordOf(kvs[i])| <= |Data(kvs)|
    ensures Data(kvs)[|Data(kvs[..i])|..|Data(kvs[..i])| + |RecordOf(kvs[i])|] == RecordOf(kvs[i])
  {
    hide RecordOf;
    var last := |kvs| - 1;
    var front, record := Data(kvs[..last]), RecordOf(kvs[last]);
    assert Data(kvs) == front + record;
    if i < last {
      DataSplits(kvs[..last], i);
      assert kvs[..last][..i] == kvs[..i];
      var a, n := |Data(kvs[..i])|, |RecordOf(kvs[i])|;
      assert (front + record)[a..a + n] == front[a..a + n];
    } else {
      assert kvs[..last] == kvs[..i];
      assert (front + record)[|front|..|front| + |record|] == record;
    }
  }

  /** An offset of the index is where the record of its key starts. */
  lemma RecordAtOffset(kvs: KVs, i: nat)
    requires SizesFit(kvs) && i < |kvs|
    ensures var offset := |Data(kvs[..i])|;
            && offset + |RecordOf(kvs[i])| <= |Build(kvs)|
            && Build(kvs)[offset..] == RecordOf(kvs[i]) + Build(kvs)[offset + |RecordOf(kvs[i])|..]
  {
    hide RecordOf, Data, IndexBytes, Footer, Index;
    DataSplits(kvs, i);
    var a, n := |Data(kvs[..i])|, |RecordOf(kvs[i])|;
    assert Build(kvs)[a..a + n] == Data(kvs)[a..a + n];
    assert Build(kvs)[a..] == Build(kvs)[a..a + n] + Build(kvs)[a + n..];
  }

  lemma ReadPairAt(kvs: KVs, i: nat)
    requires SizesFit(kvs) && i < |kvs|
    ensures |Data(kvs[..i])| <= |Build(kvs)| && ReadPair(Build(kvs)[|Data(kvs[..i])|..]) == Some(kvs[i])
  {
    hide RecordOf, Data, Build, ReadPair;
    RecordAtOffset(kvs, i);
    ReadPairBack(kvs[i], Build(kvs)[|Data(kvs[..i])| + |RecordOf(kvs[i])|..]);
  }

  lemma {:induction false} ReadPairsBack(kvs: KVs, i: nat)
    requires SizesFit(kvs) && i <= |kvs|
    ensures ReadPairs(Build(kvs), Index(kvs)[i..]) == Some(kvs[i..])
    decreases |kvs| - i
  {
    hide RecordOf, Data, Build, ReadPair;
    if i == |kvs| {
      assert Index(kvs)[i..] == [] && kvs[i..] == [];
    } else {
      ReadPairsBack(kvs, i + 1);
      ReadPairAt(kvs, i);
      assert Index(kvs)[i..][1..] == Index(kvs)[i + 1..];
      assert kvs[i..] == [kvs[i]] + kvs[i + 1..];
    }
  }

  lemma FooterFields(kvs: KVs)
    requires Fits(kvs)
    ensures |Data(kvs)| + |IndexBytes(Index(kvs))| + FOOTER == |Build(kvs)|
    ensures var foot := Build(kvs)[|Build(kvs)| - FOOTER..];
            && ReadU64(foot[..8]) == |Data(kvs)| && ReadU64(foot[8..16]) == |IndexBytes(Index(kvs))|
            && ReadU64(foot[16..]) == MAGIC
    ensures Build(kvs)[|Data(kvs)|..|Data(kvs)| + |IndexBytes(Index(kvs))|] == IndexBytes(Index(kvs))
  {
    hide Data, IndexBytes, Index, Little, Number;
    var a, b := |Data(kvs)|, |IndexBytes(Index(kvs))|;
    var foot := Build(kvs)[|Build(kvs)| - FOOTER..];
    assert foot == Footer(a, b);
    assert foot[..8] == U64(a) && foot[8..16] == U64(b) && foot[16..] == U64(MAGIC);
    U64RoundTrip(a);
    U64RoundTrip(b);
    U64RoundTrip(MAGIC);
  }

  lemma FitsApart(kvs: KVs)
    requires Fits(kvs)
    ensures SizesFit(kvs) && KeysFit(Index(kvs))
  {
  }

  /** Writing a table and opening it leads back to exactly the pairs written. */
  lemma ReadTableBack(kvs: KVs)
    requires Fits(kvs)
    ensures ReadTable(Build(kvs)) == Some(kvs)
  {
    hide Data, IndexBytes, Build, ReadIndex, ReadPairs, Footer, Index, SizesFit, Fits, Number, Little;
    FitsApart(kvs);
    FooterFields(kvs);
    IndexReadsBack(kvs);
    ReadPairsBack(kvs, 0);
    assert Index(kvs)[0..] == Index(kvs) && kvs[0..] == kvs;
  }

  lemma OffsetsInFile(kvs: KVs)
    requires Fits(kvs)
    ensures KeysFit(Index(kvs)) && forall i | 0 <= i < |kvs| :: Index(kvs)[i].offset < U64_LIMIT
  {
    hide RecordOf, Data, Build;
    forall i | 0 <= i < |kvs| {
      RecordAtOffset(kvs, i);
    }
  }

  lemma IndexReadsBack(kvs: KVs)
    requires Fits(kvs)
    ensures ReadIndex(IndexBytes(Index(kvs))) == Index(kvs)
  {
    OffsetsInFile(kvs);
    ReadIndexBack(Index(kvs));
  }

  lemma {:induction false} IndexBytesAppend(es: seq<IndexEntry>, i: nat)
    requires KeysFit(es) && i < |es|
    ensures IndexBytes(es[..i + 1]) == IndexBytes(es[..i]) + EntryBytes(es[i])
    decreases |es|
  {
    hide EntryBytes;
    if i == 0 {
      assert es[..1] == [es[0]] && es[..1][1..] == [];
    } else {
      assert es[..i + 1][1..] == es[1..][..i] && es[..i][1..] == es[1..][..i - 1];
      IndexBytesAppend(es[1..], i - 1);
    }
  }

  // ---------- the writer ----------

  lemma DataNone(kvs: KVs)
    ensures SizesFit(kvs[..0]) && Data(kvs[..0]) == []
  {
  }

  lemma DataNext(kvs: KVs, i: nat)
    requires SizesFit(kvs) && i < |kvs|
    ensures SizesFit(kvs[..i]) && SizesFit(kvs[..i + 1]) && |kvs[i].0| < U32_LIMIT && |kvs[i].1| < U32_LIMIT
    ensures Data(kvs[..i + 1]) == Data(kvs[..i]) + RecordOf(kvs[i])
  {
    hide RecordOf;
    assert kvs[..i + 1][..i] == kvs[..i];
  }

  /** The records, and the offset at which each one starts. */
  method WriteRecords(kvs: KVs) returns (file: Bytes, index: seq<IndexEntry>)
    requires SizesFit(kvs)
    ensures file == Data(kvs) && index == Index(kvs)
  {
    hide RecordOf, Data, Index, SizesFit;
    file, index := [], [];
    var i := 0;
    DataNone(kvs);
    while i < |kvs|
      invariant 0 <= i <= |kvs| && SizesFit(kvs[..i])
      invariant file == Data(kvs[..i]) && index == Index(kvs)[..i]
    {
      DataNext(kvs, i);
      index := index + [IndexEntry(kvs[i].0, |file|)];
      file := file + RecordOf(kvs[i]);
      i := i + 1;
    }
    assert kvs[..i] == kvs;
  }

  /** Writes a table file; sizes and offsets are taken from the position in it. */
  method BuildFile(kvs: KVs) returns (file: Bytes)
    requires SizesFit(kvs)
    ensures file == Build(kvs)
  {
    hide Data, Index, EntryBytes, Footer;
    var index: seq<IndexEntry>;
    file, index := WriteRecords(kvs);
    var indexOffset := |file|;
    var i := 0;
    while i < |index|
      invariant 0 <= i <= |index| && file == Data(kvs) + IndexBytes(index[..i])
    {
      IndexBytesAppend(index, i);
      file := file + EntryBytes(index[i]);
      i := i + 1;
    }
    assert index[..i] == index;
    var indexSize := |file| - indexOffset;
    file := file + Footer(indexOffset, indexSize);
  }

  // ---------- the reader ----------

  class SSTable {
    const file: Bytes
    var pos: nat
    var index: seq<IndexEntry>
    ghost const kvs: KVs

    ghost predicate Valid()
      reads this
    {
      Sorted(kvs) && Fits(kvs) && file == Build(kvs) && index == Index(kvs)
    }

    /** Opens a file that the writer made. */
    constructor (file: Bytes, ghost kvs: KVs)
      requires Sorted(kvs) && Fits(kvs) && file == Build(kvs)
      ensures Valid() && this.kvs == kvs && this.file == file
    {
      FooterFields(kvs);
      OffsetsInFile(kvs);
      hide Build, Footer, Data, IndexBytes, Little, Number;
      var foot := file[|file| - FOOTER..];
      var indexOffset, indexSize, magic := ReadU64(foot[..8]), ReadU64(foot[8..16]), ReadU64(foot[16..]);
      assert magic == MAGIC;
      this.file := file;
      this.kvs := kvs;
      pos, index := indexOffset, [];
      new;
      LoadIndex(indexOffset + indexSize, Index(kvs));
    }

    /** A read call: short only at the end of the file. */
    method Read(n: nat) returns (b: Bytes)
      requires pos <= |file|
      modifies this`pos
      ensures pos == if old(pos) + n <= |file| then old(pos) + n else |file|
      ensures b == file[old(pos)..pos]
    {
      var end := if pos + n <= |file| then pos + n else |file|;
      b := file[pos..end];
      pos := end;
    }

    method LoadIndex(end: nat, ghost es: seq<IndexEntry>)
      requires pos <= end <= |file| && KeysFit(es) && forall i | 0 <= i < |es| :: es[i].offset < U64_LIMIT
      requires file[pos..end] == IndexBytes(es)
      modifies this
      ensures index == old(index) + es
    {
      ghost var i := 0;
      assert es[0..] == es;
      while pos < end
        invariant pos <= end && 0 <= i <= |es|
        invariant file[pos..end] == IndexBytes(es[i..])
        invariant index == old(index) + es[..i]
        decreases end - pos
      {
        assert es[i..] == [es[i]] + es[i + 1..];
        LoadEntry(end, es[i], IndexBytes(es[i + 1..]));
        i := i + 1;
      }
      assert IndexBytes(es[i..]) == [];
      assert i == |es|;
    }

    /** One entry: its key length, its key, its offset. */
    method LoadEntry(ghost end: nat, ghost e: IndexEntry, ghost rest: Bytes)
      requires pos <= end <= |file| && |e.key| < U32_LIMIT && e.offset < U64_LIMIT
      requires file[pos..end] == EntryBytes(e) + rest
      modifies this
      ensures old(pos) < pos <= end && file[pos..end] == rest && index == old(index) + [e]
    {
      hide Little, Number;
      hide U32, U64, ReadU32, ReadU64, IndexBytes;
      ghost var p, d, n := pos, file[pos..end], |e.key|;
      EntryFields(e, rest);
      U32RoundTrip(n);
      U64RoundTrip(e.offset);
      SliceOfSlice(file, p, end, 0, 4);
      SliceOfSlice(file, p, end, 4, 4 + n);
      SliceOfSlice(file, p, end, 4 + n, 12 + n);
      SliceOfSlice(file, p, end, 12 + n, |d|);
      var length := Read(4);
      var key := Read(ReadU32(length));
      var offset := Read(8);
      index := index + [IndexEntry(key, ReadU64(offset))];
    }

    /** std::lower_bound over the index. */
    method LowerBound(key: Bytes) returns (lo: nat)
      requires Valid()
      ensures lo <= |kvs|
      ensures forall i | 0 <= i < lo :: Less(kvs[i].0, key)
      ensures forall i | lo <= i < |kvs| :: !Less(kvs[i].0, key)
    {
      hide Build, Data;
      lo := 0;
      var n := |index|;
      while n > 0
        invariant 0 <= n && lo + n <= |kvs|
        invariant forall i | 0 <= i < lo :: Less(kvs[i].0, key)
        invariant forall i | lo + n <= i < |kvs| :: !Less(kvs[i].0, key)
      {
        var half := n / 2;
        var mid := lo + half;
        BelowAndAbove(kvs, key, mid);
        if Less(index[mid].key, key) {
          lo := mid + 1;
          n := n - half - 1;
        } else {
          n := half;
        }
      }
    }

    /** The three fixed-size fields of a record. */
    method ReadSizes() returns (ok: bool, keyLen: nat, valueLen: nat, stamp: nat)
      requires pos <= |file|
      modifies this`pos
      ensures pos <= |file| && ok == (old(pos) + 16 <= |file|)
      ensures ok ==> var d := file[old(pos)..];
                pos == old(pos) + 16 && keyLen == ReadU32(d[..4]) && valueLen == ReadU32(d[4..8]) && stamp == ReadU64(d[8..16])
      ensures keyLen < U32_LIMIT && valueLen < U32_LIMIT && stamp < U64_LIMIT
    {
      hide ReadU32, ReadU64;
      ghost var d := file[pos..];
      ok, keyLen, valueLen, stamp := false, 0, 0, 0;
      var kl := Read(4);
      if |kl| != 4 { return; }
      var vl := Read(4);
      if |vl| != 4 { return; }
      var ts := Read(8);
      if |ts| != 8 { return; }
      assert kl == d[..4] && vl == d[4..8] && ts == d[8..16];
      ok, keyLen, valueLen, stamp := true, ReadU32(kl), ReadU32(vl), ReadU64(ts);
    }

    /** The record at an offset, field by field; any short read or bad checksum is a miss. */
    method ReadRecord(offset: nat) returns (r: Option<(Bytes, Bytes)>)
      requires offset <= |file|
      modifies this`pos
      ensures r == ReadPair(file[offset..])
    {
      hide Checksum, FieldBytes, ReadU32, ReadU64;
      ghost var d := file[offset..];
      pos := offset;
      var ok, kl, vl, stamp := ReadSizes();
      if !ok { return None; }
      var key := Read(kl);
      if |key| != kl { return None; }
      var value := Read(vl);
      if |value| != vl { return None; }
      var crc := Read(4);
      if |crc| != 4 { return None; }
      ghost var end := 16 + |key| + |value|;
      assert key == d[16..16 + |key|] && value == d[16 + |key|..end] && crc == d[end..end + 4];
      if Checksum(FieldBytes(0, kl, vl, stamp, key, value)) != ReadU32(crc) { return None; }
      return Some((key, value));
    }

    /** Binary search, then the record: a hit exactly on the keys of the table. */
    method Get(key: Bytes) returns (r: Option<Bytes>)
      requires Valid()
      modifies this`pos
      ensures Valid() && r == Lookup(ToMap(kvs), key)
    {
      hide Build, Data, Less, ReadPair;
      var i := LowerBound(key);
      FoundOrAbsent(kvs, key, i);
      if i == |index| || index[i].key != key {
        return None;
      }
      ReadPairAt(kvs, i);
      var record := ReadRecord(index[i].offset);
      return Some(record.value.1);
    }

    /** Appends the pairs whose key starts with the prefix. */
    method ScanPrefix(prefix: Bytes, results: KVs) returns (out: KVs)
      requires Valid()
      modifies this`pos
      ensures Valid() && out == results + Prefixed(kvs, prefix)
    {
      hide Build, Data, Less, ReadPair;
      out := results;
      var lo := LowerBound(prefix);
      var i := lo;
      while i < |index| && HasPrefix(index[i].key, prefix)
        invariant lo <= i <= |kvs| && Valid()
        invariant out == results + kvs[lo..i]
        invariant forall j | lo <= j < i :: HasPrefix(kvs[j].0, prefix)
      {
        ReadPairAt(kvs, i);
        var record := ReadRecord(index[i].offset);
        if record.Some? {
          out := out + [record.value];
        }
        assert kvs[lo..i + 1] == kvs[lo..i] + [kvs[i]];
        i := i + 1;
      }
      ScanFindsBlock(kvs, prefix, lo, i);
    }
  }

  /** One comparison of the binary search settles a whole side of the table. */
  lemma BelowAndAbove(kvs: KVs, key: Bytes, mid: nat)
    requires Sorted(kvs) && mid < |kvs|
    ensures Less(kvs[mid].0, key) ==> forall i | 0 <= i <= mid :: Less(kvs[i].0, key)
    ensures !Less(kvs[mid].0, key) ==> forall i | mid <= i < |kvs| :: !Less(kvs[i].0, key)
  {
    forall i | 0 <= i < |kvs|
      ensures Less(kvs[mid].0, key) && i <= mid ==> Less(kvs[i].0, key)
      ensures !Less(kvs[mid].0, key) && mid <= i ==> !Less(kvs[i].0, key)
    {
      if i < mid && Less(kvs[mid].0, key) {
        LessTransitive(kvs[i].0, kvs[mid].0, key);
      } else if mid < i && Less(kvs[i].0, key) {
        LessTransitive(kvs[mid].0, kvs[i].0, key);
      }
    }
  }

  /** The lower bound of a key is its entry, or the key is not in the table. */
  lemma FoundOrAbsent(kvs: KVs, key: Bytes, lo: nat)
    requires Sorted(kvs) && lo <= |kvs|
    requires forall i | 0 <= i < lo :: Less(kvs[i].0, key)
    requires forall i | lo <= i < |kvs| :: !Less(kvs[i].0, key)
    ensures Lookup(ToMap(kvs), key) == if lo < |kvs| && kvs[lo].0 == key then Some(kvs[lo].1) else None
  {
    if lo < |kvs| && kvs[lo].0 == key {
      ToMapHas(kvs, lo);
    } else {
      forall i | 0 <= i < |kvs|
        ensures kvs[i].0 != key
      {
        if i < lo {
          LessAsymmetric(kvs[i].0, key);
        } else if i > lo {
          LessTotal(kvs[lo].0, key);
        }
      }
      ToMapOnly(kvs, key);
    }
  }
}
