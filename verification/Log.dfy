/** The write-ahead log: its binary records, its writer and its replay (MiniVaultDB/src/engine/wal.cpp). */
module Log {
  import opened ByteStrings
  import opened Crc32
  import opened Memory

  /** A logged operation. The stamp is what append_put writes in the expiry field. */
  datatype Op = Put(key: Bytes, value: Bytes, stamp: nat) | Del(key: Bytes)

  /** The lengths and the stamp fit the record's fields. */
  predicate Encodable(op: Op) {
    |op.key| < U32_LIMIT && (op.Put? ==> |op.value| < U32_LIMIT && op.stamp < U64_LIMIT)
  }

  predicate AllEncodable(ops: seq<Op>) {
    forall i | 0 <= i < |ops| :: Encodable(ops[i])
  }

  const PUT: Byte := 1
  const DEL: Byte := 2

  function Kind(op: Op): Byte {
    if op.Put? then PUT else DEL
  }

  function ValueOf(op: Op): Bytes {
    if op.Put? then op.value else []
  }

  function StampOf(op: Op): nat {
    if op.Put? then op.stamp else 0
  }

  /** The fields that the checksum covers. */
  function Payload(op: Op): Bytes
    requires Encodable(op)
  {
    FieldBytes(Kind(op), |op.key|, |ValueOf(op)|, StampOf(op), op.key, ValueOf(op))
  }

  /** The length prefix, a 32-bit sum that may wrap; replay skips it unread. */
  function TotalLength(op: Op): (n: nat)
    ensures n < U32_LIMIT
  {
    (21 + |op.key| + |ValueOf(op)|) % U32_LIMIT
  }

  function Record(op: Op): (r: Bytes)
    requires Encodable(op)
    ensures |r| == 25 + |op.key| + |ValueOf(op)|
  {
    U32(TotalLength(op)) + Payload(op) + U32(Checksum(Payload(op)))
  }

  function Encode(ops: seq<Op>): Bytes
    requires AllEncodable(ops)
  {
    if ops == [] then [] else Record(ops[0]) + Encode(ops[1..])
  }

  // ---------- reading ----------

  datatype Parsed = Stop | Got(op: Op, size: nat)

  /** One round of replay on the unread rest of the file: any short read or bad checksum stops it. */
  function Parse(data: Bytes): (p: Parsed)
    ensures p.Got? ==> 25 <= p.size <= |data|
  {
    if |data| < 21 then Stop else
    var kind, keyLen, valueLen, stamp := data[4], ReadU32(data[5..9]), ReadU32(data[9..13]), ReadU64(data[13..21]);
    var end := 21 + keyLen + valueLen;
    if |data| < end + 4 then Stop else
    var key, value := data[21..21 + keyLen], data[21 + keyLen..end];
    if Checksum(FieldBytes(kind, keyLen, valueLen, stamp, key, value)) != ReadU32(data[end..end + 4]) then Stop
    else Got(if kind == PUT then Put(key, value, stamp) else Del(key), end + 4)
  }

  /** The operations that replay finds in a file. */
  function OpsOf(data: Bytes): seq<Op>
    decreases |data|
  {
    match Parse(data)
    case Stop => []
    case Got(op, size) => [op] + OpsOf(data[size..])
  }

  /** The time to live that replay hands to the memtable for a logged stamp, in 64-bit arithmetic. */
  function Remaining(stamp: nat, now: nat): nat {
    if stamp == 0 then 0 else (stamp - now) % U64_LIMIT
  }

  function Apply(m: MemState, op: Op, now: nat): MemState {
    match op
    case Put(key, value, stamp) => AfterPut(m, key, value, Remaining(stamp, now), now)
    case Del(key) => AfterDel(m, key)
  }

  function ApplyAll(m: MemState, ops: seq<Op>, now: nat): MemState
    decreases |ops|
  {
    if ops == [] then m else ApplyAll(Apply(m, ops[0], now), ops[1..], now)
  }

  lemma {:induction false} ApplyAllAppend(m: MemState, ops: seq<Op>, op: Op, now: nat)
    ensures ApplyAll(m, ops + [op], now) == Apply(ApplyAll(m, ops, now), op, now)
    decreases |ops|
  {
    if ops == [] {
      assert [] + [op] == [op];
      assert [op][1..] == [];
    } else {
      assert (ops + [op])[1..] == ops[1..] + [op];
      ApplyAllAppend(Apply(m, ops[0], now), ops[1..], op, now);
    }
  }

  function Header(op: Op): Bytes
    requires Encodable(op)
  {
    U32(TotalLength(op)) + [Kind(op)] + U32(|op.key|) + U32(|ValueOf(op)|) + U64(StampOf(op))
  }

  lemma RecordFields(op: Op)
    requires Encodable(op)
    ensures Record(op) == Header(op) + op.key + ValueOf(op) + U32(Checksum(Payload(op)))
  {
    hide Checksum, Little;
  }

  // ---------- round trips ----------

  lemma PayloadFields(kind: Byte, keyLen: nat, valueLen: nat, stamp: nat, key: Bytes, value: Bytes, head: Bytes, tail: Bytes)
    requires keyLen < U32_LIMIT && valueLen < U32_LIMIT && stamp < U64_LIMIT
    requires |key| == keyLen && |value| == valueLen && |head| == 4
    ensures var d := head + FieldBytes(kind, keyLen, valueLen, stamp, key, value) + tail;
            && d[4] == kind && d[5..9] == U32(keyLen) && d[9..13] == U32(valueLen) && d[13..21] == U64(stamp)
            && d[21..21 + keyLen] == key && d[21 + keyLen..21 + keyLen + valueLen] == value
            && d[21 + keyLen + valueLen..] == tail
  {
    var d := head + FieldBytes(kind, keyLen, valueLen, stamp, key, value) + tail;
    var a, b, c := U32(keyLen), U32(valueLen), U64(stamp);
    assert d == head + [kind] + a + b + c + key + value + tail;
    assert d[5..9] == a;
    assert d[9..13] == b;
    assert d[13..21] == c;
  }

  /**
   The bytes of a record: the number of bytes that follow, if it fits, then 1 for a put and 2 for a
   delete, both lengths, the stamp, key and value, and the checksum of all between it and the first four.
   */
  lemma RecordLayout(op: Op)
    requires Encodable(op)
    ensures var r, k := Record(op), |op.key|;
            var v := if op.Put? then |op.value| else 0;
            && |r| == 25 + k + v && ReadU32(r[..4]) == (21 + k + v) % 0x1_0000_0000
            && r[4] == (if op.Put? then 1 else 2) && ReadU32(r[5..9]) == k && ReadU32(r[9..13]) == v
            && ReadU64(r[13..21]) == (if op.Put? then op.stamp else 0)
            && r[21..21 + k] == op.key && (op.Put? ==> r[21 + k..21 + k + v] == op.value)
            && ReadU32(r[|r| - 4..]) == Checksum(r[4..|r| - 4])
  {
    hide Checksum, Little, Number, FieldBytes;
    var r, crc := Record(op), U32(Checksum(Payload(op)));
    PayloadFields(Kind(op), |op.key|, |ValueOf(op)|, StampOf(op), op.key, ValueOf(op), U32(TotalLength(op)), crc);
    U32RoundTrip(|op.key|);
    U32RoundTrip(|ValueOf(op)|);
    U64RoundTrip(StampOf(op));
    RecordEnds(op);
  }

  lemma RecordEnds(op: Op)
    requires Encodable(op)
    ensures var r := Record(op);
            && ReadU32(r[..4]) == TotalLength(op) && r[4..|r| - 4] == Payload(op) && ReadU32(r[|r| - 4..]) == Checksum(r[4..|r| - 4])
  {
    hide Checksum, Little, Number, FieldBytes, TotalLength;
    var r, p, crc := Record(op), Payload(op), U32(Checksum(Payload(op)));
    U32RoundTrip(TotalLength(op));
    U32RoundTrip(Checksum(p));
    assert r == U32(TotalLength(op)) + p + crc;
    assert r[..4] == U32(TotalLength(op));
    assert r[4..|r| - 4] == p;
    assert r[|r| - 4..] == crc;
  }

  /**
   What replay accepts of any bytes: a record that is whole and whose checksum is that of all between the
   first four bytes and itself; kind 1 is a put and any other kind a delete. The first four are not looked at.
   */
  lemma ParseExactly(data: Bytes)
    ensures Parse(data) ==
              if |data| < 25 then Stop
              else
                var k, n := ReadU32(data[5..9]), 25 + ReadU32(data[5..9]) + ReadU32(data[9..13]);
                if |data| < n || ReadU32(data[n - 4..n]) != Checksum(data[4..n - 4]) then Stop
                else Got(if data[4] == 1 then Put(data[21..21 + k], data[21 + k..n - 4], ReadU64(data[13..21])) else Del(data[21..21 + k]), n)
  {
    hide Checksum, Little, Number;
    if |data| >= 25 {
      var k, v, stamp := ReadU32(data[5..9]), ReadU32(data[9..13]), ReadU64(data[13..21]);
      var n := 25 + k + v;
      if |data| >= n {
        assert data[4..n - 4] == [data[4]] + data[5..9] + data[9..13] + data[13..21] + data[21..21 + k] + data[21 + k..n - 4];
        assert data[4..n - 4] == FieldBytes(data[4], k, v, stamp, data[21..21 + k], data[21 + k..n - 4]);
      }
    }
  }

  /** Replay reads back exactly the record that was written, whatever follows it. */
  lemma ParseRecord(op: Op, rest: Bytes)
    requires Encodable(op)
    ensures Parse(Record(op) + rest) == Got(op, |Record(op)|)
  {
    hide Checksum, Little, Number;
    var data := Record(op) + rest;
    var crc := U32(Checksum(Payload(op)));
    assert data == U32(TotalLength(op)) + Payload(op) + (crc + rest);
    PayloadFields(Kind(op), |op.key|, |ValueOf(op)|, StampOf(op), op.key, ValueOf(op), U32(TotalLength(op)), crc + rest);
    U32RoundTrip(|op.key|);
    U32RoundTrip(|ValueOf(op)|);
    U64RoundTrip(StampOf(op));
    U32RoundTrip(Checksum(Payload(op)));
    var end := 21 + |op.key| + |ValueOf(op)|;
    assert data[end..end + 4] == data[end..][..4] == crc;
  }

  /** A record cut anywhere stops replay. */
  lemma ParseTorn(op: Op, n: nat)
    requires Encodable(op) && n < |Record(op)|
    ensures Parse(Record(op)[..n]) == Stop
  {
    hide Checksum, Little, Number;
    if n >= 21 {
      var data := Record(op)[..n];
      PayloadFields(Kind(op), |op.key|, |ValueOf(op)|, StampOf(op), op.key, ValueOf(op), U32(TotalLength(op)),
                    U32(Checksum(Payload(op))));
      U32RoundTrip(|op.key|);
      U32RoundTrip(|ValueOf(op)|);
      assert data[5..9] == Record(op)[5..9] && data[9..13] == Record(op)[9..13];
    }
  }

  /** How many records lie wholly inside the first n bytes of the log. */
  function Whole(ops: seq<Op>, n: nat): (w: nat)
    requires AllEncodable(ops)
    ensures w <= |ops|
  {
    if ops == [] || n < |Record(ops[0])| then 0 else 1 + Whole(ops[1..], n - |Record(ops[0])|)
  }

  /** Replaying any byte prefix of a log finds exactly the operations whose records are complete in it, in order. */
  lemma {:induction false} PrefixReplays(ops: seq<Op>, n: nat)
    requires AllEncodable(ops) && n <= |Encode(ops)|
    ensures OpsOf(Encode(ops)[..n]) == ops[..Whole(ops, n)]
    decreases |ops|
  {
    hide Record, Parse, Encodable;
    var data := Encode(ops)[..n];
    if ops != [] {
      var r := Record(ops[0]);
      if n < |r| {
        assert data == r[..n];
        ParseTorn(ops[0], n);
      } else {
        assert data == r + Encode(ops[1..])[..n - |r|];
        ParseRecord(ops[0], Encode(ops[1..])[..n - |r|]);
        PrefixReplays(ops[1..], n - |r|);
        assert ops[..Whole(ops, n)] == [ops[0]] + ops[1..][..Whole(ops[1..], n - |r|)];
      }
    }
  }

  lemma {:induction false} WholeOfAll(ops: seq<Op>, extra: nat)
    requires AllEncodable(ops)
    ensures Whole(ops, |Encode(ops)| + extra) == |ops|
    decreases |ops|
  {
    hide Record;
    if ops != [] { WholeOfAll(ops[1..], extra); }
  }

  /** The whole log replays to the whole history. */
  lemma FullReplay(ops: seq<Op>)
    requires AllEncodable(ops)
    ensures OpsOf(Encode(ops)) == ops
  {
    hide OpsOf, Encode, AllEncodable, Whole, Encodable, Record;
    WholeOfAll(ops, 0);
    PrefixReplays(ops, |Encode(ops)|);
    assert Encode(ops)[..|Encode(ops)|] == Encode(ops);
  }

  lemma {:induction false} EncodeConcat(a: seq<Op>, b: seq<Op>)
    requires AllEncodable(a) && AllEncodable(b)
    ensures AllEncodable(a + b) && Encode(a + b) == Encode(a) + Encode(b)
    decreases |a|
  {
    hide Record, Encodable;
    if a == [] {
      assert a + b == b;
    } else {
      assert (a + b)[1..] == a[1..] + b;
      EncodeConcat(a[1..], b);
    }
  }

  /** Appending is writing one more record at the end. */
  lemma EncodeAppend(ops: seq<Op>, op: Op)
    requires AllEncodable(ops) && Encodable(op)
    ensures AllEncodable(ops + [op]) && Encode(ops + [op]) == Encode(ops) + Record(op)
  {
    EncodeConcat(ops, [op]);
    assert Encode([op]) == Record(op) + Encode([]);
  }

  lemma ReplayNext(op: Op, rest: Bytes)
    requires Encodable(op)
    ensures OpsOf(Record(op) + rest) == [op] + OpsOf(rest)
  {
    hide Record, Parse, Encodable;
    ParseRecord(op, rest);
    assert (Record(op) + rest)[|Record(op)|..] == rest;
  }

  lemma {:induction false} ReplayAfter(ops: seq<Op>, rest: Bytes)
    requires AllEncodable(ops)
    ensures OpsOf(Encode(ops) + rest) == ops + OpsOf(rest)
    decreases |ops|
  {
    hide Record, Encodable, OpsOf;
    if ops == [] {
      assert Encode(ops) + rest == rest;
    } else {
      assert Encode(ops) + rest == Record(ops[0]) + (Encode(ops[1..]) + rest);
      ReplayNext(ops[0], Encode(ops[1..]) + rest);
      ReplayAfter(ops[1..], rest);
      assert ops + OpsOf(rest) == [ops[0]] + (ops[1..] + OpsOf(rest));
    }
  }

  /** A record torn off while it is being appended leaves no trace in the replay. */
  lemma TornAppendReplays(ops: seq<Op>, op: Op, n: nat)
    requires AllEncodable(ops) && Encodable(op) && n <= |Record(op)|
    ensures OpsOf(Encode(ops) + Record(op)[..n]) == if n < |Record(op)| then ops else ops + [op]
  {
    ReplayAfter(ops, Record(op)[..n]);
    if n < |Record(op)| {
      ParseTorn(op, n);
    } else {
      assert Record(op)[..n] == Encode([op]) by { assert Encode([op]) == Record(op) + Encode([]); }
      FullReplay([op]);
    }
  }

  // ---------- damage ----------

  /** A record whose length fields are intact but whose checksum does not fit is not accepted. */
  lemma ParseMismatch(op: Op, q: Bytes, word: Bytes, rest: Bytes)
    requires Encodable(op) && |q| == |Payload(op)| && q[..9] == Payload(op)[..9] && |word| == 4
    requires Checksum(q) != ReadU32(word)
    ensures Parse(U32(TotalLength(op)) + q + word + rest) == Stop
  {
    hide Checksum, Little, Number;
    var k, v, head := |op.key|, |ValueOf(op)|, U32(TotalLength(op));
    var stamp, key, value := ReadU64(q[9..17]), q[17..17 + k], q[17 + k..];
    assert Payload(op)[..9] == [Kind(op)] + U32(k) + U32(v);
    assert q == q[..9] + q[9..17] + key + value == FieldBytes(Kind(op), k, v, stamp, key, value);
    var d := head + q + word + rest;
    assert d == head + q + (word + rest);
    PayloadFields(Kind(op), k, v, stamp, key, value, head, word + rest);
    U32RoundTrip(k);
    U32RoundTrip(v);
    U64RoundTrip(stamp);
    var end := 21 + k + v;
    assert d[end..end + 4] == d[end..][..4] == word;
  }

  /**
   Damage to the stamp, the key or the value of a record, within any four consecutive bytes, makes
   replay stop before that record: it applies exactly the operations logged earlier.
   */
  lemma DamageStopsReplay(ops: seq<Op>, op: Op, at: nat, bad: Bytes, rest: Bytes)
    requires AllEncodable(ops) && Encodable(op)
    requires 13 <= at && |bad| <= 4 && at + |bad| <= |Record(op)| - 4
    requires Record(op)[at..at + |bad|] != bad
    ensures OpsOf(Encode(ops) + (Record(op)[..at] + bad + Record(op)[at + |bad|..]) + rest) == ops
  {
    hide Checksum, Parse, FieldBytes, Encode, AllEncodable, Little, Number;
    var p, head := Payload(op), U32(TotalLength(op));
    var crc := U32(Checksum(p));
    var from, to := at - 4, at - 4 + |bad|;
    var q := p[..from] + bad + p[to..];
    DamagedRecord(head, p, crc, at, bad);
    assert p == p[..from] + p[from..to] + p[to..];
    BurstDetected(p[..from], p[from..to], bad, p[to..]);
    U32RoundTrip(Checksum(p));
    assert q[..9] == p[..9];
    ParseMismatch(op, q, crc, rest);
    var damaged := Record(op)[..at] + bad + Record(op)[at + |bad|..];
    assert Encode(ops) + damaged + rest == Encode(ops) + (damaged + rest);
    ReplayAfter(ops, damaged + rest);
  }

  lemma DamagedRecord(head: Bytes, p: Bytes, crc: Bytes, at: nat, bad: Bytes)
    requires |head| == 4 <= at && at + |bad| <= 4 + |p|
    ensures var r := head + p + crc;
            && r[at..at + |bad|] == p[at - 4..at - 4 + |bad|]
            && r[..at] + bad + r[at + |bad|..] == head + (p[..at - 4] + bad + p[at - 4 + |bad|..]) + crc
  {
  }

  /**
   Replay leaves a torn tail in place. When only the checksum of a record is missing, replay finds
   the earlier operations and nothing of what is appended afterwards, unless the length prefix of
   the next record happens to equal the missing checksum: then the torn operation comes back.
   */
  lemma TornTailHidesAppends(ops: seq<Op>, torn: Op, next: Op, rest: Bytes)
    requires AllEncodable(ops) && Encodable(torn) && Encodable(next)
    ensures OpsOf(Encode(ops) + Record(torn)[..|Record(torn)| - 4] + Record(next) + rest) == ops
            <==> TotalLength(next) != Checksum(Payload(torn))
    ensures TotalLength(next) == Checksum(Payload(torn)) ==>
              ops + [torn] <= OpsOf(Encode(ops) + Record(torn)[..|Record(torn)| - 4] + Record(next) + rest)
  {
    hide Checksum, Parse, FieldBytes, Encode, AllEncodable, Little, Number;
    var head := Record(torn)[..|Record(torn)| - 4];
    var prefix := U32(TotalLength(next));
    var more := Record(next)[4..] + rest;
    assert head == U32(TotalLength(torn)) + Payload(torn);
    var tail := head + prefix + more;
    assert Encode(ops) + head + Record(next) + rest == Encode(ops) + tail;
    ReplayAfter(ops, tail);
    U32RoundTrip(TotalLength(next));
    if TotalLength(next) == Checksum(Payload(torn)) {
      assert tail == Record(torn) + more;
      ParseRecord(torn, more);
    } else {
      ParseMismatch(torn, Payload(torn), prefix, more);
    }
  }

  lemma NumberOfFour(b: Bytes)
    requires |b| == 4
    ensures var w: int, x: int, y: int, z: int := b[0], b[1], b[2], b[3]; Number(b) == w + 256 * x + 65536 * y + 16777216 * z
  {
    assert Number(b[1..]) == b[1] + 256 * Number(b[2..]);
    assert Number(b[2..]) == b[2] + 256 * Number(b[3..]);
    assert Number(b[3..]) == b[3] + 256 * Number(b[4..]);
  }

  lemma SmallField(n: Byte)
    ensures U32(n) == [n, 0, 0, 0]
  {
    assert Little(0, 2) == [0, 0] && Little(0, 3) == [0, 0, 0];
  }

  /** The first nine bytes of the record of a delete with a short key: length prefix, kind, key length. */
  lemma ShortDelete(key: Bytes)
    requires |key| <= 1
    ensures Encodable(Del(key)) && Record(Del(key))[..9] == [21 + |key|, 0, 0, 0, DEL, |key|, 0, 0, 0]
  {
    hide Checksum, U32, U64, Record, Payload;
    SmallField(21 + |key|);
    SmallField(|key|);
    RecordFields(Del(key));
    var head := U32(21 + |key|) + [DEL] + U32(|key|);
    assert Record(Del(key)) == head + (U32(0) + U64(0) + key + [] + U32(Checksum(Payload(Del(key)))));
  }

  lemma ParseReadsLength(d: Bytes)
    requires Parse(d).Got?
    ensures |d| >= 9 && |Parse(d).op.key| == ReadU32(d[5..9])
  {
    hide Checksum, Number;
  }

  /** After a torn head the key length is read from the wrong place: it is never that of a short delete appended there. */
  lemma LengthMisread(torn: Op, n: nat, key: Bytes)
    requires Encodable(torn) && 0 < n < |Record(torn)| && |key| <= 1 && |key| != |torn.key|
    ensures Encodable(Del(key))
    ensures var d := Record(torn)[..n] + Record(Del(key)); |d| >= 9 && ReadU32(d[5..9]) != |key|
  {
    hide Record, Number, Little, Encodable;
    ShortDelete(key);
    var d, r := Record(torn)[..n] + Record(Del(key)), Record(Del(key))[..9];
    if n >= 9 {
      assert d[5..9] == Record(torn)[5..9];
      KeyLengthField(torn);
      U32RoundTrip(|torn.key|);
    } else {
      assert d[n..9] == r[..9 - n];
      MisreadEarly(d[..9], n, |key|);
      assert d[..9][5..9] == d[5..9];
    }
  }

  /** The first nine bytes after a cut within them: a piece of the short delete's record stands where the key length is read. */
  lemma MisreadEarly(b: Bytes, n: nat, k: Byte)
    requires |b| == 9 && 0 < n < 9 && k <= 1 && b[n..9] == [21 + k, 0, 0, 0, DEL, k, 0, 0, 0][..9 - n]
    ensures ReadU32(b[5..9]) != k
  {
    hide Number;
    var r: Bytes := [21 + k, 0, 0, 0, DEL, k, 0, 0, 0];
    NumberOfFour(b[5..9]);
    var last := if n <= 4 then 4 + n else n;
    assert b[last] == b[n..9][last - n] == r[last - n];
    if n <= 4 {
      assert b[last] == DEL && 5 <= last < 9;
    } else {
      assert b[last] == 21 + k && 5 <= last < 9;
    }
  }

  lemma KeyLengthField(op: Op)
    requires Encodable(op)
    ensures |op.key| < U32_LIMIT && Record(op)[5..9] == U32(|op.key|)
  {
    hide Checksum, Little;
    PayloadFields(Kind(op), |op.key|, |ValueOf(op)|, StampOf(op), op.key, ValueOf(op), U32(TotalLength(op)),
                  U32(Checksum(Payload(op))));
  }

  /** What replay should find after a crash at byte n of an append and the appends that follow the restart. */
  ghost predicate AppendsSurvive(ops: seq<Op>, torn: Op, n: nat)
    requires AllEncodable(ops) && Encodable(torn) && n <= |Record(torn)|
  {
    forall more | AllEncodable(more) ::
      OpsOf(Encode(ops) + Record(torn)[..n] + Encode(more)) == (if n < |Record(torn)| then ops else ops + [torn]) + more
  }

  /**
   Whatever is appended after a crash is replayed exactly when the crash left the log at a record
   boundary: before the torn record's first byte or after its last.
   */
  lemma AppendsSurviveExactlyWhen(ops: seq<Op>, torn: Op, n: nat)
    requires AllEncodable(ops) && Encodable(torn) && n <= |Record(torn)|
    ensures AppendsSurvive(ops, torn, n) <==> n == 0 || n == |Record(torn)|
  {
    hide Record, Encode, AllEncodable, Encodable, OpsOf;
    if n == 0 || n == |Record(torn)| {
      forall more | AllEncodable(more)
        ensures OpsOf(Encode(ops) + Record(torn)[..n] + Encode(more)) == (if n < |Record(torn)| then ops else ops + [torn]) + more
      {
        AppendsAtBoundary(ops, torn, n, more);
      }
    } else {
      var key: Bytes := if |torn.key| == 0 then [0] else [];
      TornLosesDelete(ops, torn, n, key);
    }
  }

  lemma AppendsAtBoundary(ops: seq<Op>, torn: Op, n: nat, more: seq<Op>)
    requires AllEncodable(ops) && Encodable(torn) && AllEncodable(more) && (n == 0 || n == |Record(torn)|)
    ensures OpsOf(Encode(ops) + Record(torn)[..n] + Encode(more)) == (if n < |Record(torn)| then ops else ops + [torn]) + more
  {
    hide Record, Encode, AllEncodable, Encodable, OpsOf;
    FullReplay(more);
    if n == 0 {
      assert Encode(ops) + Record(torn)[..n] == Encode(ops);
      ReplayAfter(ops, Encode(more));
    } else {
      EncodeAppend(ops, torn);
      assert Encode(ops) + Record(torn)[..n] == Encode(ops + [torn]);
      ReplayAfter(ops + [torn], Encode(more));
    }
  }

  /** Between the boundaries a delete with a key of another length is lost. */
  lemma TornLosesDelete(ops: seq<Op>, torn: Op, n: nat, key: Bytes)
    requires AllEncodable(ops) && Encodable(torn) && 0 < n < |Record(torn)| && |key| <= 1 && |key| != |torn.key|
    ensures AllEncodable([Del(key)])
    ensures OpsOf(Encode(ops) + Record(torn)[..n] + Encode([Del(key)])) != ops + [Del(key)]
  {
    hide Record, Parse, ReadU32;
    LengthMisread(torn, n, key);
    var d := Record(torn)[..n] + Record(Del(key));
    assert Encode([Del(key)]) == Record(Del(key)) + Encode([]) == Record(Del(key));
    assert Encode(ops) + Record(torn)[..n] + Record(Del(key)) == Encode(ops) + d;
    ReplayAfter(ops, d);
    if Parse(d).Got? { ParseReadsLength(d); }
    assert OpsOf(d) != [Del(key)];
    assert (ops + OpsOf(d))[|ops|..] == OpsOf(d) && (ops + [Del(key)])[|ops|..] == [Del(key)];
  }

  // ---------- times to live ----------

  /** Replay restores the logged stamp as the expiry time, except one equal to the present, which becomes "never". */
  lemma ReplayedExpiry(stamp: nat, now: nat)
    requires stamp < U64_LIMIT && now < U64_LIMIT
    ensures ExpireAt(Remaining(stamp, now), now) == if stamp == now then 0 else stamp
  {
  }

  /** DB::put logs the time to live itself: the entry keeps its expiry over a recovery only without one. */
  lemma TtlSurvivesRecovery(ttl: nat, putTime: nat, now: nat)
    requires 0 < putTime && putTime + ttl < U64_LIMIT && now < U64_LIMIT
    ensures ExpireAt(Remaining(ttl, now), now) == ExpireAt(ttl, putTime) <==> ttl == 0
  {
    ReplayedExpiry(ttl, now);
  }

  // ---------- the log file ----------

  /**
   Since file was f0 and the trace t0, bytes were only added: every state of the file that the trace
   notes strictly extends the one before it, and the last one is the file as it is now.
   */
  ghost predicate Grew(f0: Bytes, t0: seq<Bytes>, f1: Bytes, t1: seq<Bytes>) {
    && t0 <= t1 && f0 <= f1
    && f1 == (if |t1| == |t0| then f0 else t1[|t1| - 1])
    && (forall i | |t0| <= i < |t1| :: f0 < t1[i] <= f1)
    && (forall i, j | |t0| <= i < j < |t1| :: t1[i] < t1[j])
  }

  lemma GrewTransitive(f0: Bytes, t0: seq<Bytes>, f1: Bytes, t1: seq<Bytes>, f2: Bytes, t2: seq<Bytes>)
    requires Grew(f0, t0, f1, t1) && Grew(f1, t1, f2, t2)
    ensures Grew(f0, t0, f2, t2)
  {
    assert forall i | 0 <= i < |t1| :: t2[i] == t1[i];
  }

  class Wal {
    var file: Bytes
    var pos: nat                // the read position
    ghost var trace: seq<Bytes> // every content of the file after a write call

    constructor (content: Bytes)
      ensures file == content && trace == []
    {
      file, pos, trace := content, 0, [];
    }

    /** A write call may take only part of the buffer; the file is noted after each call. */
    method WriteAll(buf: Bytes)
      modifies this
      ensures file == old(file) + buf && pos == old(pos)
      ensures Grew(old(file), old(trace), file, trace) && (buf != [] ==> |trace| > |old(trace)|)
    {
      ghost var f0, t0 := file, trace;
      var p := 0;
      while p < |buf|
        invariant p <= |buf| && file == f0 + buf[..p] && pos == old(pos)
        invariant Grew(f0, t0, file, trace) && (p > 0 ==> |trace| > |t0|)
      {
        var n :| 0 < n <= |buf| - p;
        assert buf[..p] + buf[p..p + n] == buf[..p + n];
        file := file + buf[p..p + n];
        trace := trace + [file];
        p := p + n;
      }
    }

    /** One more field of a record whose writing began at f0 with the trace t0. */
    method WriteNext(buf: Bytes, ghost f0: Bytes, ghost t0: seq<Bytes>)
      requires (t0 == trace && f0 == file) || Grew(f0, t0, file, trace)
      modifies this
      ensures file == old(file) + buf && Grew(f0, t0, file, trace)
    {
      hide Grew;
      ghost var f1, t1 := file, trace;
      WriteAll(buf);
      if Grew(f0, t0, f1, t1) { GrewTransitive(f0, t0, f1, t1, file, trace); }
    }

    /** The fixed-size fields of a record, one write each. */
    method AppendHeader(op: Op)
      requires Encodable(op)
      modifies this
      ensures file == old(file) + Header(op)
      ensures Grew(old(file), old(trace), file, trace)
    {
      hide Grew, U32, U64, TotalLength;
      ghost var f0, t0 := file, trace;
      WriteNext(U32(TotalLength(op)), f0, t0);
      WriteNext([Kind(op)], f0, t0);
      WriteNext(U32(|op.key|), f0, t0);
      WriteNext(U32(|ValueOf(op)|), f0, t0);
      WriteNext(U64(StampOf(op)), f0, t0);
    }

    method Append(op: Op)
      requires Encodable(op)
      modifies this
      ensures file == old(file) + Record(op)
      ensures Grew(old(file), old(trace), file, trace)
    {
      hide Grew, Checksum, Header, U32, Record, Payload;
      ghost var f0, t0 := file, trace;
      AppendHeader(op);
      WriteNext(op.key, f0, t0);
      WriteNext(ValueOf(op), f0, t0);
      WriteNext(U32(Checksum(Payload(op))), f0, t0);
      RecordFields(op);
    }

    method AppendPut(key: Bytes, value: Bytes, stamp: nat)
      requires Encodable(Put(key, value, stamp))
      modifies this
      ensures file == old(file) + Record(Put(key, value, stamp))
      ensures Grew(old(file), old(trace), file, trace)
    {
      Append(Put(key, value, stamp));
    }

    method AppendDel(key: Bytes)
      requires Encodable(Del(key))
      modifies this
      ensures file == old(file) + Record(Del(key))
      ensures Grew(old(file), old(trace), file, trace)
    {
      Append(Del(key));
    }

    /** A read call: short only at the end of the file. */
    method Read(n: nat) returns (b: Bytes)
      requires pos <= |file|
      modifies this`pos
      ensures pos == if old(pos) + n <= |file| then old(pos) + n else |file|
      ensures b == file[old(pos)..pos]
    {
      var end := if pos + n <= |file| then pos + n else |file|;
      b := file[pos..end];
      pos := end;
    }

    /** The fixed-size fields of a record; the length prefix is read and dropped. */
    method ReadHeader() returns (ok: bool, kind: Byte, keyLen: nat, valueLen: nat, stamp: nat)
      requires pos <= |file|
      modifies this`pos
      ensures pos <= |file| && ok == (old(pos) + 21 <= |file|)
      ensures ok ==> var data := file[old(pos)..];
                && pos == old(pos) + 21 && kind == data[4]
                && keyLen == ReadU32(data[5..9]) && valueLen == ReadU32(data[9..13]) && stamp == ReadU64(data[13..21])
      ensures keyLen < U32_LIMIT && valueLen < U32_LIMIT && stamp < U64_LIMIT
    {
      hide Number, Little;
      ghost var data := file[pos..];
      ok, kind, keyLen, valueLen, stamp := false, 0, 0, 0, 0;
      var field := Read(4);
      if |field| != 4 { return; }
      field := Read(1);
      if |field| != 1 { return; }
      kind := field[0];
      field := Read(4);
      if |field| != 4 { return; }
      assert field == data[5..9];
      keyLen := ReadU32(field);
      field := Read(4);
      if |field| != 4 { return; }
      assert field == data[9..13];
      valueLen := ReadU32(field);
      field := Read(8);
      if |field| != 8 { return; }
      assert field == data[13..21];
      stamp := ReadU64(field);
      ok := true;
    }

    /** One round of the replay loop. */
    method ReadRecord() returns (p: Parsed)
      requires pos <= |file|
      modifies this`pos
      ensures pos <= |file| && p == Parse(file[old(pos)..])
      ensures p.Got? ==> pos == old(pos) + p.size
    {
      hide Checksum, FieldBytes, Number, Little;
      ghost var data := file[pos..];
      var ok, kind, keyLen, valueLen, stamp := ReadHeader();
      if !ok { return Stop; }
      var key := Read(keyLen);
      if |key| != keyLen { return Stop; }
      var value := Read(valueLen);
      if |value| != valueLen { return Stop; }
      var crc := Read(4);
      if |crc| != 4 { return Stop; }
      assert key == data[21..21 + keyLen];
      assert value == data[21 + keyLen..21 + keyLen + valueLen];
      assert crc == data[21 + keyLen + valueLen..21 + keyLen + valueLen + 4];
      if Checksum(FieldBytes(kind, keyLen, valueLen, stamp, key, value)) != ReadU32(crc) { return Stop; }
      p := Got(if kind == PUT then Put(key, value, stamp) else Del(key), 21 + keyLen + valueLen + 4);
    }

    /** Replay ends on every file and applies exactly the operations found in it. */
    method Replay(mem: MemTable, now: nat)
      requires mem.Valid()
      modifies this`pos, mem, mem.table, mem.table.entries
      ensures mem.Valid() && mem.State() == ApplyAll(old(mem.State()), OpsOf(file), now)
      ensures mem.table.entries == old(mem.table.entries) || fresh(mem.table.entries)
    {
      hide Parse, HashTable.WellFormed, HashTable.Balanced, AfterPut, AfterDel;
      pos := 0;
      assert file[0..] == file;
      while true
        invariant pos <= |file| && mem.Valid()
        invariant ApplyAll(mem.State(), OpsOf(file[pos..]), now) == ApplyAll(old(mem.State()), OpsOf(file), now)
        invariant mem.table.entries == old(mem.table.entries) || fresh(mem.table.entries)
        decreases |file| - pos
      {
        ghost var data := file[pos..];
        var p := ReadRecord();
        if p.Stop? {
          return;
        }
        assert data[p.size..] == file[pos..];
        assert OpsOf(data)[1..] == OpsOf(file[pos..]);
        match p.op {
          case Put(key, value, stamp) => mem.Put(key, value, Remaining(stamp, now), now);
          case Del(key) => var _ := mem.Del(key);
        }
      }
    }

    /** Truncates the log. */
    method Reset()
      modifies this
      ensures file == [] && trace == old(trace) + [[]]
    {
      file, pos := [], 0;
      trace := trace + [file];
    }
  }
}
