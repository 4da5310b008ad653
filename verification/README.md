# VaultRecon verification

A Dafny model of the two cores of VaultRecon AI, with proofs about them.

**MiniVaultDB**, the C++ log-structured store. The probing hash table, the memtable with its byte
count, the write-ahead log, the sorted table files, the CRC that guards both, and the `DB` class that
layers, flushes, rotates and recovers are classes with the same fields and loops as the source. Each
method is tied to a plain meaning: a map, a sequence of operations, a list of pairs, a byte string.
On top of that stand results about whole runs: reads are those of one plain map exactly when no delete
hits a flushed key; without times to live and up to ten tables, reopening from every disk state of
every write shows the contents before or after it; what is appended after a crash survives exactly
when the crash left the log at a record boundary; a reopening keeps every read for all table contents
exactly up to ten tables. `Histories.dfy` tells every run, times to live included, from its commands
alone: when a flush comes, what each table holds, what a read or a scan answers at any time.
`Sessions.dfy` states the runs about the `DB` class itself: open, run any commands, read, close and
open again.

**The reconciliation engine**, in Python. Records, their index keys, the client that stores them, the
fee policies, the rules and the staged matcher. The engine is a class whose methods are tied to a
decision function; the main results are about that function and its runs: a payment matches exactly
when no check fails, and an exception explains each check that fails, said once about the lists that
are looked up and once about the stored records alone, for any store of clean records and whatever was
consumed before; no target is matched twice; an order with two or more processor transactions never matches
exactly when two of them share their ids with no settlement or a refund is stored for it; the bulk
maps give the lists of the prefix scans exactly on regular stores; and every payment, batch and orphan
is accounted for. In stores
without settlements, of each order the first payment that fits matches, and the order of the payments
is irrelevant exactly when no two of them want the same target.

`Backing.dfy` joins the two: the dictionary that the client works on is what the layered store holds,
scan for scan, with keys in UTF-8.

`dafny verify dfyconfig.toml` checks everything.

## How the source is rendered

- A file is a byte sequence and a position. A read is short only at its end; a write may take any part
  of its buffer, so a crash can fall between any two bytes of the log.
- Hash values come from an arbitrary function. A capacity is a power of two, so the source's mask is
  the remainder by the capacity, and the test `size + tombstones >= capacity * 0.7` is the integer test
  `10 * (size + tombstones) >= 7 * capacity`.
- The clock is a parameter of every operation that asks for it.
- 32-bit and 64-bit fields, the wrapping length prefix and the wrapping expiry arithmetic are explicit.
- Amounts are whole cents. A tolerance in whole cents loses nothing, because differences are whole;
  the slack of `1e-6` and the roundings to two places of the source only undo the errors of its floats.
  Fee rates and charges are exact decimals, as in the source.
- Exceptions of the engine are values: an exception carries its findings, and the source reports type,
  values and related ids of the first one.
- Code and documentation differ in places; the code is followed.
  `docs/ARCHITECTURE.md:47-48` describes a skip list, sparse indexes and Bloom filters: the memtable is
  a hash table, every key is indexed, and there are no filters. `docs/ARCHITECTURE.md:77` says that bank
  records are locked when matched: batches consume nothing. `MiniVaultDB/README.md:32` puts the checksum
  before the payload: it comes last. `MiniVaultDB/README.md:43` promises tombstones: deletes leave none
  on disk. The comment at `recon/rules.py:226` restricts the third search to policies in any currency:
  the code does not.

## Model

| member | source | states |
|---|---|---|
| ByteStrings.PrefixesAreABlock | MiniVaultDB/src/engine/sstable.cpp:182-202 | in byte order the strings with a common prefix form one block |
| ByteStrings.U32Bytes | MiniVaultDB/src/engine/wal.cpp:36-49 | the four bytes of a 32-bit field are those of the number in base 256, the lowest first |
| ByteStrings.U64Halves | MiniVaultDB/src/engine/sstable.cpp:36-63 | a 64-bit field is the fields of its lower and its upper half |
| ByteStrings.U32RoundTrip | MiniVaultDB/src/engine/wal.cpp:36-49 | a 32-bit little-endian field reads back as the number written |
| ByteStrings.U64RoundTrip | MiniVaultDB/src/engine/sstable.cpp:56-69 | a 64-bit little-endian field reads back as the number written |
| Crc32.LookupIsFeedBits | MiniVaultDB/src/util/crc32.cpp:30 | one table lookup does exactly what eight single-bit steps of the shift register do |
| Crc32.Table.Init | MiniVaultDB/src/util/crc32.cpp:8-20 | the initialised table holds at every index the register after eight steps |
| Crc32.Table.Mix | MiniVaultDB/src/util/crc32.cpp:29-31 | the byte loop computes the bit-serial register of the message from any start |
| Crc32.Table.Crc | MiniVaultDB/src/util/crc32.cpp:22-34 | the first overload returns the bit-serial CRC-32 of section 8 of RFC 1952 for every byte string |
| Crc32.Table.CrcFields | MiniVaultDB/src/util/crc32.cpp:36-64 | the second overload returns the CRC of the concatenated little-endian fields, key and value |
| Crc32.RunInjective | MiniVaultDB/src/util/crc32.cpp:29-31 | registers that differ before some data differ after it |
| Crc32.BurstDetected | MiniVaultDB/src/util/crc32.cpp:22-34 | any damage within four consecutive bytes changes the checksum, wherever it is and whatever surrounds it |
| Crc32.KnownChecksums | MiniVaultDB/src/util/crc32.cpp:8-34 | the checksum of no bytes is 0, and that of the byte 7F, in which the polynomial enters once, is the published 12B88320 |
| HashTable.LoadTestKeepsASlotFree | MiniVaultDB/src/util/hash.cpp:90-92 | the load test keeps a slot empty exactly for tables of four or more slots |
| HashTable.LoadedIsSeventyPercent | MiniVaultDB/src/util/hash.cpp:11-90 | the integer test is the test of the source on real numbers |
| HashTable.InsertKeeps | MiniVaultDB/src/util/hash.cpp:106-120 | filling the free slot that a probe found keeps every key reachable and both counters sound |
| HashTable.BuryKeeps | MiniVaultDB/src/util/hash.cpp:146-158 | a tombstone removes its key only and cuts no other probe short |
| HashTable.EmptyMeansAbsent | MiniVaultDB/src/util/hash.cpp:46-50 | a probe that meets an empty slot before the key has proved the key absent |
| HashTable.EmptySlotExists | MiniVaultDB/src/util/hash.cpp:43-62 | fewer used slots than slots means an empty one, which ends every probe |
| HashTable.RehashBalances | MiniVaultDB/src/util/hash.cpp:65-84 | a triggered rehash keeps the cost balance and leaves the new table below the load test |
| HashTable.Table.constructor | MiniVaultDB/src/util/hash.cpp:22-30 | the new table is empty and its capacity is the least power of two from the request on |
| HashTable.Table.FindSlot | MiniVaultDB/src/util/hash.cpp:36-63 | the probe ends, finds the key's only slot if the key is there, and otherwise an empty slot or, to insert, the first free one of the probe |
| HashTable.Table.Put | MiniVaultDB/src/util/hash.cpp:86-122 | the table's map gains exactly this binding; the table doubles exactly when the load test says so |
| HashTable.Table.Rehash | MiniVaultDB/src/util/hash.cpp:65-84 | doubling keeps the map and the size, drops the tombstones and triggers no further rehash |
| HashTable.Table.Get | MiniVaultDB/src/util/hash.cpp:124-144 | the value is found exactly when the key is there with the stamp 0 or a stamp not before the present; a key with an earlier stamp is removed, and nothing else changes |
| HashTable.Table.Del | MiniVaultDB/src/util/hash.cpp:146-158 | del removes exactly the key and reports whether it was there |
| HashTable.Table.ForEach | MiniVaultDB/include/util/hash.hpp:43-50 | the visit meets every live binding exactly once |
| HashTable.Table.GrowthIsLinear | MiniVaultDB/src/util/hash.cpp:65-95 | over any run of n puts with any deletes and expiries the capacity stays within 20n/7 or the initial one, all rehashes move at most 15n/7 entries, and a slot is empty |
| Memory.MemTable.Put | MiniVaultDB/src/engine/memtable.cpp:20-34 | the cell gets value and computed expiry, and the byte count grows by key and value |
| Memory.MemTable.Get | MiniVaultDB/src/engine/memtable.cpp:36-40 | the memtable answers exactly with cells of stamp 0 or of a stamp not before the present, and loses an earlier one it meets |
| Memory.MemTable.Del | MiniVaultDB/src/engine/memtable.cpp:42-50 | a delete removes the cell and counts the key's bytes once more only when it was there; Histories.RunByHistory tells the count of any run from its commands |
| Accounting.CountedReplay | MiniVaultDB/src/engine/memtable.cpp:30-32 | through a replay the byte count never undercounts the entries, and grows by no more than the log's length |
| Accounting.FlushFits | MiniVaultDB/src/db/db.cpp:192-216 | the table of a memtable below the bound fits its 32-bit lengths and 64-bit offsets |
| Log.ParseRecord | MiniVaultDB/src/engine/wal.cpp:32-58 | replay reads back exactly the record that was appended, whatever follows it |
| Log.RecordLayout | MiniVaultDB/src/engine/wal.cpp:32-86 | the bytes of a record by position: the number of bytes after the first four, 1 for a put and 2 for a delete, both lengths, the stamp, key, value, and the checksum of all that lies between |
| Log.ParseExactly | MiniVaultDB/src/engine/wal.cpp:91-132 | what replay accepts of any bytes: a whole record whose checksum fits, kind 1 as a put and any other kind as a delete, whatever the length prefix says |
| Log.ParseTorn | MiniVaultDB/src/engine/wal.cpp:93-116 | a record cut at any byte stops replay |
| Log.PrefixReplays | MiniVaultDB/src/engine/wal.cpp:88-133 | replaying any byte prefix of a log finds exactly the operations whose records lie wholly inside it, in order |
| Log.FullReplay | MiniVaultDB/src/engine/wal.cpp:88-133 | a whole log replays to the whole history |
| Log.EncodeAppend | MiniVaultDB/src/engine/wal.cpp:32-86 | appending an operation adds its record at the end of the encoded history |
| Log.TornAppendReplays | MiniVaultDB/src/engine/wal.cpp:88-116 | an append cut short leaves no trace in the replay, a complete one adds its operation |
| Log.DamageStopsReplay | MiniVaultDB/src/engine/wal.cpp:118-123 | damage to stamp, key or value within four bytes makes replay apply exactly the operations before that record |
| Log.TornTailHidesAppends | MiniVaultDB/src/engine/wal.cpp:88-133 | after a record that lacks only its checksum, replay finds the earlier operations and nothing appended later, exactly unless the next length prefix equals the missing checksum; then the torn operation comes back |
| Log.LengthMisread | MiniVaultDB/src/engine/wal.cpp:97-104 | after a record torn anywhere inside, the key length of a short delete appended there is never read as it is |
| Log.AppendsSurviveExactlyWhen | MiniVaultDB/src/engine/wal.cpp:88-133 | for a crash at any byte of an append: whatever is appended after the restart is replayed, in order, exactly when the crash left the log at a record boundary |
| Log.ReplayedExpiry | MiniVaultDB/src/engine/wal.cpp:125-128 | replay restores a logged stamp as the expiry time, except one equal to the present, which becomes never |
| Log.TtlSurvivesRecovery | MiniVaultDB/src/db/db.cpp:54 | an entry keeps its expiry over a recovery exactly when it has none, because the log gets the time to live |
| Log.Wal.WriteAll | MiniVaultDB/src/engine/wal.cpp:22-30 | all bytes arrive; the file is noted after every write call, each noted state strictly extends the one before, and the last is the file as it is now |
| Log.Wal.AppendPut | MiniVaultDB/src/engine/wal.cpp:32-58 | the file grows by exactly the record of the put |
| Log.Wal.AppendDel | MiniVaultDB/src/engine/wal.cpp:60-86 | the file grows by exactly the record of the delete |
| Log.Wal.ReadRecord | MiniVaultDB/src/engine/wal.cpp:92-123 | one round of the loop accepts exactly a complete record with a fitting checksum |
| Log.Wal.Replay | MiniVaultDB/src/engine/wal.cpp:88-133 | replay ends on every file and applies exactly the operations found in it to the memtable |
| Log.Wal.Reset | MiniVaultDB/src/engine/wal.cpp:141-148 | the log is empty afterwards |
| SortedTable.ReadTableBack | MiniVaultDB/src/engine/sstable.cpp:25-106 | writing a table and reading it through its footer and index gives back exactly the pairs written |
| SortedTable.RecordLayout | MiniVaultDB/src/engine/sstable.cpp:39-51 | the bytes of a table record by position: both lengths, eight zeros, key, value, and the checksum of a zero byte and all of that |
| SortedTable.EntryLayout | MiniVaultDB/src/engine/sstable.cpp:58-63 | an index entry is the length of the key, the key, and the 64-bit offset |
| SortedTable.FileEnd | MiniVaultDB/src/engine/sstable.cpp:56-69 | the last 24 bytes of a file: the offset of the index, its size, and the eight bytes of the magic number; before them lie records and index |
| SortedTable.ReadPairExactly | MiniVaultDB/src/engine/sstable.cpp:150-180 | what is read of any bytes at an offset: a whole record whose checksum fits, and nothing else |
| SortedTable.RecordAtOffset | MiniVaultDB/src/engine/sstable.cpp:33-54 | an index offset is where the record of its key starts |
| SortedTable.ScanFindsBlock | MiniVaultDB/src/engine/sstable.cpp:184-202 | from the lower bound to the first other key lie exactly the keys with the prefix |
| SortedTable.FoundOrAbsent | MiniVaultDB/src/engine/sstable.cpp:113-120 | the entry at the lower bound is the key's, or the key is not in the table |
| SortedTable.BuildFile | MiniVaultDB/src/engine/sstable.cpp:25-72 | the loops write records, index and footer of the file format, with offsets taken from the position |
| SortedTable.SSTable.constructor | MiniVaultDB/src/engine/sstable.cpp:74-87 | opening a written file recovers its index |
| SortedTable.SSTable.LoadIndex | MiniVaultDB/src/engine/sstable.cpp:93-106 | the loop reads exactly the entries that the bytes of the index encode |
| SortedTable.SSTable.LowerBound | MiniVaultDB/src/engine/sstable.cpp:113-117 | the binary search splits the table into the keys below and not below the given one |
| SortedTable.SSTable.ReadRecord | MiniVaultDB/src/engine/sstable.cpp:150-180 | the record at an offset, or a miss on a short read or a bad checksum |
| SortedTable.SSTable.Get | MiniVaultDB/src/engine/sstable.cpp:108-148 | a hit with the stored value exactly on the keys of the table |
| SortedTable.SSTable.ScanPrefix | MiniVaultDB/src/engine/sstable.cpp:182-202 | appends exactly the pairs with the prefix, in table order |
| TableNames.IdOfName | MiniVaultDB/src/db/db.cpp:235-241 | loading recovers the number that flushing put into a file name |
| TableNames.NameText | MiniVaultDB/src/db/db.cpp:213-214 | a table file is named by its decimal number without leading zeros between sst_ and .sst |
| TableNames.NameInjective | MiniVaultDB/src/db/db.cpp:213-214 | different numbers name different files |
| TableNames.TenBeforeNine | MiniVaultDB/src/db/db.cpp:245 | as text the eleventh table comes before the tenth |
| TableNames.TextOrderIsAge | MiniVaultDB/src/db/db.cpp:245 | sorting the names as text is sorting by age exactly up to ten tables |
| Layers.ScanAgreesWithGet | MiniVaultDB/src/db/db.cpp:77-171 | get and scan_prefix agree on a key exactly when no expired memtable entry covers a value that get falls through to |
| Layers.GatherIsScanned | MiniVaultDB/src/db/db.cpp:115-160 | collecting newest first with the seen and deleted sets shows exactly the layered contents under the prefix |
| Layers.FlushKeepsReads | MiniVaultDB/src/db/db.cpp:174-221 | a flush changes no read of the moment at which it happens |
| Layers.FlushKeepsLaterReads | MiniVaultDB/src/engine/sstable.cpp:38 | the table has lost the expiry times: a later read of a key is as without the flush exactly when its entry has not expired meanwhile or a table holds the same value |
| Layers.FlushKeepsAllReadsExactlyWhen | MiniVaultDB/src/db/db.cpp:192-221 | a flush changes no read, now or later, exactly when every live entry with an expiry has the value that the tables show anyway |
| Layers.PutShows | MiniVaultDB/src/db/db.cpp:50-58 | a put shows its value and changes no other read, flush or not |
| Layers.DelShows | MiniVaultDB/src/db/db.cpp:64-69 | a delete uncovers the value of the tables if they hold the key, and removes it otherwise |
| Layers.AgreementStep | MiniVaultDB/src/db/db.cpp:50-69 | one more operation keeps the agreement with a plain map exactly when it is no delete of a flushed key |
| Layers.RunIsPlainMap | MiniVaultDB/src/db/db.cpp:50-105 | through a whole run without times to live every read is that of a plain map exactly when no delete hits a key that a table holds |
| Histories.RunByHistory | MiniVaultDB/src/db/db.cpp:50-221 | for any run, times to live included, told from the commands alone: the byte count is the sum of key and value over the puts since the last flush plus the key of each delete of a key put and not deleted since; a flush comes exactly when that count reaches the limit; the log holds just the commands since then, and each table what could be read of its commands at its flush |
| Histories.ReadByHistory | MiniVaultDB/src/db/db.cpp:77-105 | a read at any time after any run: the last put of the key since the last flush, if it has no time to live or its time is not past; otherwise the last put of the latest flush at which the key could be read; otherwise nothing |
| Histories.ScanByHistory | MiniVaultDB/src/db/db.cpp:115-171 | a scan answers alike for each key, except that a put since the last flush whose time is past hides what was flushed before |
| Histories.PutThenRead | MiniVaultDB/src/engine/memtable.cpp:13-40 | after any run and one more put at time now: a read at t finds the value when there is no time to live, when t <= now + ttl or when the put caused a flush, and otherwise what the tables had |
| Recovery.ListingByAge | MiniVaultDB/src/db/db.cpp:225-246 | up to ten tables a reopening lists them by age |
| Recovery.StaleRead | MiniVaultDB/src/db/db.cpp:245 | with more than ten tables there are contents of which a reopening answers a read with the older value |
| Recovery.SomeRunReadsStale | MiniVaultDB/src/db/db.cpp:174-246 | for every number of tables above ten there is a run of puts and deletes that leaves them, after which a reopening answers a read with an overwritten value |
| Recovery.ReopenKeepsReads | MiniVaultDB/src/db/db.cpp:225-246 | a reopening keeps every read for all table contents exactly when there are at most ten tables |
| Recovery.ReplayTimeless | MiniVaultDB/src/db/db.cpp:248-250 | without times to live the replayed memtable does not depend on the time of the replay |
| Recovery.CrashInAppend | MiniVaultDB/src/db/db.cpp:54 | after a crash at any byte of an append the reopened store is the one before or the one after the operation |
| Recovery.CrashAfterBuild | MiniVaultDB/src/db/db.cpp:176-178 | after a crash between table build and log rotation the reopened store reads as before the flush |
| Recovery.CrashAfterRotate | MiniVaultDB/src/db/db.cpp:253-256 | after the rotation the reopened store reads as before the flush |
| Directories.DirectoryGrows | MiniVaultDB/src/db/db.cpp:213-217 | a flushed table joins the directory under an unused name and stacks on top of the others |
| Directories.TextOrderGrows | MiniVaultDB/src/db/db.cpp:217 | up to the tenth table the new name is also the last in text order |
| Directories.SortedEntries | MiniVaultDB/src/db/db.cpp:195-211 | the sorted live entries of a memtable are a well-formed table that means exactly those entries |
| Directories.OperationSafe | MiniVaultDB/src/db/db.cpp:50-69 | from every disk that one write leaves, call by call, reopening at any time shows the contents before it or after it |
| Scanning.GatherMem | MiniVaultDB/src/db/db.cpp:120-148 | one memtable adds to the scan exactly its live keys not seen or deleted yet, and marks its expired ones |
| Scanning.GatherTable | MiniVaultDB/src/db/db.cpp:151-160 | one table adds exactly its pairs not seen or deleted yet |
| Scanning.SortedResults | MiniVaultDB/src/db/db.cpp:162-170 | the result is strictly ascending and holds each collected pair once, in whatever order they come out of the hash map |
| Database.DB.constructor | MiniVaultDB/src/db/db.cpp:27-39 | opening gives the store that the disk stands for, in objects of its own; a log of whole records without times to live makes it durable again |
| Database.DB.LoadSstables | MiniVaultDB/src/db/db.cpp:225-246 | every table file is listed once in text order, and the next number is above all of them |
| Database.DB.ReplayWal | MiniVaultDB/src/db/db.cpp:248-250 | the empty memtable becomes the log replayed, within the byte bound |
| Database.DB.Get | MiniVaultDB/src/db/db.cpp:77-105 | the answer is that of the layered contents; only an expired entry of the key can go, and no table is replaced |
| Database.DB.ScanPrefix | MiniVaultDB/src/db/db.cpp:115-171 | strictly ascending, exactly the visible pairs with the prefix, each once |
| Database.DB.FreezeMemtable | MiniVaultDB/src/db/db.cpp:183-190 | the active memtable becomes the immutable one and a fresh empty one takes its place |
| Database.DB.FlushImmutable | MiniVaultDB/src/db/db.cpp:192-221 | the unexpired entries become the newest table, in one disk step |
| Database.DB.RotateWal | MiniVaultDB/src/db/db.cpp:253-256 | the log starts afresh, in one disk step |
| Database.DB.MaybeFlush | MiniVaultDB/src/db/db.cpp:174-180 | at the limit the memtable becomes a table and the log is emptied, in that order on disk; below it nothing changes |
| Database.DB.LogFirst | MiniVaultDB/src/db/db.cpp:54 | the log grows by exactly the record, and the history by one disk for each write call of the log, in order |
| Database.DB.Put | MiniVaultDB/src/db/db.cpp:50-58 | the store takes one step of the layered model; the history gains a disk for every write call of the record up to the whole of it, then the two of a flush if there was one, and ends with the present disk; without a time to live the store stays durable and all these disks are safe, unless the flush wrote an eleventh table or a later one |
| Database.DB.Del | MiniVaultDB/src/db/db.cpp:64-69 | the same for a delete, which flushes exactly when the count of Histories.RunByHistory reaches the limit |
| Histories.ReplayByHistory | MiniVaultDB/src/engine/wal.cpp:88-133 | what can be read of a replayed log: the last put of a key, at any time if its logged stamp is 0 or the time of the replay, else up to the stamp; the byte count is that of the logged operations |
| Sessions.Execute | MiniVaultDB/src/db/db.cpp:50-69 | any run of puts and deletes takes an opened store through the steps of the layered model; without times to live and up to ten tables it stays durable, and from every disk noted on the way reopening shows the contents after some number of the commands |
| Sessions.OpenNew | MiniVaultDB/src/db/db.cpp:27-39 | an empty disk is opened as the empty, durable store |
| Sessions.Read | MiniVaultDB/src/db/db.cpp:77-105 | without times to live a read answers with what is shown and changes nothing |
| Sessions.RunAndRead | MiniVaultDB/src/db/db.cpp:27-105 | a new store, any commands without times to live, then a read: the answer is that of a plain map as long as no delete hits a key that a table holds |
| Sessions.RunAndGet | MiniVaultDB/src/db/db.cpp:27-105 | a new store, any commands with or without times to live, then a read: the answer is the one that the history of the commands tells |
| Sessions.RunAndScan | MiniVaultDB/src/db/db.cpp:27-171 | the same with a scan: in ascending order exactly the pairs under the prefix that the history of the commands tells |
| Sessions.Reopen | MiniVaultDB/src/db/db.cpp:27-46 | closing a durable store and opening it again, at any time, gives the same state, durable again |
| Utf8.EncodeKeepsOrder | recon/storage.py:177-194 | byte order of encoded texts is the order of the texts |
| Utf8.EncodeKeepsPrefixes | recon/storage.py:187-190 | an encoded text starts with an encoded prefix exactly when the text starts with the prefix |
| Utf8.EncodeInjective | recon/storage.py:143-154 | different keys have different encodings |
| Utf8.DecodeEncoded | recon/storage.py:143-154 | a character takes one to four bytes by the ranges of section 3 of RFC 3629, and its bits are read back from them in order |
| Utf8.Examples | recon/storage.py:143-154 | two examples of section 7 of RFC 3629, byte for byte |
| Backing.PutMirrors | recon/storage.py:143-154 | a put of encoded text keeps the store's map the image of the client's dictionary |
| Backing.ScanMirrors | recon/storage.py:177-194 | sorted pairs of the store under a prefix are the client's scan, encoded in the same order |
| Backing.StoreMirrorsClient | recon/storage.py:143-194 | after any puts, through all flushes, the store shows exactly what the client's dictionary holds |
| Backing.StoreScanIsClientScan | recon/storage.py:177-194 | what the store's prefix scan is proved to return is the client's scan of its dictionary, pair by pair |
| Texts.JoinOfSplit | recon/matcher.py:107-110 | joining at colons undoes splitting at colons |
| Texts.SplitAtColon | recon/matcher.py:107-110 | a colon cuts any text into the parts of both sides |
| Texts.TenDigitsPadded | ingestion/schemas.py:33 | a time stamp below ten billion is printed with exactly ten digits |
| Texts.TenDigitsReads | ingestion/schemas.py:33 | any time stamp is printed with at least ten characters, as its decimal digits after the sign, and with zeros in front only up to ten |
| Texts.PrintedReads | recon/storage.py:257-259 | a printed time stamp reads back as the number, whatever its size and sign |
| Spelling.SameCodeExactly | recon/rules.py:300-302 | stripping and upper case make two codes equal exactly when, without the blanks at their ends, they are as long and place by place equal or the two cases of one letter |
| Spelling.PlainCodes | recon/rules.py:300-302 | codes of upper-case letters count as the same only if they are equal |
| Spelling.CleanedChar | ingestion/schemas.py:128-145 | a letter is cleaned to its upper case, a digit, hyphen or underscore stays, and any other character goes |
| Spelling.CleanConcat | ingestion/schemas.py:128-145 | cleaning goes character by character |
| Spelling.CleanedChars | ingestion/schemas.py:128-145 | a cleaned reference has only upper-case letters, digits, hyphens and underscores |
| Spelling.CleanAlready | ingestion/schemas.py:128-145 | a reference of such characters is its own cleaning |
| Spelling.CleanedExactlyAlike | recon/matcher.py:537-541 | two references clean to the same text exactly when they are alike up to case once punctuation is passed over |
| Schemas.ParseOfIndexKey | recon/matcher.py:107-110 | an index key comes apart into owner and kind, even when the owner holds colons |
| Schemas.PlaceOfKey | recon/matcher.py:107-110 | exactly which keys of an index are parsed to a given owner and kind |
| Schemas.OrderRecordKeys | ingestion/schemas.py:36-66 | the keys of payments, invoices and refunds, written out |
| Schemas.ProcessorKeys | ingestion/schemas.py:79-88 | the keys of processor transactions, written out; that of the batch only if there is one |
| Schemas.SettlementKeys | ingestion/schemas.py:101-110 | the keys of settlements, written out |
| Schemas.SettlingRecordKeys | ingestion/schemas.py:124-178 | the keys of batches, bank transactions and adjustments, written out, with cleaned references |
| Schemas.TemporalKeyText | ingestion/schemas.py:31-33 | the temporal key, written out; only bank transactions have another type there than in their primary key |
| Storage.HoldsGrows | recon/storage.py:198-232 | loading one more clean record keeps the store exactly its records and their index entries: no index key falls on another record's |
| Storage.LoadedHolds | recon/storage.py:198-232 | loading clean records with different primary keys, in any order, leaves a store that holds exactly them |
| Storage.Client.PutRecord | recon/storage.py:198-232 | the record is stored under its primary key and a pointer under each of its index keys, nothing else changes |
| Storage.Client.GetRecord | recon/storage.py:234-240 | the record stored under the primary key of the upper-cased type and the id, or none |
| Storage.Client.ScanPrefix | recon/storage.py:177-194 | exactly the pairs with the prefix, strictly ascending |
| Storage.FoundExactly | recon/storage.py:234-240 | get_record finds exactly the stored record with that id whose key has that kind, in any case of its letters |
| Storage.FoundByType | recon/storage.py:234-240 | a stored record is found under its record type exactly when it is no bank transaction, which is keyed under another name |
| Storage.TimeIsTextOrder | ingestion/schemas.py:31-33 | of two records of a merchant with stamps from 0 to below ten billion the earlier has the smaller temporal key |
| Storage.TextOrderIsTimeOrder | ingestion/schemas.py:33 | the printed time stamps below n are in text order exactly for n up to ten billion |
| Storage.Client.ScanMerchantWindow | recon/storage.py:242-266 | the loop returns the records that the window selects from the merchant's index, in key order |
| Storage.WindowExact | recon/storage.py:242-266 | the window query finds exactly the merchant's records in the window and of the type, in any case of its letters, each once; in nondecreasing time if their stamps are from 0 to below ten billion |
| Fees.FeeWithinHalfCent | ingestion/schemas.py:195-201 | a fee is within half a cent of the exact one |
| Fees.FeeIsNearest | ingestion/schemas.py:195-201 | the fee is the whole number of cents nearest to the percentage of the gross amount plus the fixed charge, halves away from zero |
| Fees.NetIsNearest | ingestion/schemas.py:203-207 | the net amount is the whole number of cents nearest to what the fee leaves |
| Fees.FeeMonotone | ingestion/schemas.py:195-201 | at nonnegative rates a larger amount never has a smaller fee |
| Fees.FeePlusNet | ingestion/schemas.py:203-207 | fee and net add up to the gross amount exactly when that is a whole number of cents |
| Fees.SplittingMovesFee | ingestion/schemas.py:195-201 | without a fixed charge the fees of n parts differ from the fee of their sum by at most (n+1)/2 cents |
| Rules.FeePolicyRegistry.constructor | recon/rules.py:85-197 | a registry starts with the twelve default policies, in order |
| Rules.FeePolicyRegistry.Register | recon/rules.py:90-92 | a new id goes last, a known one is replaced where it stands |
| Rules.FeePolicyRegistry.MatchPolicy | recon/rules.py:199-239 | the policy found, said about the fields of the policies: the latest for the processor and for no other method and currency; if there is none, the latest for the method and currency; if none, the latest for the method; if none, the latest for the processor; if none, the global fallback where it is allowed |
| Rules.ChoiceIsBest | recon/rules.py:210-234 | the choice is the most specific policy, the latest of equally specific ones, and none exactly when none applies; how specific a policy is, is told by its fields |
| Rules.ChoiceByFields | recon/rules.py:210-234 | the four searches choose exactly the policy that the fields of all policies and their order tell, and none exactly when no policy is for the method or the processor |
| Rules.NewestWinsTies | recon/rules.py:90-92 | a newly registered policy is chosen exactly when no earlier one is more specific; otherwise the choice stays |
| Rules.OverrideKeepsItsPlace | recon/rules.py:90-92 | an overridden policy is chosen exactly when it is at least as specific as those before its old place and more specific than those after it |
| Rules.DefaultsGoByMethod | recon/rules.py:97-197 | a default policy applies exactly when one names the payment method, whatever processor and currency |
| Rules.DefaultFees | recon/rules.py:97-197 | a new registry charges each means of payment by its tariff, percentage and fixed charge, and knows no fee exactly where the tariff has none |
| Rules.NamedDefaults | recon/rules.py:97-197 | which default policy an id names, with its percentage, fixed charge, payment method and currency; every other id names none |
| Rules.ReconciliationRules.ComputeExpectedFee | recon/rules.py:266-293 | the fee of the named policy, else of the applicable one, to the nearest cent; none exactly if there is no such policy, zero if fees are not checked |
| Rules.IsCurrencyMatching | recon/rules.py:300-302 | currencies agree exactly when their codes differ at most in case and in blanks at the ends |
| BulkIndex.BuildIndexMap | recon/matcher.py:103-120 | one pass leaves, for every owner and kind, exactly the entries parsed to them, in scan order |
| BulkIndex.BuildSettlementMap | recon/matcher.py:122-128 | the same for settlements by transaction, other kinds skipped |
| BulkIndex.BulkAgreesWithScan | recon/matcher.py:103-128 | for any store, looking up an owner and kind gives the list of the prefix scan exactly when the keys there have the regular shape |
| BulkIndex.HeldIsRegular | ingestion/schemas.py:48-49 | stores of records with colon-free ids are regular at every colon-free owner |
| Entries.SameListsExactlyWhen | recon/matcher.py:229-320 | for any store a payment sees the same six lists on both paths exactly when its six places are regular |
| Entries.SameLists | recon/matcher.py:229-320 | on a store of clean records both paths give a clean payment the same lists |
| Entries.SameBankEntries | recon/matcher.py:537-541 | on a store of clean records both paths give every batch the same bank entries |
| Entries.ProcessorEntry | recon/matcher.py:290-309 | an order's processor entry leads to one of its stored processor transactions and names its id |
| Entries.OrderEntriesExactly | recon/matcher.py:229-291 | the entries of a kind under an order are exactly the stored records of that kind that name the order |
| Entries.BankEntry | recon/matcher.py:561-565 | a bank entry leads to a bank transaction whose reference is the batch id up to case and punctuation |
| Matching.FirstPassThatHolds | recon/matcher.py:399-440 | exact, timing and tolerance apply each exactly when its condition holds, in cents and seconds, and no earlier one does |
| Matching.LooserNeverLosesAPass | recon/matcher.py:405-440 | wider tolerances and windows and a lower threshold never lose a pass or make it a later one |
| Matching.MatchesExactlyWhen | recon/matcher.py:197-524 | a payment matches exactly when no check fails, with the first pass that holds and its one target consumed; otherwise one exception has one finding for each check that fails, in order, with the expected and actual value, difference and related ids of its kind, and it is about the processor transaction or the payment |
| Matching.FiguresAddUp | recon/matcher.py:211-475 | in every exception about a payment each finding's difference is that of its expected and actual amounts |
| RecordLevel.FirstLeft | recon/matcher.py:249-322 | the first entry not consumed leads to the record with the least id that is not consumed, and a second one is there exactly when a second record is left |
| RecordLevel.TargetFromRecords | recon/matcher.py:290-327 | the target told by the records: the unconsumed processor transaction of the order with the least id; without one, the unconsumed settlement with the least id of those that name the transaction or, only if none does, of those that name the order |
| RecordLevel.TargetFields | recon/matcher.py:377-475 | a processor transaction or settlement as a target: its currency, amount, time, description, order, processor name and policy id are what the checks see |
| RecordLevel.OutcomeFromRecords | recon/matcher.py:197-524 | said about the stored records, for every store of clean records and every consumed set: a payment matches exactly when it is no copy, its order has no second payment (outside the bank ledger) and no refund, the first invoice agrees, no rival processor transaction is left, and the target agrees in currency, amount, time and fee; the match has the target's figures and the first pass that holds; otherwise the exception explains every check that fails |
| RecordLevel.MatchesAloneExactlyWhen | recon/matcher.py:197-524 | without settlements a payment matches alone exactly when it is no copy, its order has no second payment (outside the bank ledger) and no refund, the first invoice agrees, and the order has just one processor transaction, which agrees; the match reports that transaction's figures |
| RecordLevel.SameTargetIsSameOrder | recon/matcher.py:290-309 | without settlements, payments that match alone want the same target exactly when they name the same order |
| RecordLevel.FirstFittingPaymentMatches | recon/matcher.py:135-142 | without settlements, over every run, of each order the first payment that fits alone matches and no other one does |
| RecordLevel.MatchesAreSound | recon/matcher.py:290-524 | whatever was consumed, a match names a stored, unconsumed record of the payment that agrees with it in currency, amount, time and fee, reports that record's figures, and no refund or rival was left |
| Engine.ReconciliationEngine.LookUpSettlements | recon/matcher.py:315-320 | settlements of the transaction, or else of the order |
| Engine.ReconciliationEngine.Unconsumed | recon/matcher.py:292-321 | the entries whose last key part is not consumed, in order |
| Engine.ReconciliationEngine.FindTarget | recon/matcher.py:290-327 | the first available processor transaction, or else the first available settlement |
| Engine.ReconciliationEngine.CheckTarget | recon/matcher.py:377-475 | the findings about currency, amount, window and fee, in order, and the pass; what they say is told by Matching.MatchesExactlyWhen |
| Engine.ReconciliationEngine.ReconcileOrder | recon/matcher.py:197-524 | the outcome is the decision on the current store and consumed set, which RecordLevel.OutcomeFromRecords tells from the stored records; only a match consumes, its target |
| Engine.ReconciliationEngine.ReconcileBatch | recon/matcher.py:526-653 | the outcome is the batch decision, which Reports.BatchOutcomeFromRecords tells from the stored records; the consumed set is neither read nor written |
| Engine.ReconciliationEngine.Prefetch | recon/matcher.py:103-128 | the three maps are those of the store's index scans |
| Engine.ReconciliationEngine.ReconcileAll | recon/matcher.py:89-195 | the report is that of the run over the payments, the orphans and the batches; on a store of clean records it is the one that a scan for every lookup would give |
| Runs.BulkRunIsSimpleRun | recon/matcher.py:135-142 | a run has the same outcomes with the bulk maps as with a scan for every lookup |
| Runs.MatchedWasAvailable | recon/matcher.py:292-327 | a matched target is one of the payment's candidates and was not consumed before |
| Runs.NoTargetTwice | recon/matcher.py:135-142 | over a whole run the consumed ids are exactly the matched targets, and those are pairwise different |
| Runs.ConsumedIsGoneExactlyWhen | recon/matcher.py:292 | consuming a record takes its own entry out of later lookups exactly when its id has no colon |
| Runs.DecideFrame | recon/matcher.py:292-321 | a decision depends on the consumed ids only through the payment's own candidates |
| Runs.FirstComeFirstServed | recon/matcher.py:135-142 | without settlements, at every place of every run a payment gets the match it would get alone exactly when no earlier payment would match the same target alone, and no match otherwise |
| Collisions.PairBlocks | recon/matcher.py:292-303 | while two processor transactions of an order are not consumed, no payment of the order matches |
| Collisions.TwoProcessorsNeverMatch | recon/matcher.py:292-303 | an order with two processor transactions that share their ids with no stored settlement never matches, whatever ran before and whatever settlements are stored |
| Collisions.SomePaymentConsumes | recon/matcher.py:311-327 | any settlement that is not consumed lets a payment of an order without records consume a settlement of the same transaction |
| Collisions.SomePaymentMatches | recon/matcher.py:292-309 | once all but one processor transaction of an order without refund are consumed, some payment of the order matches the last one |
| Collisions.NeverMatchesExactlyWhen | recon/matcher.py:290-327 | an order with at least two processor transactions never matches, under any rules and after any run, exactly when a refund is stored for it or two of those transactions share their ids with no settlement; otherwise settlements with the same ids can be consumed until one transaction is left to match |
| Collisions.SomeSuchOrderMatches | recon/matcher.py:290-327 | a store of two processor transactions of one order and a settlement with the id of the first, in which the order can match |
| Runs.OrderIndependentExactlyWhen | recon/matcher.py:135-142 | without settlements, the matches are the same for every order of the payments exactly when no two of them match the same target alone |
| Runs.StoredRunsAreOrderIndependent | recon/matcher.py:229-246 | without settlements and outside the bank ledger topology the matches over stored payments never depend on their order |
| Runs.DisjointPaymentsAreAlone | recon/matcher.py:292-321 | in any store of clean records, settlements or not, payments with disjoint candidates get exactly what they would get alone |
| Runs.DisjointRunsAreOrderIndependent | recon/matcher.py:135-142 | so the order of payments with disjoint candidates never matters, settlements or not |
| Reports.Partitioned | recon/matcher.py:135-142 | every outcome is reported once, as a match or as an exception |
| Reports.PartsInOrder | recon/matcher.py:135-142 | matches and exceptions are each listed in the order of their payments or batches |
| Reports.StoredExactly | recon/matcher.py:98-101 | the scan over a kind reads every stored record of it exactly once |
| Reports.OrphansExactly | recon/matcher.py:144-168 | exactly the processor transactions that nothing consumed and whose order has no stored payment are reported as missing internally, once each, with their id, order and gross amount |
| Reports.BatchOutcomeFromRecords | recon/matcher.py:526-653 | said about the stored records: a batch matches exactly when one bank transaction has its id as reference, up to case and punctuation, and agrees in currency, net amount and time; otherwise its one finding is the first check that fails, with its figures |
| Reports.BatchMatchesFromRecords | recon/matcher.py:536-653 | so a batch matches exactly when just one stored bank transaction has its id as reference, up to case and punctuation, and that one fits; the match names it |
| Reports.SharedBankExactlyWhen | recon/matcher.py:536-565 | two matched batches share their bank transaction exactly when their ids are the same up to case and punctuation |
| Reports.NoBankTwiceExactlyWhen | recon/matcher.py:170-179 | over a run matched bank transactions are pairwise different exactly when no two matched batches have the same id up to case and punctuation |
| Reports.Conservation | recon/matcher.py:135-195 | matches plus exceptions are payments plus stored batches plus unclaimed processor transactions, for every list of payments |
| Reports.ReportContents | recon/matcher.py:135-195 | the report holds exactly the matches of payments and batches, and exactly their exceptions and one about each unclaimed processor transaction, those about payments first and those about batches last |
| Reports.WholeStoreConserved | recon/matcher.py:97-101 | run over the whole store, the counts are those of its payments, batches and unclaimed processor transactions |
| Reports.BulkReportIsSimpleReport | recon/matcher.py:103-179 | the report is the same with the bulk maps as with a scan for every lookup |

## Left out

- HashTable.Table.constructor: asks for a requested capacity of at least 3, because with one or two slots the table can fill up and the source's probe never ends; the memtable asks for 16.
- HashTable.LoadTestKeepsASlotFree: speaks of the exact factor seven tenths; the double 0.7 of the source gives the same test on all capacities that fit in memory.
- Database.DB.constructor: asks for a log and a limit of at most 2^57 bytes, so that table offsets fit 64 bits, and for a directory that holds tables 0 to n-1 as the writer made them. A foreign file name, a gap or a damaged table is not modelled.
- Database.DB.Put: crash safety is stated for a time to live of 0 and for operations that write no eleventh or later table. What a time to live becomes in a recovery and what an eleventh table does are stated exactly in Log.TtlSurvivesRecovery and Recovery.ReopenKeepsReads.
- Database.DB.Del: crash safety is stated for operations that write no eleventh or later table, for the same reason.
- Histories.RunByHistory: speaks of runs of puts and deletes; a read in between that meets an expired entry of its key removes it (Database.DB.Get), and a later delete of that key then counts no bytes.
- Sessions.Execute: safety over a whole run is stated for up to ten tables, for the same reason. The methods of Sessions are clients of the store and have no counterpart in the source.
- Backing.StoreMirrorsClient: texts are sequences of Unicode scalar values; a Python text with a lone surrogate, on which encoding raises an error, is not modelled.
- Collisions.NeverMatchesExactlyWhen: speaks of all rules at once; for one given set of rules the sufficient condition of TwoProcessorsNeverMatch is stated.
- Fees.FeePlusNet: an amount with more than four decimals is first rounded to four by the source; the model takes the amount as it is.
- Storage.HoldsGrows: a primary key is loaded once; a second load under the same key leaves stale index entries behind.
- Storage.WindowExact: that the records come in order of time is stated for stamps from 0 to below 10^10, the bound up to which text order is time order (Storage.TextOrderIsTimeOrder); which records are found is stated for all stamps.
- Storage.Client.ScanMerchantWindow: a time field of a merchant key that is no number, which makes the source raise an error, is read as a number all the same; clean records have none.
- Runs.FirstComeFirstServed: settlement entries are excluded, because a payment may then take a settlement of another order; NoTargetTwice, MatchesExactlyWhen, MatchesAreSound, DisjointPaymentsAreAlone and NeverMatchesExactlyWhen cover them.
- Runs.OrderIndependentExactlyWhen: settlement entries are excluded for the same reason; with them DisjointRunsAreOrderIndependent gives one direction, on the candidates.
- Runs.StoredRunsAreOrderIndependent: settlement entries are excluded for the same reason.
- RecordLevel.SameTargetIsSameOrder: settlement entries are excluded, because a settlement is found under a transaction and not under an order.
- Matching.MatchesExactlyWhen: a key that leads to a record of another type, on which the source raises a validation error, counts as leading nowhere; stores of clean records have no such key.
- The arena and freeing of memory: copied keys and values are immutable sequences.
- FNV-1a: the hash is an arbitrary function, so nothing is said about its distribution.
- POSIX calls, the C API and ctypes: failed opens and short reads in the middle of a file do not occur, and building a table file is one atomic step.
- The log and the tables compute their checksums with the specification of the CRC rather than with the shared table object, to which Crc32.Table.Crc and CrcFields tie it.
- DB::put and DB::del share a helper, as do the two append functions of the log, and the body of reconcile_order is spread over several methods.
- MiniVaultDB's concurrency: the source has none.
- Floats, JSON, pydantic defaults, generated ids, creation times, confidence values and the metadata of matches and exceptions other than the findings.
- A Python dictionary of policies is its insertion order and a map; an absent context field is the empty text, which the source treats alike, except for a policy whose currency is the empty text.
- Description similarity: an arbitrary score; difflib, the regular expressions and the stop words are not modelled.
- Upper case, stripping and alphanumeric tests are ASCII only.
- The batch index (IDX:BATCH) is written but nothing modelled reads it.
- is_within_days_window and MatchCandidate, which the engine does not use.
- The AI layer, the guardrail gate, data adapters, generators, evaluation and report printing.
