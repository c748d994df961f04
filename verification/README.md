# mini-leveldb, modelled in Dafny

mini-leveldb is a small storage engine: a write-ahead log, a memtable on a skip list, immutable sorted tables, and a
flush that survives a crash at any point. This project models it from the byte codecs up to the public interface and
proves that, whatever crashes, it behaves as a plain map, for exactly the keys that the search in a table can tell apart.

The source's loops and mutable objects are methods and classes. Each is proved against a specification function, and
what the source promises is proved of these functions as lemmas.

- `Coding`, `Crc32c`, `Crc32cPoly`, `Crc32cFast`, `Crc32cSum`: integers, length prefixes, CRC-32C bit by bit, as a remainder
  of polynomials, and by tables.
- `DbFormat`, `WriteBatch`: internal keys and their order, batches and their replay.
- `LogFormat`, `LogProofs`, `LogWriter`, `LogReader`, `LogDamage`, `LogResync`: the log in 32 KB blocks, for arbitrary
  bytes.
- `BlockFormat`, `BlockProofs`, `BlockBuilder`: prefix-compressed blocks with restart points.
- `Format`, `TableFormat`, `TableProofs`, `TableLookup`, `TableDamage`, `TableSizes`, `TableBuilder`: table files, the
  two-level lookup, and what it makes of damaged files.
- `Arena`, `SkipList`, `MemTable`: the structures in memory, the first over addresses, the second over a heap.
- `Store`, `Recovery`, `Layers`, `StoreProofs`, `StoreTheorem`, `StandardFormats`: the database as a machine over single
  disk steps, its invariant, and the refinement of a plain map. The machine is stated over an interface of file formats
  (`Formats`) and its laws; `StandardFormats` shows that the byte formats obey them.
- `DbReplay`, `DbFlush`, `DbImpl`: the database object, for directories, logs and batches of any bytes. `DbSteps` says what
  each of its operations comes to; with `DbPaths` it shows that, from states the store reaches, these are its steps.
- `Histories`, `Database`, `Client`: the public interface. Its object carries, as a ghost, the run of the store that its
  calls make and the plain map beside it; a client that opens, writes, reopens and reads is verified against it.
- `ClientRuns`, `ByteCondition`: what becomes of keys that are not apart, and that this is the only thing that goes wrong.

`Bytes`, `Seqs` and `Checksums` hold shared vocabulary. Logs and tables are proved for an arbitrary checksum function
(`Sum`); `Crc32cSum` gives the actual one.

## Keys

Tables are fed in comparator order but searched bytewise, a sought user key against stored internal keys. This is right
exactly when the sought key is *apart* from every stored key (`TableLookup.Apart`): whenever a stored key is a proper
prefix of it, the bytewise last version of that stored key is still less than it. A byte of at least 2 after the prefix
is enough; a byte 0 never is, and a single byte 1 never is either. The theorem over runs assumes it of the key sought,
unless that was never written. `ByteCondition.RunsExact` shows that nothing less would do: for every set of keys in which
one is not apart from another there is a run of single writes that reads it wrongly. Where an early version already
stands in the way, as it does before a byte 0 or a last byte 1, two puts and a flush do (`ByteCondition.WriteLost`). A
single table then answers with nothing rather than with something wrong (`TableLookup.TableGetNeverWrong`), but that does
not lift to the database: an older table may still hold the key, and `Get` returns a value overwritten or deleted since
(`ByteCondition.StaleRead`).

## Where code and comments differ

- src/db/db_impl.cc:97-98 expects that a crash between rename and removal may leave several logs. The old log is removed
  before the new one is created (src/db/db_impl.cc:255-262), so at most one log ever exists (`StoreTheorem.LogChained`).
- `Init` is nevertheless ready for several logs (src/db/db_impl.cc:101-128), and takes the last number from the last of
  them alone, since each replay starts it at 0 (src/db/db_impl.cc:152 and 170). A log numbered 0 alone does not count: the
  start-up creates another (src/db/db_impl.cc:100 and 130-138). `DbImpl.DBImpl.Init` follows the code in both.
- The same comment has the greater sequence number win. Recovery restarts the maximum at 0 and consults no table
  (src/db/db_impl.cc:152 and 170), so numbers may repeat across layers; freshness there comes from layer order alone.
- src/db/log_format.h:25 has the reader skip a record of type 0. The reader drops the block (src/db/log_reader.cc:78-80);
  padding at a block's end never gets there because it is shorter than a header.

## Model

| member | source | states |
|---|---|---|
| `StandardFormats.StoreRefinesMap` | src/db/db_impl.cc:60-303 | For every run of writes, flushes (at any moment), crashes (between any two disk steps, or after any byte of a log append) and reopens over the real log and table bytes, there is a run of a plain map with the same begin, acknowledge and crash events, in which a write cut short is applied whole or not at all; whenever the database is open `Get` of a key apart from the keys written returns what the map has, and at every moment the disk alone determines the same answer |
| `Layers.PlainKeySought` | src/table/block.cc:81-93 | A key all of whose bytes are at least 2 is apart from every key, so the theorem applies to it whatever was written |
| `StoreTheorem.Refines` | src/db/db_impl.cc:60-269 | The invariant (one log at most, its records the encodings of chained batches, every table built from a sorted layer, numbers below the next one, layers agreeing with the map) holds after every step of every run |
| `StoreTheorem.DiskStepKeepsView` | src/db/db_impl.cc:60-269 | No single disk step of start-up (scan, remove one temporary file, truncate, create the log) or of a flush changes what recovery would answer for any key |
| `StoreTheorem.AppendStepView` | src/db/db_impl.cc:180-201 | While a record is being appended, no byte but its last changes what recovery would answer; the last one brings the whole batch at once |
| `StoreTheorem.LogChained` | src/db/db_impl.cc:154-170 | In every reachable state there is at most one log, and its non-empty batches carry back-to-back sequence ranges, across crashes and reopens that restart the numbering |
| `StoreTheorem.NewTableAbove` | src/db/db_impl.cc:213-233 | The number a flush takes for its table is above every existing file's, and stays above every other's until the table is in place |
| `StoreTheorem.Reopens` | src/db/db_impl.cc:60-178 | From the directory any run leaves behind, start-up can always be completed: tables open, the log replays without an error |
| `StoreTheorem.GetAnswers` | src/db/db_impl.cc:283-303 | Memtable over tables from newest to oldest, tombstones ending the descent, gives what the plain map has |
| `StoreTheorem.DiskAnswers` | src/db/db_impl.cc:144-178 | Replaying the log over the tables by descending number gives the map, with the write in flight counted once its record is complete |
| `StoreProofs.RecoverKeeps` | src/db/db_impl.cc:97-142 | Recovery rebuilds exactly the memtable of the logged batches, and cutting the log after its last good fragment loses no record |
| `StoreProofs.RenameKeeps` | src/db/db_impl.cc:232-244 | Renaming the temporary file puts the memtable's layer in front of all others without changing any answer |
| `StoreProofs.RemoveKeeps` | src/db/db_impl.cc:246-257 | Once that table is there, removing the old log changes no answer |
| `StoreProofs.AppendReads` | src/db/db_impl.cc:183-187 | A log with part of a record appended reads as before; with all of it, as before plus the new batch |
| `Recovery.RecoverAll` | src/db/db_impl.cc:145-170 | Replaying a chained log gives, without an error, the memtable of its batches and its greatest sequence number |
| `Recovery.MemHolds` | src/db/db_impl.cc:145-170 | In the memtable of a chained log every key looks up as its last write in log order |
| `Recovery.AddBatch` | src/db/db_impl.cc:189-194 | A batch numbered above everything in the memtable makes its own last write to a key the answer and leaves other keys alone |
| `Layers.ViewFlushed` | src/db/db_impl.cc:216-244 | A table of the log's memtable above all others hides nothing and reveals nothing while the log is there |
| `Layers.ViewRotated` | src/db/db_impl.cc:246-267 | The same table stands in for the log once that is gone |
| `Layers.MountedAbove` | src/db/db_impl.cc:82-95 | A file numbered above all others is mounted in front of them |
| `StandardFormats.LogObeys` | src/db/log_reader.cc:8-106 | The log format meets the laws the store theorem uses: clean when empty or truncated, an append read whole or not at all |
| `StandardFormats.TableObeys` | src/table/table.cc:22-112 | The table format meets the laws the store theorem uses: a built table opens and is looked up like its entries |
| `ByteCondition.RunsExact` | src/db/db_impl.cc:283-303 | Exactly when reads are right: every run that writes only keys of a set (with crashes and batches of any size), and likewise every run of single writes as `Put` and `Delete` make them, reads a key as the plain map has it, if and only if the key is not in the set or is apart from every key of it |
| `ByteCondition.WriteLost` | src/db/db_impl.cc:283-303 | In a new database: put a key, then put a proper prefix of it whose second version stands bytewise at or behind the key, flush; the map has the key, but `Get` finds nothing |
| `ByteCondition.StaleRead` | src/db/db_impl.cc:283-303 | Once such a key is in an older table: overwrite or delete it, put the prefix, flush; `Get` returns the old value, so that a table's empty answer becomes a wrong one of the database |
| `ByteCondition.ShadowedByZero` | src/db/dbformat.h:41-47 | Every version of a key stands in the way of every extension of it by a zero byte and more |
| `ByteCondition.ShadowedByOne` | src/db/dbformat.h:41-47 | And in the way of its extension by a single byte 1 |
| `ByteCondition.ShortKeysStorable` | src/table/table_builder.cc:19-78 | Keys and values of up to 256 megabytes meet the demands that `RunsExact` makes on sizes |
| `TableSizes.LightFits` | src/table/table_builder.cc:19-78 | Every entry list of up to a gigabyte fits the table format, with its blocks, index and handles |
| `DbImpl.DBImpl.Init` | src/db/db_impl.cc:60-142 | For every directory and listing, with any number of logs: the object ends in the open state they determine, having changed the directory only through the listed states; it fails exactly when a table does not open or a log's batch is corrupt, and says what it has changed by then; its objects are new |
| `DbImpl.DBImpl.Scan` | src/db/db_impl.cc:63-80 | The next number is one above all listed, the last log is found, exactly the temporary files are removed, one by one |
| `DbImpl.DBImpl.MountAll` | src/db/db_impl.cc:82-95 | Walking the listing backwards mounts the tables newest first, or stops at one that does not open |
| `DbImpl.DBImpl.Recover` | src/db/db_impl.cc:145-178 | One log of arbitrary bytes: the memtable gains its batches, the greatest number is the replay's, and the log is cut where replaying stopped |
| `DbImpl.DBImpl.RecoverLogs` | src/db/db_impl.cc:101-128 | All logs in the listing's order, until one is corrupt; the last one goes on being written, and the last number is its alone |
| `DbPaths.ListFiles` | src/db/filename.cc:55-74 | Every file of the directory once, by ascending number |
| `DbReplay.ReplayLog` | src/db/db_impl.cc:145-178 | The recovery loop over the log reader computes the replay of the log's records and stops behind the first record shorter than a batch header, or at the valid end |
| `DbReplay.KeepsBatches` | src/db/db_impl.cc:155-176 | Of a log of batches it keeps everything up to the last good fragment |
| `DbReplay.KeepsToShort` | src/db/db_impl.cc:154-176 | Of a log with a record shorter than a batch header it keeps everything up to the end of the first such record |
| `DbReplay.FailsOnCorrupt` | src/db/db_impl.cc:154-162 | Replay fails exactly on a log with a corrupt batch before any such record |
| `DbImpl.DBImpl.Commit` | src/db/db_impl.cc:180-195 | For a batch of any bytes: the record with its number set is appended to the current log and replayed into the memtable, up to where it is corrupt; only a sound one moves the last number |
| `DbImpl.DBImpl.Write` | src/db/db_impl.cc:180-201 | The same, followed by a flush exactly when the batch was sound and the memtable's memory has reached 4 megabytes; every object it replaces is new |
| `DbImpl.DBImpl.Put` | src/db/db_impl.cc:271-275 | A write of the batch with this one put, for a key and value of any length |
| `DbImpl.DBImpl.Delete` | src/db/db_impl.cc:277-281 | A write of the batch with this one deletion |
| `DbImpl.DBImpl.FlushMemTable` | src/db/db_impl.cc:206-269 | A non-empty memtable goes through exactly five directory states (temporary file, filled, renamed, log removed, new log) into a table in front of the others, with a new log and memtable; a table that does not open stops it after the rename, with log and memtable as they were; an empty memtable changes nothing |
| `DbImpl.DBImpl.Get` | src/db/db_impl.cc:283-303 | Returns what memtable and tables say in the store's layer order |
| `DbSteps.FlushesWhenFull` | src/db/db_impl.cc:197-200 | A write changes the directory more than once exactly when its batch was sound and the memtable has come to 4194304 bytes with it; one that succeeds leaves less than that |
| `DbSteps.FlushNet` | src/db/db_impl.cc:206-269 | Net of its steps, a flush whose table opens puts table n in front and an empty log n + 1 in place of the old one; one whose table does not open leaves log, memtable and every answer as they were |
| `DbSteps.FlushNothing` | src/db/db_impl.cc:206-211 | Of an empty memtable there is nothing to flush: no directory state, and the same state after |
| `DbSteps.CommitUnknown` | src/db/db_impl.cc:180-195 | A batch with an unknown tag behind sound operations is logged whole, its sound operations enter the memtable, the write fails and the last number stays |
| `DbSteps.CommitCounts` | src/db/db_impl.cc:180-195 | A write of any bytes that succeeds moves the last number by as many as it has operations, in 64 bits; one that fails leaves it |
| `DbSteps.OpensExactly` | src/db/db_impl.cc:60-142 | Which directories can be opened, for any files: those in which every table opens and, unless there is no log but one numbered 0, no log holds a corrupt batch before a record too short for one |
| `DbSteps.SeveralLogs` | src/db/db_impl.cc:101-128 | Several logs are replayed one behind the other into one memtable; the last number is the last one's alone |
| `DbFlush.WriteTable` | src/db/db_impl.cc:216-230 | Walking the skip list into the table builder writes the table of the memtable's entries, in order |
| `DbSteps.CommitDoneIs` | src/db/db_impl.cc:180-195 | For operations within the format's sizes and numbers, what `Commit` computes from the bytes is the machine's committed state |
| `DbSteps.CommitIsPath` | src/db/db_impl.cc:180-194 | And begin, append, acknowledge lead there |
| `DbSteps.FlushTakesSteps` | src/db/db_impl.cc:206-269 | A flush of a memtable that fits succeeds, and is a silent path of the store through exactly the directory states it leaves |
| `DbSteps.InitTakesSteps` | src/db/db_impl.cc:60-142 | On every directory a run with crashes leaves behind, `Init` succeeds, and is a silent path of the store through exactly the directory states it leaves |
| `Histories.HistoryOf` | src/db/db_impl.cc:60-269 | Every run of the store, with whatever crashes, has a history: the plain runs and witnesses that the public interface is proved against exist for it |
| `Histories.HistoryOp` | src/db/db_impl.cc:180-201 | A `Put` or `Delete` of the object that fits the format, with the flush it brings when it fills the memtable, prolongs its run of the store; the plain run beside it has the operation applied |
| `Histories.HistoryTorn` | src/db/db_impl.cc:180-201 | A crash after any byte of a write's record leads to a directory from which the plain run goes on with the write applied whole or not at all |
| `Histories.HistoryFlushCrash` | src/db/db_impl.cc:206-269 | A crash after any directory state that the object's flush leaves behind leads to a history with the same map |
| `Histories.HistoryInitCrash` | src/db/db_impl.cc:60-142 | A crash after any directory state that the object's start-up leaves behind leads to a history with the same map |
| `Histories.RoomFits` | src/db/db_impl.cc:197-199 | Memtable and write within a gigabyte: the write fits, and so does the table it may bring |
| `Histories.HistoryAnswers` | src/db/db_impl.cc:283-303 | Where a history leads, `Get` of a key apart from all keys written is the plain map's answer |
| `Databases.DB.Open` | src/db/db_impl.cc:48-58 | Opening the directory of any history, crashed or not, succeeds; the object stands for the history's map |
| `Databases.DB.Put` | src/db/db_impl.cc:271-275 | For any key and value the database stays open; if the write fits the format, it succeeds, the map that the object stands for gains the key, and the run behind it is prolonged by exactly this write and the flush it may bring; a write that succeeds leaves the memtable below 4194304 bytes |
| `Databases.DB.Delete` | src/db/db_impl.cc:277-281 | The same for a deletion, by which the map loses the key |
| `Databases.DB.Get` | src/db/db_impl.cc:283-303 | The answer is the map's, for a key apart from every key in the run |
| `Databases.Reopen` | src/db/db_impl.cc:41-58 | After a close or a crash and another open, the map is the same |
| `Clients.WriteReopenRead` | include/mini-leveldb/db.h:11-27 | A client that owns nothing beforehand creates a database, writes two keys of up to 128 megabytes with values of up to as much, each with a flush if it fills the memtable, reopens it, and reads the first: it gets the value written |
| `DbPaths.MountOrder` | src/db/db_impl.cc:82-95 | The reverse of the ascending listing is the descending order of table numbers |
| `LogProofs.WriteReadCut` | src/db/log_reader.cc:8-106 | For a log file of arbitrary bytes: cut at the valid end, resume writing any records there, stop after any byte; the file reads as its old records followed by exactly the complete new ones |
| `LogProofs.WriteRead` | src/db/log_writer.cc:10-72 | Without a cut: the old records followed by all the new ones |
| `LogProofs.Resume` | src/db/log_reader.cc:52-93 | Any two files that agree up to the valid end of one give its records, then continue from there, whatever unfinished fragments or bad blocks precede |
| `LogProofs.ScanAppend` | src/db/log_writer.cc:16-47 | A fragmented, padded record is reassembled whole, whatever was held before it |
| `LogProofs.ScanCut` | src/db/log_writer.cc:16-47 | A record cut before its last byte is not returned, not even in part |
| `LogProofs.TruncateClean` | src/db/db_impl.cc:172-176 | Cutting at the valid end keeps every record, and the result ends with a good fragment |
| `LogProofs.AppendClean` | src/db/log_writer.cc:10-53 | One completed append adds one record and leaves the file ending with a good fragment |
| `LogProofs.AppendTorn` | src/db/log_writer.cc:10-53 | One append cut before its last byte adds nothing |
| `LogResync.AnyDamageDrops` | src/db/log_reader.cc:38-46 | For a log of arbitrary bytes: changed only between a fragment's header and the end of its block, so that this fragment is no longer good, it reads as exactly the records with no fragment in between, in order |
| `LogDamage.DamageDrops` | src/db/log_reader.cc:38-46 | The same of a log resumed behind a clean prefix: the prefix's records and those of the new ones that keep clear of the damage |
| `LogDamage.FreshDamageDrops` | src/db/log_reader.cc:38-46 | And of a log written from an empty file |
| `LogDamage.Orphans` | src/db/log_reader.cc:28-37 | What a record cut by such damage leaves behind the block is dropped, not merged into another record |
| `LogWriters.LogWriter.AddRecord` | src/db/log_writer.cc:10-53 | The file grows by the specified fragments and padding, also when resumed at a block end |
| `LogWriters.LogWriter.AddFragment` | src/db/log_writer.cc:16-47 | One turn of the loop writes the padding and the fragment that fit the block |
| `LogReaders.LogReader.ReadRecord` | src/db/log_reader.cc:8-50 | Returns the next record of the specified reading, leaves the rest to read, and has the valid end at the record's end, or at the log's when there is none left |
| `LogReaders.LogReader.ReadPhysicalRecord` | src/db/log_reader.cc:52-93 | Sees at the next header position what the specification sees: a fragment, a bad block, or the end |
| `LogReaders.LogReader.Refill` | src/db/log_reader.cc:95-106 | Moves to the next block, or reports that there is none |
| `LogReaders.ReadAll` | src/db/log_reader.cc:8-106 | Reading to the end terminates and returns exactly the log's records and valid end, for arbitrary bytes |
| `LogProofs.SeesExactly` | src/db/log_reader.cc:52-93 | A fragment is seen exactly where four bytes of checksum, two of length, one of type from 1 to 4 and the payload stand inside one block of 32768 bytes, and the checksum matches |
| `LogProofs.SeesElse` | src/db/log_reader.cc:52-76 | Reading ends when the file ends before its block and before what is announced; fewer than seven bytes at a block's end are skipped |
| `LogProofs.ZerosFill` | src/db/log_writer.cc:20-30 | With less than seven bytes left in a block, zeros fill it and the record starts the next |
| `LogProofs.RecordLaid` | src/db/log_writer.cc:16-47 | A record written from a block's start fills block after block with 32761 bytes of it each, and the types tell the first fragment, the last, and those between |
| `BlockProofs.BlockRoundTrip` | src/table/block_builder.cc:17-58 | For every entry list that fits, sorted or not, building and then iterating from the first entry reproduces it through prefix compression and restarts |
| `BlockProofs.SeekParted` | src/table/block.cc:65-96 | When keys below the target come first, `Seek` lands on the first entry not less than it, or runs off the end |
| `BlockProofs.SeekLands` | src/table/block.cc:65-96 | For keys in any order, `Seek` lands on an entry not less than the target and no later than the last point from which none is less; within one restart interval, on the first such entry |
| `BlockProofs.RestartIsEdge` | src/table/block.cc:65-85 | The binary search ends at a restart point whose key is less than the target, or the first, while the next one's is not, whatever the order of the keys |
| `BlockProofs.SharesLongest` | src/table/block_builder.cc:17-45 | In the bytes laid down each entry leaves out exactly the longest prefix shared with the key before it, every sixteenth none, and the decoder finds that length |
| `BlockProofs.TailLaid` | src/table/block_builder.cc:47-58 | Behind the entries stand the offsets of every sixteenth and their number, in four bytes each |
| `BlockProofs.OpensOnlyFinished` | src/table/block.cc:7-25 | Bytes that announce more restart points than they can hold open empty; any others are entries, offsets and number as a builder would finish them |
| `BlockProofs.DecodeBuilt` | src/table/block.cc:27-53 | Decoding at an entry's offset, with the previous key held, gives the entry and the next offset |
| `BlockProofs.OpenBuilt` | src/table/block.cc:7-25 | Opening a built block finds the entries and the restart offsets |
| `BlockFormat.EstimateIsExact` | src/table/block_builder.cc:61-63 | The size estimate is the length of the finished block |
| `Blocks.BlockBuilder.Add` | src/table/block_builder.cc:17-45 | The fields advance as specified, the shared prefix being the longest one |
| `Blocks.BlockBuilder.Finish` | src/table/block_builder.cc:47-58 | Appends the restart array and its count |
| `Blocks.BlockBuilder.CurrentSizeEstimate` | src/table/block_builder.cc:61-63 | Equals the finished length |
| `Blocks.BlockIterator.Seek` | src/table/block.cc:65-96 | The two loops compute the specified binary search and scan |
| `Blocks.BlockIterator.Next` | src/table/block.cc:98-108 | Decodes the following entry |
| `Blocks.BlockIterator.SeekToFirst` | src/table/block.cc:55-63 | Decodes the first restart, or is invalid without one |
| `Blocks.CommonPrefix` | src/table/block_builder.cc:23-29 | The prefix loop finds the longest common prefix |
| `TableLookup.TableGetCorrect` | src/table/table.cc:67-112 | For every entry list in comparator order and every key apart from the stored ones, building a table and looking the key up gives its newest version's value, a tombstone, or nothing, also when versions straddle blocks and bytewise order disagrees |
| `TableLookup.TablesExact` | src/table/table.cc:67-112 | The condition is exact: every table over a set of keys answers a stored key rightly if and only if the key is apart from each of them |
| `TableLookup.ApartMeans` | src/db/dbformat.h:41-47 | The condition in bytes: the byte after the stored prefix is at least 2, or it is 1 and what follows exceeds every sequence number's bytes |
| `TableLookup.ApartByByte` | src/db/dbformat.h:41-47 | A byte of at least 2 after every stored prefix is enough |
| `TableLookup.TableGetNeverWrong` | src/table/table.cc:67-112 | Without the condition one table's lookup is still never wrong, only possibly empty (which the database may then answer from an older table) |
| `TableLookup.PairMissed` | src/table/table.cc:67-112 | For two keys that are not apart, a table of consecutive versions, as a flush writes it, in which the longer key is stored and not found |
| `TableLookup.SmallTableExact` | src/table/table.cc:67-112 | A table of one block and one restart interval answers rightly exactly when no entry before the key is bytewise not less than it |
| `TableLookup.LessByUserKey` | src/table/block.cc:81-93 | For keys apart, comparing an internal key with a user key bytewise is comparing user keys |
| `TableProofs.BlocksHold` | src/table/table_builder.cc:19-29 | Cutting into 4 KB blocks loses, adds and reorders nothing, and no block is empty |
| `TableProofs.BlocksCut` | src/table/table_builder.cc:19-29 | Every block but the last reaches 4096 bytes with its last entry and not before |
| `TableProofs.Tiles` | src/table/table_builder.cc:31-48 | Each recorded handle starts where the block before it and its trailer ended |
| `TableProofs.OpenBuiltTable` | src/table/table.cc:22-65 | The footer leads to the index block, whose handle closes the tiling up to the footer |
| `TableProofs.ReadDataBlock` | src/table/format.cc:74-98 | Every index entry's handle reads back the data block that was written |
| `Tables.TableBuilder.Add` | src/table/table_builder.cc:19-29 | Takes one more entry, writing the block out when full; refused once finished |
| `Tables.TableBuilder.Finish` | src/table/table_builder.cc:50-78 | The file is the table of the entries taken, and the recorded size is its length; refused once finished |
| `Tables.TableBuilder.WriteDataBlock` | src/table/table_builder.cc:31-48 | Seals the block, indexes it under its last key, and starts afresh |
| `Tables.Table.Open` | src/table/table.cc:22-65 | Opens a table or fails with the specified error |
| `Tables.Table.Get` | src/table/table.cc:67-112 | Computes the specified two-level lookup |
| `Format.FooterRoundTrip` | src/table/format.cc:20-45 | The footer decodes to the handles encoded |
| `Format.HandleRoundTrip` | src/table/format.cc:8-18 | A handle decodes to itself and leaves what follows, in at most 20 bytes |
| `Format.ReadSealed` | src/table/format.cc:74-98 | A sealed block is read back through its handle |
| `Format.ReadsOnlySealed` | src/table/format.cc:74-98 | Contents are returned exactly when they stand at the handle with type byte 0 and their checksum behind them |
| `Format.ReadFails` | src/table/format.cc:74-88 | A handle that reaches beyond the file is an input error, and nothing else is |
| `Format.FooterLaid` | src/table/format.cc:20-31 | Two offsets and sizes, zeros up to 40 bytes, and the magic number's eight bytes |
| `Format.FooterDecodes` | src/table/format.cc:33-45 | Exactly what ends in the magic number and starts with two handles passes for a footer |
| `TableDamage.OpensOnlySealed` | src/table/table.cc:22-65 | Any file that opens ends in the magic number, and its footer leads to a sealed index block |
| `TableDamage.OpensOnlyMagic` | src/table/table.cc:33-51 | A file too short or without the magic number is reported as corrupt |
| `TableDamage.AnswersOnlySealed` | src/table/table.cc:67-97 | In any file, whatever a lookup answers but nothing comes from a sealed block |
| `TableDamage.BlockDamaged` | src/table/table.cc:82-89 | A table changed only in one data block and its trailer, so that the checksum no longer matches: keys that the index sends there are not found, every other key is answered as before |
| `TableDamage.IndexDamaged` | src/table/table.cc:54-61 | A table so changed in its index block does not open |
| `Format.WriteBlock` | src/table/format.cc:47-72 | Appends a sealed block and says where it went, so that it reads back |
| `SkipLists.SkipList.FindGreaterOrEqual` | src/db/skiplist.h:145-158 | The multi-level search terminates on the node where the linear scan stops, and records the last node before it on each level |
| `SkipLists.SkipList.Insert` | src/db/skiplist.h:43-66 | Whatever height is drawn, exactly one key enters level 0, before the first key not less than it, and every level stays linked in order |
| `SkipLists.SkipList.LevelStep` | src/db/skiplist.h:58-65 | A link on any level goes forward in order to a node that is on every lower level, skipping only nodes that do not reach the level |
| `SkipLists.SkipList.LinkedAfter` | src/db/skiplist.h:58-65 | After the two linking loops every level links exactly the nodes that reach it |
| `SkipLists.SkipList.Contains` | src/db/skiplist.h:69-72 | True exactly when an equivalent key is in the list |
| `SkipLists.SkipList.RandomHeight` | src/db/skiplist.h:132-138 | From 1 to 12, and determined by the draws: all but the last are divisible by four, so is the last at height 12, and the generator stands behind the last one |
| `SkipLists.Random.Next` | src/db/skiplist.h:19-26 | The shift-and-add step is multiplication modulo 2^31 - 1, and from a seed strictly between 0 and 2^31 - 1 it never comes to either, where it would stay for ever |
| `SkipLists.Random.constructor` | src/db/skiplist.h:14-18 | The seed is the low 31 bits, or 1 where those are 0 or 2^31 - 1 |
| `SkipLists.InsertedInOrder` | src/db/skiplist.h:43-66 | Insertion keeps the order, for any weak order |
| `SkipLists.Iterator.Seek` | src/db/skiplist.h:115-117 | Stands on the first key not less than the target |
| `SkipLists.Iterator.Next` | src/db/skiplist.h:106-109 | Moves one place in order |
| `MemTables.GetIsNewest` | src/db/memtable.cc:20-38 | After additions in any order, a lookup gives the entry of greatest tag for the key, the latest added on ties, or nothing |
| `MemTables.MemGetIsLookup` | src/db/memtable.cc:20-38 | Seeking the key of maximal tag and checking where it lands finds the key's newest version |
| `MemTables.LookupAdded` | src/db/memtable.cc:7-18 | An entry no older than its key's versions becomes the answer; other keys keep theirs |
| `MemTables.AddKeepsOrder` | src/db/memtable.h:33-46 | Iteration order is comparator order, tombstones included |
| `MemTables.MemTable.Add` | src/db/memtable.cc:7-18 | The entries become the ordered list with the tagged entry inserted |
| `MemTables.MemTable.Get` | src/db/memtable.cc:20-38 | Returns the lookup of the newest version |
| `MemTables.UsageAdded` | src/db/memtable.cc:7-18 | An addition uses the size of its record and one node, wherever it enters the order |
| `MemTables.MemTable.ApproximateMemoryUsage` | src/db/memtable.cc:40 | The arena's total is what the entries and the list's head take, whatever heights were drawn and wherever the blocks lie |
| `DbFormat.InternalKeyRoundTrip` | src/db/dbformat.h:29-56 | Parsing an internal key gives back user key, sequence number and type |
| `DbFormat.BeforeTrichotomy` | src/db/dbformat.h:59-66 | The comparator is a strict order in which only equal keys are incomparable |
| `DbFormat.BeforeTransitive` | src/db/dbformat.h:59-66 | And it is transitive |
| `DbFormat.LookupIsNewest` | src/db/dbformat.h:58-66 | In comparator order the first entry of a key is the one of greatest tag |
| `DbFormat.AnswerTells` | src/table/table.cc:105-111 | An entry of type 1 tells its value, one of any other type is a tombstone |
| `WriteBatches.IterateRoundTrip` | src/db/write_batch.cc:46-84 | Replaying an encoded batch makes exactly its calls and reports success |
| `WriteBatches.CallsAt` | src/db/write_batch.cc:66-72 | The calls are the operations in order, with consecutive sequence numbers |
| `WriteBatches.IterateCut` | src/db/write_batch.cc:46-84 | A batch cut anywhere after its header replays whole operations only and is reported |
| `WriteBatches.IterateExtended` | src/db/write_batch.cc:46-84 | Anything after the last operation is reported |
| `WriteBatches.IterateUnknown` | src/db/write_batch.cc:58-76 | An unknown tag behind sound operations ends the replay with an error, whatever follows it |
| `WriteBatches.IterateCounts` | src/db/write_batch.cc:50-83 | For any bytes: the calls carry consecutive numbers and are no more than announced, and without an error no fewer |
| `WriteBatches.CountIsSigned` | src/db/write_batch.cc:19-52 | The count is signed in 32 bits, and the quota is its 64-bit sign extension |
| `WriteBatches.ShortOps` | src/db/write_batch.cc:25-36 | The bytes of a put and of a deletion of short strings |
| `WriteBatches.AppendOpBatch` | src/db/write_batch.cc:25-36 | Appending an operation to an encoding gives the encoding of the longer list |
| `WriteBatches.WriteBatch.Put` | src/db/write_batch.cc:25-30 | Appends the encoded operation and patches the count |
| `WriteBatches.WriteBatch.Delete` | src/db/write_batch.cc:32-36 | The same for a deletion |
| `WriteBatches.WriteBatch.SetContents` | src/db/write_batch.cc:38-44 | Takes the bytes, or refuses what is shorter than a header |
| `WriteBatches.WriteBatch.Iterate` | src/db/write_batch.cc:46-84 | The loop computes the specified replay, calls and status |
| `Coding.VarintRoundTrip` | src/util/coding.cc:7-45 | Decoding an encoded number gives it back and stops at its end |
| `Coding.VarintLength` | src/util/coding.cc:7-15 | At most 5 bytes for 32 bits and 10 for 64 |
| `Coding.VarintPrefixFree` | src/util/coding.cc:7-15 | No encoding is a proper prefix of another |
| `Coding.VarintCut` | src/util/coding.cc:17-45 | A cut encoding does not decode |
| `Coding.VarintDigit` | src/util/coding.cc:7-15 | Byte k of an encoding holds the k-th digit to base 128, all but the last marked |
| `Coding.GetVarintTooLong` | src/util/coding.cc:17-45 | Five marked bytes are no 32-bit number, ten no 64-bit one |
| `Coding.GetVarint32Of` | src/util/coding.cc:66-72 | Decoding leaves exactly the trailing bytes, 32 bits |
| `Coding.GetVarint64Of` | src/util/coding.cc:74-80 | Decoding leaves exactly the trailing bytes, 64 bits |
| `Coding.PrefixedRoundTrip` | src/util/coding.cc:61-90 | A length-prefixed string decodes to itself and leaves what follows |
| `Coding.PrefixedCut` | src/util/coding.cc:82-90 | A cut one does not decode |
| `Coding.EncodeVarint` | src/util/coding.cc:7-15 | The loop computes the specified encoding |
| `Coding.ReadVarint` | src/util/coding.cc:17-45 | The shifting loop computes the specified decoding |
| `Coding.FixedRoundTrip` | src/util/coding.h:22-52 | Decoding the fixed little-endian encoding gives the number modulo its width |
| `Coding.FixedDigit` | src/util/coding.h:22-34 | Byte k of a fixed encoding holds the k-th digit to base 256 |
| `Coding.EncodeFixed` | src/util/coding.h:22-34 | The byte loop writes the specified encoding and nothing else |
| `Coding.DecodeFixed` | src/util/coding.h:36-52 | The byte loop computes the specified number |
| `Coding.FixedHalves` | src/table/format.cc:26-30 | Writing two 32-bit halves is writing the 64-bit number |
| `Crc32cFast.ExtendSliced` | src/util/crc32c.cc:40-58 | Slicing by four equals the bit-serial definition (section 12.1 of RFC 3720), for every seed and every byte string |
| `Crc32cPolynomials.ValueIsRemainder` | src/util/crc32c.cc:9-58 | The checksum's bits are the complement of the remainder that 0x11EDC6F41 leaves, over the field of two elements, of the message with its first 32 bits complemented and 32 zeros behind it (section 12.1 of RFC 3720) |
| `Crc32cPolynomials.ExtendIsRemainder` | src/util/crc32c.cc:40-58 | The same for any checksum to continue from |
| `Crc32cPolynomials.DivisionTheorem` | src/util/crc32c.cc:12-19 | That remainder is what is left of the dividend beside a multiple of the divisor |
| `Crc32cFast.BuildTables` | src/util/crc32c.cc:12-31 | The table loops give, at level l and index x, l + 1 byte steps from x |
| `Crc32c.ExtendSplit` | src/util/crc32c.cc:40-58 | Extending in two parts is extending by the whole |
| `Crc32c.ByteStepLinear` | src/util/crc32c.cc:15-30 | A byte step is linear over exclusive or |
| `Crc32c.MaskRoundTrip` | src/util/crc32c.h:16-23 | Masking and unmasking undo each other |
| `Crc32c.MaskIs` | src/util/crc32c.h:16-23 | Masking rotates by 15 bits and adds 0xa282ead8 |
| `Crc32cSums.UnmaskedCheck` | src/table/format.cc:90-94 | Unmasking and comparing decides what comparing masked values decides |
| `Crc32cSums.MaskedSumIs` | src/db/log_writer.cc:62-64 | Summing type byte and payload in two calls is summing them as one string |
| `Crc32cSums.Compute` | src/db/log_writer.cc:62-64 | The stored checksum is the masked CRC of type byte and payload |
| `Arenas.CallsSound` | src/util/arena.cc:16-60 | Over any interleaving of plain and aligned calls the ranges handed out are one per call, of its size, pairwise disjoint, each inside one owned block |
| `Arenas.AlignedResult` | src/util/arena.cc:36-53 | An aligned result is 8-aligned, provided blocks start aligned, and from the current block less than eight bytes are skipped for it |
| `Arenas.AlignedUsage` | src/util/arena.cc:36-53 | Over aligned calls alone, memory usage is the sum of the sizes asked for |
| `Arenas.PlainUsage` | src/util/arena.cc:16-34 | Over plain calls alone, three times the memory used is at most four times what was asked for and four times what the current block has left, which is at most 4096 |
| `Arenas.OneBlock` | src/util/arena.cc:16-34 | Plain calls of up to 1024 bytes each and 4096 in all share one block of 4096 |
| `Arenas.Arena.Allocate` | src/util/arena.cc:16-34 | The fields advance as specified, and memory usage stays the sum of the block sizes |
| `Arenas.Arena.AllocateAligned` | src/util/arena.cc:36-53 | The same for an aligned request |

## Left out

- Databases.DB.Put: promises the map's change only of a write that fits (lengths below 2^32, sequence numbers within 56 bits, and with a flush a table within the format's sizes), because beyond that the formats truncate silently; `DbImpl.DBImpl.Put` says what happens then, and `Histories.RoomFits` that a memtable of up to a gigabyte fits.
- Databases.DB.Delete: the same.
- Histories.HistoryOp: the same.
- MemTables.MemTable.ApproximateMemoryUsage: a node's size is that of a 64-bit host, 128 bytes.
- DbSteps.CommitIsPath: asks that the batch's lengths and numbers fit.
- DbSteps.FlushTakesSteps: asks that the table fits. The builder's output reaches the temporary file at once here, while the machine also allows any prefix of it.
- DbImpl.DBImpl.Init: the listing is a parameter, any order of files with equal numbers being allowed; after a failure only success, directory and trail are specified, as the object is then deleted.
- BlockProofs.SeekLands: blocks are assumed builder-made, because `DecodeEntry` does not check lengths against the block (src/table/block.cc:41-45); such entries decode to nothing here, and `count * 4` does not wrap.
- TableLookup.SmallTableExact: an exact condition per table only for one block and one restart interval, because in larger tables the outcome depends on which restart points the binary search visits; `TablesExact` is exact over all tables of a key set.
- TableLookup.TablesExact: asks that the table of one version of each of two keys fits the format, as it does for any keys a table can hold.
- ByteCondition.RunsExact: asks that up to two writes of the keys fit a table, because keys beyond the format's lengths cannot be written at all; `ShortKeysStorable` meets it.
- WriteBatches.WriteBatch.Iterate: collects the handler's calls in order instead of calling a handler; the memtable is the only handler, and `DbReplay.InsertAll` makes the calls.
- LogResync.AnyDamageDrops: damage that leaves every fragment good is not detectable and not covered.
- Arenas.Arena.Allocate: a new block's address is a parameter with the system's promise that it overlaps no owned block; in the skip list, which holds its arena's fields by value, `Arenas.SystemBlock` stands for the system. Sizes are unbounded.
- The iterator's `restart_index_` (src/table/block.cc:104-107), which is written and never read.
- The final `remove_prefix` of the footer (src/table/format.cc:43), which asks for more than remains; only the two handles are modelled.
- The entries of the memtable are values; their bytes in the arena are modelled by the arena alone. Each node's link array is one sequence-valued field.
- `|=` on disjoint bits is written as addition, shifts as multiplication and division; slicing by four assumes a little-endian host, as the code does.
- File handles, directory scanning, `mkdir`, `fseek`, buffering: bytes count as durable once they are in the file; rename, remove and truncate are single steps.
- Failures of file operations that do not end the process: treated as crashes; a table that does not open is not one of them.
- Mutexes and memory orders: every public operation holds one lock, so operations are sequential.
- Status texts, file-name printing and parsing, `hash.h`, examples and build files.
