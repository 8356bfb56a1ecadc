# hashdb: a verified model

hashdb keeps a database of block hashes on top of LMDB: which blocks occur in which source
files, and how often. This project models its core in Dafny and proves the properties the
rest of the program relies on.

| File | What it models |
|---|---|
| `ByteStrings`, `Varint` | byte strings in LMDB's order; the base-128 codec for 64-bit numbers (Protocol Buffers Encoding, "Base 128 Varints"; unsigned LEB128, section 7.6 of DWARF 4) |
| `HashDataRecords` | the byte layout of the Type 1, 2 and 3 records of the hash data store |
| `Lmdb` | the documented contracts of an LMDB transaction with sorted duplicates and one cursor |
| `HashDataModel`, `HashDataRepresentation`, `HashDataManager` | the hash data store: a simple map, what it means for sorted records to represent it, and `insert`, `merge`, `find`, `find_count`, `first_hash`, `next_hash` on the records, proved to refine the map |
| `HashDataRuns`, `HashDataEndToEnd`, `MapSums` | what any run of inserts and merges amounts to, and reading it back from the bytes |
| `MidlSort`, `MidlLists` | LMDB's id lists: the explicit-stack quicksort, the in-place merge, search and insert |
| `HashFilter` | the one-byte approximate count and the store keyed by seven-byte prefixes |
| `Sources`, `SourceStores` | the source id store and the source data store with its length-prefixed records |
| `ImportManager`, `ScanManager`, `ImportRun` | import calls of any number of threads interleaved over the stores, what `find_hash` makes of them, and both run on the byte stores |
| `ImportCalls`, `ImportEntries`, `ImportResults` | no call lost and none done twice; what a find returns, said of the calls that were made |
| `IngestBuffers` | cutting a file into overlapping buffers, hashing blocks and files |
| `IngestTallies` | the counts and insertions of one pass, on the bytes of the file |
| `IngestObjects`, `IngestPipeline`, `IngestSafety`, `IngestCoverage`, `IngestRun`, `IngestCounts`, `IngestInserts` | job queue, source tracker, producer and workers as interleaved critical sections; the same on the shared objects; what is stored in the end and what is not, and which blocks are inserted |
| `Databases`, `Copying`, `SetOperations`, `SetResults` | whole databases and the add, intersect and subtract commands over them |
| `DatabaseStates`, `DatabaseStores` | how databases stand to the stores; reading calls and whole commands on the byte stores |
| `AddMultiple` | the k-way merge of `add_multiple` |
| `Crc32` | table-driven CRC-32 against bitwise division (section 8 of RFC 1952) |
| `Utf8`, `Utf16` | the text codecs (sections 3 and 4 of RFC 3629; sections 2.1 and 2.2 of RFC 2781) |

`dafny verify dfyconfig.toml` checks all of it.

## How to read it

Code that changes things step by step is written as methods over arrays, classes and loops,
each proved against a function of the old state; the properties are then proved about those
functions. Threads are a state machine whose steps are the code's critical sections, and a
safety property is a lemma over every sequence of steps. Some big definitions are sealed
behind a quantifier over a small enumeration (`Inv`, `Seal`), so that a proof opens only the
parts it names.

MD5 is an injective stand-in: a hash is represented by the bytes it is fed. Ghost arguments of
decoders and cursor walks only say what the bytes at hand were written from.

## Where the code and its documentation part

- `lmdb_hash_data_manager.hpp:44` promises that counts clip at 0xffffffff. They are read back
  through a signed shift (`lmdb_hash_data_support.cpp:104-107`) and added in 64 bits before the
  comparison (`lmdb_hash_data_manager.hpp:97-99`), so a count of 2^31 or more reads back
  sign-extended and can reset to zero. `HashDataRuns.ClipsAsDocumented` gives the exact condition,
  `HashDataRuns.CountCanReset` three calls that break it.
- `process_job.cpp:126` means to skip blocks whose bytes are all the same. The test at
  `process_job.cpp:61-73` looks for zeros and never looks at the first byte. The model follows
  the code: a block is skipped when all bytes but the first are zero.
- A merged sub-count of 0 is written to the prefix filter as the code for absent, so it hides
  the stored hashes with that prefix until a later call with a count writes it again
  (`ScanManager.ZeroMergeHides`). `ScanManager.FoundByLastWrite` says for every run exactly
  which hashes are found; `ScanManager.FilterHidesNothing` is the promise for sub-counts of at
  least 1.
- `libhashdb.cpp:300-305` writes a blank data record at the end of the call that finds a source new.
  A call on the same source that inserts its data in between has it overwritten
  (`ImportCalls.DataIsLost`). `ImportCalls.DataKeptExactly` says for every run when the data stays.
- `intersect_hash` asks the second database through the prefix filter, `subtract_hash` asks for
  the count alone. They split the hashes exactly when those two agree
  (`SetResults.HashesSplitExactly`, `SetResults.HashesNotSplit`).
- A source can be without a name, since `merge_hash` and `insert_hash` give it none. `add` and
  `add_range` abort when they come to copy one (`adder.hpp:94-102`), so they require names
  (`SetOperations.NamedFor`). The repository commands pass it over and copy none of its triples
  (`SetResults.RepositoriesCover`). The commands of `adder_set.hpp` copy it like any other.
- The encoding shown at `lmdb_hash_manager.hpp:25-53` computes on unbounded numbers, where no count
  is over-reported. The code's bias of 5 wraps at 64 bits, so that the counts from 2^64 - 5 to
  2^64 - 2 are reported as 2^64 - 1 (`HashFilter.OverReportsExactly`), and the store can hand such
  a count over (`ScanManager.FilterOverReports`). Beyond an exponent of 15 the codes do not follow
  the counts (`HashFilter.CodeOrder`, `HashFilter.CodeFalls`).
- A step size that does not divide 2^24 restarts the block grid at every buffer, and a block
  longer than 2^20 bytes and one step is cut short at the end of a buffer
  (`IngestBuffers.OnePassExactly`, `IngestBuffers.GridKeptExactly`).
- On a text cut off within a character the UTF-8 macros read on past the terminating zero. The
  verdict does not depend on what they find there (`Utf8.BehindTerminator`), but the position
  they leave does pass it, exactly in the cases of `Utf8.ReadsPastTerminator`.

## Model

| member | source | states |
|---|---|---|
| `Varint.EncodeUint64` | src_libhashdb/lmdb_helper.cpp:94-160 | Writes the base-128 encoding of any 64-bit value at the pointer, from the last byte to the first over the three 28-bit pieces; leaves every other byte alone; returns the pointer past it. |
| `Varint.WriteGroups` | src_libhashdb/lmdb_helper.cpp:98-160 | The fall-through from label `size` down: every group of every piece in its byte, the high bit cleared on the last one only. |
| `Varint.WrittenIsEncoding` | src_libhashdb/lmdb_helper.cpp:98-160 | What the unrolled writer leaves, taken from three truncated 28-bit pieces, is the recursive base-128 encoding. |
| `Varint.DecodeUint64` | src_libhashdb/lmdb_helper.cpp:166-196 | Stops at the first byte without a continuation bit, within ten bytes, and returns the base-128 value of the bytes read, modulo 2^64. |
| `Varint.ReadPart` | src_libhashdb/lmdb_helper.cpp:166-196 | Up to four unrolled reads yield the base-128 value of exactly the bytes consumed, and report whether the last asks for more. |
| `Varint.ReadsBackEncoded` | src_libhashdb/lmdb_helper.cpp:94-196 | Round trip: wherever the encoding of a 64-bit value stands, whatever follows it, the reader consumes exactly the bytes the encoder wrote and returns the value. |
| `Varint.EncodedIsReadable` | src_libhashdb/lmdb_helper.cpp:166-196 | An encoding never reaches the reader's abort: one of ten bytes ends it. |
| `Varint.PrefixFree` | src_libhashdb/lmdb_helper.cpp:94-160 | No encoding is a prefix of another, whatever follows either. |
| `Varint.LengthIsLeast` | src_libhashdb/lmdb_helper.cpp:94-160 | The encoding has at most k bytes exactly when k groups hold the value. |
| `Varint.EncodingMinimal` | src_libhashdb/lmdb_helper.cpp:94-160 | No other byte string of the same base-128 value is shorter. |
| `Varint.EncodingLength` | src_libhashdb/lmdb_helper.cpp:94-160 | The length by size of the value, one to ten bytes. |
| `Varint.FirstByteNonZero` | src_libhashdb/lmdb_helper.cpp:94-160 | The first byte is zero for the value 0 alone, which is what tells Type 2 records from the others. |
| `HashDataRecords.Get2OfPut2` | src_libhashdb/lmdb_hash_data_support.cpp:80-92 | A two-byte field reads back as the value clipped at 65535. |
| `HashDataRecords.Get4OfPut4` | src_libhashdb/lmdb_hash_data_support.cpp:93-107 | A four-byte count reads back clipped at 0xffffffff and then sign-extended from 32 to 64 bits, because the reader shifts a promoted signed int. |
| `HashDataRecords.FourByteCountExact` | src_libhashdb/lmdb_hash_data_support.cpp:93-107 | A count survives the four bytes exactly when it is below 2^31 or is 2^64 - 1, which is clipped and then sign-extended back to itself. |
| `HashDataRecords.LayoutExamples` | src_libhashdb/lmdb_hash_data_support.cpp:110-215 | The bytes of one record of each type, and of a padded and an unpadded Type 1 record. |
| `HashDataRecords.Type2FitsType1` | src_libhashdb/lmdb_hash_data_support.cpp:110-193 | The Type 2 record of a hash always fits in its Type 1 slot, and with a label of up to ten bytes both fit in 33 bytes. |
| `HashDataRecords.PaddingIsNeeded` | src_libhashdb/lmdb_hash_data_support.cpp:138-147 | Without the padding bytes the slot is large enough exactly when the source id is at least 0x4000. |
| `HashDataRecords.FirstByte` | src_libhashdb/lmdb_hash_data_manager.hpp:38-43 | The first byte tells a Type 2 record from Types 1 and 3. |
| `HashDataRecords.Type3Order` | src_libhashdb/lmdb_hash_data_support.cpp:196-215 | Type 3 records of distinct sources compare by source id alone: a new sub-count never moves a record. |
| `HashDataRecords.Type3Injective` | src_libhashdb/lmdb_hash_data_support.cpp:196-215 | Equal Type 3 records have the same source id and the same clipped sub-count. |
| `HashDataRecords.EncodeType1` | src_libhashdb/lmdb_hash_data_support.cpp:110-155 | Fills the buffer with the source id, clipped sub-count, entropy, label and padding. |
| `HashDataRecords.EncodeType2` | src_libhashdb/lmdb_hash_data_support.cpp:158-193 | Fills the buffer with the zero byte, entropy, label and clipped count. |
| `HashDataRecords.EncodeType3` | src_libhashdb/lmdb_hash_data_support.cpp:196-215 | Fills the buffer with the source id and clipped sub-count. |
| `HashDataRecords.DecodeType1` | src_libhashdb/lmdb_hash_data_support.cpp:329-383 | Reads back exactly what a Type 1 record was written from, with the sub-count clipped. |
| `HashDataRecords.DecodeType2` | src_libhashdb/lmdb_hash_data_support.cpp:386-427 | Reads back what a Type 2 record was written from, whatever stale bytes trail it, with the count clipped and sign-extended. |
| `HashDataRecords.DecodeType3` | src_libhashdb/lmdb_hash_data_support.cpp:430-454 | Reads back what a Type 3 record was written from. |
| `Lmdb.Context.SetKey` | src_libhashdb/liblmdb/lmdb.h:385-385 | Stands on the first pair of a key, or reports that no pair has the key. |
| `Lmdb.Context.NextDup` | src_libhashdb/liblmdb/lmdb.h:374-374 | Steps to the next pair of the same key, if there is one. |
| `Lmdb.Context.NextNoDup` | src_libhashdb/liblmdb/lmdb.h:379-379 | Steps to the first pair of the next key, past all pairs of this one. |
| `Lmdb.Context.PutNoDupData` | src_libhashdb/liblmdb/lmdb.h:1452-1456 | Adds the pair at its sorted place unless the very pair is there; key and data must be within the documented limits (lmdb.h:247, 887). |
| `Lmdb.Context.PutCurrent` | src_libhashdb/liblmdb/lmdb.h:1446-1451 | Replaces the current pair by one of the same key and size that sorts into the same place; callers must establish both. |
| `Lmdb.InsertedSorted` | src_libhashdb/liblmdb/lmdb.h:1188-1198 | Inserting at the lower bound keeps keys and duplicates in lexicographic order and adds exactly that pair. |
| `Lmdb.KeyContiguous` | src_libhashdb/liblmdb/lmdb.h:1168-1198 | Pairs of one key stand together. |
| `HashDataRepresentation.FirstRecord` | src_libhashdb/lmdb_hash_data_manager.hpp:38-43 | The first record under a hash is its only Type 1 record when the hash has one source, and its Type 2 record when it has several. |
| `HashDataRepresentation.HeaderIsFirst` | src_libhashdb/lmdb_hash_data_manager.hpp:40-41 | The Type 2 record sorts before all Type 3 records of its hash. |
| `HashDataRepresentation.OnlyRecordFits` | src_libhashdb/lmdb_hash_data_support.cpp:244-281 | A rewrite of the only record of a hash keeps its sort place, whatever it becomes. |
| `HashDataRepresentation.HeaderFits` | src_libhashdb/lmdb_hash_data_support.cpp:244-281 | A rewrite of a Type 2 record, whatever its trailing bytes, keeps its sort place. |
| `HashDataRepresentation.Type3Fits` | src_libhashdb/lmdb_hash_data_support.cpp:244-281 | A rewrite of a Type 3 record with a new sub-count keeps its sort place. |
| `HashDataRepresentation.Update` | src_libhashdb/lmdb_hash_data_manager.hpp:161-315 | Changing one hash's records to those of a new entry changes the represented map at that hash alone: each key holds one Type 1 record, or one Type 2 record and Type 3 records of two or more distinct sources. |
| `HashDataRepresentation.HasKeyIsInModel` | src_libhashdb/lmdb_hash_data_manager.hpp:507-634 | The records under a key are exactly those of the map's entry; a key without records is not in the map. |
| `HashDataManager.ReplaceRecord` | src_libhashdb/lmdb_hash_data_support.cpp:244-281 | Overwrites the record at the cursor in place; the record keeps its size, so bytes past the encoding are whatever the buffer held. |
| `HashDataManager.ReplaceType2` | src_libhashdb/lmdb_hash_data_support.cpp:511-525 | A Type 2 record over a Type 1 or Type 2 slot of at least its size; order is kept. |
| `HashDataManager.CursorToType3` | src_libhashdb/lmdb_hash_data_support.cpp:297-326 | Finds the Type 3 record of a source among a hash's records exactly when the hash has that source; otherwise the cursor is back on the Type 2 record. |
| `HashDataManager.SplitType1` | src_libhashdb/lmdb_hash_data_manager.hpp:255-263 | A second source turns the Type 1 slot into a Type 2 record and adds two Type 3 records: the records of the entry with both sources. |
| `HashDataManager.InsertIntoType1` | src_libhashdb/lmdb_hash_data_manager.hpp:230-263 | Insert over a Type 1 record leaves the records of the incremented entry, first writer's entropy and label kept, and counts a mismatch. |
| `HashDataManager.InsertIntoType2` | src_libhashdb/lmdb_hash_data_manager.hpp:265-297 | Insert over a Type 2 record leaves the records of the incremented entry, with the header's count added to and the source's sub-count clipped. |
| `HashDataManager.MergeIntoType1` | src_libhashdb/lmdb_hash_data_manager.hpp:396-437 | Merge over a Type 1 record: a source already there changes nothing but the counters; another one is added. |
| `HashDataManager.MergeIntoType2` | src_libhashdb/lmdb_hash_data_manager.hpp:439-483 | Merge over a Type 2 record, likewise. |
| `HashDataManager.MergeNewType3` | src_libhashdb/lmdb_hash_data_manager.hpp:469-482 | Back to the header, its count rewritten, then the new source's record added. |
| `HashDataManager.ReadType3s` | src_libhashdb/lmdb_hash_data_manager.hpp:586-619 | Walking from the Type 2 record with MDB_NEXT while the key stays collects exactly the hash's sources and sub-counts. |
| `HashDataManager.HashDataManager.Insert` | src_libhashdb/lmdb_hash_data_manager.hpp:161-315 | Refinement: on the represented map, insert adds or increments the entry of that hash only, returns the new count, and bumps exactly the right change counters; an empty hash changes nothing. |
| `HashDataManager.HashDataManager.Merge` | src_libhashdb/lmdb_hash_data_manager.hpp:324-498 | Refinement: merge adds the source with its clipped sub-count unless it is there, in which case the map does not change; it returns the count then on record, for a source already there as read back from its four bytes. |
| `HashDataManager.HashDataManager.Find` | src_libhashdb/lmdb_hash_data_manager.hpp:507-634 | Returns exactly the map's entry, or false and blank fields. |
| `HashDataManager.HashDataManager.FindCount` | src_libhashdb/lmdb_hash_data_manager.hpp:642-709 | Returns the count that Find returns, and 0 for an absent hash. |
| `HashDataManager.HashDataManager.FirstHash` | src_libhashdb/lmdb_hash_data_manager.hpp:717-748 | Returns the least hash of the map, or nothing for the empty map. |
| `HashDataManager.HashDataManager.NextHash` | src_libhashdb/lmdb_hash_data_manager.hpp:756-815 | Returns the least hash after a present one, with none in between, or nothing. |
| `HashDataRuns.SubCountsOfRun` | src_libhashdb/lmdb_hash_data_manager.hpp:94-96 | After any run of inserts and merges a hash is present exactly when some call named it, its sources are those named, and each sub-count is the ideal count clipped at 65535. |
| `HashDataRuns.FirstWriterWins` | src_libhashdb/lmdb_hash_data_manager.hpp:161-315 | In every run the first call that names a hash fixes its entropy and its label: of that call's label the first ten bytes are kept, or all of a shorter one. |
| `HashDataRuns.MismatchIsDifference` | src_libhashdb/lmdb_hash_data_manager.hpp:78-92 | What the store compares with on record is what the first writer of the hash brought: a call is a mismatch exactly when its entropy or the first ten bytes of its label differ from the first writer's. |
| `HashDataRuns.CountBetweenSumAndTotal` | src_libhashdb/lmdb_hash_data_manager.hpp:249-296 | While the inserts plus merged sub-counts of a hash stay below 2^31, its stored count is at least the sum of its sub-counts and at most that total, clipped or not. |
| `HashDataRuns.CountIsExact` | src_libhashdb/lmdb_hash_data_manager.hpp:427-482 | If moreover no source of the hash passes 65535, the count equals the sum of the sub-counts and equals the inserts plus merged sub-counts. |
| `HashDataRuns.ClipsAsDocumented` | src_libhashdb/lmdb_hash_data_manager.hpp:94-99 | A stored count plus an addend clips at 0xffffffff, as documented, if and only if 64 bits do not overflow, for a count below 2^31; for a greater one, if and only if the sum is exactly 0xffffffff or at least 0x1ffffffff. |
| `HashDataRuns.CountCanReset` | src_libhashdb/lmdb_hash_data_manager.hpp:97-99 | Three concrete calls after which the count is 0 although the entry cites two sources. |
| `HashDataEndToEnd.Replay` | src_libhashdb/lmdb_hash_data_manager.hpp:161-498 | Running any sequence of accepted calls on the byte store leaves exactly the map of the simple model, and every change counter is the number of calls of its kind. |
| `HashDataEndToEnd.FindAfterRun` | src_libhashdb/lmdb_hash_data_manager.hpp:507-709 | After any run, find on the bytes returns what the calls amount to: the first writer's entropy and its label, of which it is the first ten bytes or all; each source's count clipped at 65535; and a count between the sum of the sub-counts and the total, equal to both when nothing clips. find_count returns the same count. |
| `MidlSort.Sort` | src_libhashdb/liblmdb/midl.c:219-278 | Leaves any list of up to 2^30 ids in descending order and a rearrangement of what it was; every index, the explicit stack included, stays in range. |
| `MidlSort.SortLeaves` | src_libhashdb/liblmdb/midl.c:219-278 | What Sort leaves, spelled out: a larger id never stands behind a smaller one, each id stands as often as before, and nothing behind the list has moved. |
| `MidlSort.InsertionSort` | src_libhashdb/liblmdb/midl.c:232-240 | Sorts a small segment although its scan is not stopped at the segment's start: larger ids before it stop it. |
| `MidlSort.ShiftUp` | src_libhashdb/liblmdb/midl.c:235-238 | The inner scan stops inside the segment and moves exactly the smaller ids up by one. |
| `MidlSort.MedianOfThree` | src_libhashdb/liblmdb/midl.c:245-255 | The median of left, centre and right lands at l + 1 between its neighbours. |
| `MidlSort.Scan` | src_libhashdb/liblmdb/midl.c:256-264 | Both scans run without a bound test and stay inside the segment; what they leave is split around the pivot. |
| `MidlSort.Partition` | src_libhashdb/liblmdb/midl.c:244-266 | One partition: pivot in place, larger ids before it, smaller ones after. |
| `MidlSort.RoomToPush` | src_libhashdb/liblmdb/midl.c:222-223 | With the larger side pushed each time, the explicit stack never passes its 64 slots for lists of up to 2^30 ids. |
| `MidlSort.SplitNext` | src_libhashdb/liblmdb/midl.c:243-276 | A splitting round keeps the invariant that only pending segments are unsorted, each at most half of the one before, and gets closer to the end. |
| `MidlSort.FinishSegment` | src_libhashdb/liblmdb/midl.c:231-242 | A small-segment round sorts the current segment and takes up the last one pushed, or the whole list is in order. |
| `MidlLists.XMerge` | src_libhashdb/liblmdb/midl.c:200-212 | Merges backward in place: the list becomes the merge of both, nothing behind it changes, and no unread id is overwritten. |
| `MidlLists.MergeDescends` | src_libhashdb/liblmdb/midl.c:200-212 | The merge of descending lists is descending. |
| `MidlLists.MergeKeepsIds` | src_libhashdb/liblmdb/midl.c:200-212 | The merge holds exactly the ids of both lists, as a multiset. |
| `MidlLists.MoveSmaller` | src_libhashdb/liblmdb/midl.c:206-208 | The inner scan, stopped by the delimiter in slot 0, moves each smaller id to a slot above every unread one. |
| `MidlLists.Search` | src_libhashdb/liblmdb/midl.c:33-66 | In a strictly descending list, returns the first position not greater than the id. |
| `MidlLists.Search2` | src_libhashdb/liblmdb/midl.c:280-313 | In a strictly ascending list, returns the first position not less than the id. |
| `MidlLists.Insert2` | src_libhashdb/liblmdb/midl.c:315-344 | -1 for an id that is there, -2 for a full list, neither changing anything; else the list stays strictly ascending and gains exactly the new pair. |
| `HashFilter.CountToByte` | src_libhashdb/lmdb_hash_manager.hpp:101-114 | The loop computes the code: exponent capped at 15, mantissa less 4 in the low nibble. |
| `HashFilter.RepeatedDivision` | src_libhashdb/lmdb_hash_manager.hpp:104-107 | Dividing by 5 again and again is one division by the power of 5. |
| `HashFilter.MantissaRange` | src_libhashdb/lmdb_hash_manager.hpp:108-113 | The mantissa always fits its nibble. |
| `HashFilter.CodeMonotone` | src_libhashdb/lmdb_hash_manager.hpp:101-123 | Greater counts never get smaller codes, as long as the exponent stays within 15. |
| `HashFilter.CodeOrder` | src_libhashdb/lmdb_hash_manager.hpp:101-114 | Beyond that the code caps the exponent and not the mantissa: of two counts the greater has the code not less if and only if its exponent is within 15, or the other one's is below 15, or the mantissas are in order; a count from 2^64 - 5 up, whose bias wraps, has the least code of all. |
| `HashFilter.CodeFalls` | src_libhashdb/lmdb_hash_manager.hpp:101-114 | The codes do fall where the cap sets in: 19 * 5^15 - 5 has the code 255 and 20 * 5^15 - 5 the code 240. |
| `HashFilter.ZeroByte` | src_libhashdb/lmdb_hash_manager.hpp:101-114 | The code 0 belongs to exactly the five counts whose bias wraps. |
| `HashFilter.OverReportsExactly` | src_libhashdb/lmdb_hash_manager.hpp:101-123 | For every 64-bit count: the decoded count is more than the count if and only if the count is one of 2^64 - 5 to 2^64 - 2, and 4 * (count + 5) < 5 * (decoded + 5) if and only if the bias wraps or the exponent stays within 15. |
| `HashFilter.SmallCountsExact` | src_libhashdb/lmdb_hash_manager.hpp:101-123 | Counts up to 14 come back exactly; every 32-bit count has an exponent within 15. |
| `HashFilter.ZeroCode` | src_libhashdb/lmdb_hash_manager.hpp:101-123 | Only a count of 0 decodes to 0, however large the count. |
| `HashFilter.PrefixIsSevenBytes` | src_libhashdb/lmdb_hash_manager.hpp:161-163 | Two hashes share a byte of the filter exactly when they are equal, or both have seven bytes or more and agree on the first seven. |
| `HashFilter.HashManager.Insert` | src_libhashdb/lmdb_hash_manager.hpp:143-259 | Sets the approximate count of every hash that shares its byte with the given one, that is of the hash itself and of those with the same first seven bytes, and of no other; counts the call as inserted, changed or not changed; the hash then reads as absent exactly when the count was 0. |
| `HashFilter.HashManager.Find` | src_libhashdb/lmdb_hash_manager.hpp:264-333 | The decoded byte of the hash's first seven bytes, 0 when there is none. |
| `SourceStores.WriteRecord` | src_libhashdb/lmdb_source_data_manager.hpp:119-132 | Fills a buffer of the two string lengths plus 40 bytes with the length-prefixed record. |
| `SourceStores.RecordFits` | src_libhashdb/lmdb_source_data_manager.hpp:119-132 | Those 40 bytes hold all five numbers, for any counts, when both strings are shorter than 2^35 bytes. |
| `SourceStores.ReadRecord` | src_libhashdb/lmdb_source_data_manager.hpp:235-268 | Round trip: reading a record gives back what it was written from and ends exactly at its end, so the decode check cannot fail. |
| `SourceStores.RecordInjective` | src_libhashdb/lmdb_source_data_manager.hpp:167-172 | Comparing record bytes is comparing source data. |
| `SourceStores.RecordLayout` | src_libhashdb/lmdb_source_data_manager.hpp:120-133 | The bytes of one source data record. |
| `SourceStores.SourceDataManager.Insert` | src_libhashdb/lmdb_source_data_manager.hpp:94-199 | Sets the data of one source id and counts it as inserted, same or changed. |
| `SourceStores.SourceDataManager.Find` | src_libhashdb/lmdb_source_data_manager.hpp:206-289 | Returns the data last inserted for the id, or false and blank fields. |
| `SourceStores.SourceIdManager.Insert` | src_libhashdb/lmdb_source_id_manager.hpp:92-175 | A known file hash keeps its id; a new one gets the store's size plus one; an empty one leaves the caller's value. |
| `SourceStores.SourceIdManager.FirstSource` | src_libhashdb/lmdb_source_id_manager.hpp:240-271 | The least file hash, or nothing when there is none. |
| `SourceStores.SourceIdManager.NextSource` | src_libhashdb/lmdb_source_id_manager.hpp:276-334 | The least greater file hash; nothing at the end or for an unknown file hash. |
| `SourceStores.SourceIdManager.AllSources` | src/adder.hpp:59-65 | The loop over first_source and next_source ends with exactly the file hashes of the store. |
| `SourceStores.SourceIdManager.Find` | src_libhashdb/lmdb_source_id_manager.hpp:180-235 | The id on record, or 0; an empty file hash leaves the caller's value. |
| `ImportManager.NextKeeps` | src_libhashdb/libhashdb.cpp:286-391 | Every store operation of every thread keeps the cross-store invariant. |
| `ImportManager.ReachedOk` | src_libhashdb/libhashdb.cpp:286-391 | So it holds in every state that any interleaving of import calls by any number of threads reaches: ids are 1..n with one file hash each, records carry their id's file hash, entries are what the hash calls so far amount to, and what is missing some running call still owes. |
| `ImportManager.WithIdDense` | src_libhashdb/lmdb_source_id_manager.hpp:136-140 | Taking the store's size plus one as the new id keeps ids exactly 1..n and one to one. |
| `ScanManager.RecordsComplete` | src_libhashdb/libhashdb.cpp:286-391 | Whenever no import call is in progress, every id has a source data record with its own file hash, and there are no others. |
| `ScanManager.CitedSourcesKnown` | src_libhashdb/libhashdb.cpp:788-803 | Then every id that a hash record cites has a source data record. |
| `ScanManager.NoSourceCollapses` | src_libhashdb/libhashdb.cpp:806-808 | No two sources of a hash collapse into one in the result, although it is keyed by file hash. |
| `ScanManager.HiddenOnlyByZero` | src_libhashdb/libhashdb.cpp:768-772 | At rest a stored hash is missed exactly when the filter's byte decodes to 0, and only if some call on that prefix left a stored count of 0. |
| `ScanManager.FilterIsLastWrite` | src_libhashdb/lmdb_hash_manager.hpp:143-259 | In every reachable state the approximate count of a hash is that of the latest count that a call carried for it or for a hash with its first seven bytes. |
| `ScanManager.FoundByLastWrite` | src_libhashdb/libhashdb.cpp:768-772 | At rest, for every run: a stored hash is found if and only if the latest call to write the filter for its first seven bytes carried a count other than 0. |
| `ScanManager.ReportAtRest` | src_libhashdb/libhashdb.cpp:750-815 | What find_hash makes of the stores at rest never is a failure, and is the exact entry. |
| `ScanManager.OrdinaryNeverZeroes` | src_libhashdb/lmdb_hash_data_manager.hpp:94-99 | Positive sub-counts and totals below 2^31 never leave a stored count of 0. |
| `ScanManager.FilterHidesNothing` | src_libhashdb/lmdb_hash_manager.hpp:143-333 | No false negative: with sub-counts of at least 1 and fewer than 2^31 counts of any hash, at rest find_hash finds a hash exactly when the hash data store holds it, prefix collisions or not. |
| `ScanManager.ZeroMergeHides` | src_libhashdb/libhashdb.cpp:358-391 | A merged sub-count of 0 hides even another hash that was stored before, if both have at least seven bytes and agree on the first seven. |
| `ScanManager.FilterOverReports` | src_libhashdb/libhashdb.cpp:358-391 | Three merges after which the store's count is 2^64 - 5 and the filter's approximate count 2^64 - 1: merging a source that is there hands the filter the sign-extended count. |
| `ScanManager.WholeCall` | src_libhashdb/libhashdb.cpp:325-391 | A hash call that runs undisturbed takes or makes the id, folds the call into the entry and writes the filter byte. |
| `ImportRun.Stores.Step` | src_libhashdb/libhashdb.cpp:286-391 | On the byte stores: after any event the hash data store, the filter, the id store and the source data store represent the modelled next state. |
| `ImportRun.Stores.CallStore` | src_libhashdb/libhashdb.cpp:325-391 | The hash data store's insert or merge changes one entry as the model says, and the count it returns is the one that goes into the filter. |
| `ImportRun.ReturnedByMerge` | src_libhashdb/lmdb_hash_data_manager.hpp:324-498 | The count that a merge returns, a present source included, is the modelled one. |
| `ImportRun.Stores.FindHash` | src_libhashdb/libhashdb.cpp:750-815 | Asking the filter, then the hash data store, then looking each source id up: what is reported, and when the assertion fails. |
| `ImportRun.Stores.LookUpSources` | src_libhashdb/libhashdb.cpp:785-809 | The loop over source ids fails exactly when one has no record, and otherwise reports every source under its file hash. |
| `ImportRun.Replay` | src_libhashdb/libhashdb.cpp:286-391 | Any interleaving of import calls run on the byte stores leaves them representing the reached state. |
| `ImportRun.FindAfterEvents` | src_libhashdb/libhashdb.cpp:750-815 | After any interleaving of import calls on the byte stores, at rest: find_hash never fails its assertion, finds a hash exactly when it is stored and the latest write of its filter byte was not of zero, and reports exactly the entry, each source under its own file hash with its own sub-count. |
| `ImportRun.ApproximateAfterEvents` | src_libhashdb/libhashdb.cpp:922-930 | After any interleaving on the byte stores the approximate count of a hash is the decoded code of the latest count written for its first seven bytes, and 0 when there was none. |
| `ImportCalls.CallsConserved` | src_libhashdb/libhashdb.cpp:286-391 | In every reachable state the calls of any kind that have started are those that have reached their store and those still waiting to: none is lost and none done twice. |
| `ImportCalls.HistoryIsLog` | src_libhashdb/libhashdb.cpp:325-391 | The hash data store has seen exactly the hash calls, under the ids of their sources, in the order in which they reached it. |
| `ImportEntries.CountsOfLog` | src_libhashdb/libhashdb.cpp:325-391 | The store's ideal counts, by source id, are those of the calls in the order in which they reached it, by file hash: an insert once, a merge by its sub-count when it is the first call to bring the source. |
| `ImportEntries.HeadOfLog` | src_libhashdb/libhashdb.cpp:325-391 | The first call on a hash to reach the store gives its entropy and its label, of which ten bytes are kept; without such a call there is no entry. |
| `ImportEntries.TotalOfLog` | src_libhashdb/libhashdb.cpp:325-391 | The store's ideal total of a hash is that of the calls. |
| `ImportCalls.NamesAtRest` | src_libhashdb/libhashdb.cpp:286-306 | At rest a source has a name if and only if some call to give it that name started. |
| `ImportCalls.DataKeptExactly` | src_libhashdb/libhashdb.cpp:286-322 | At rest the data of a source is what the latest insert_source_data call wrote, unless at that moment another call, which had found the source new, was still to write its blank record: then the data is lost and the blank record stands. |
| `ImportCalls.NeverBroughtIsBlank` | src_libhashdb/libhashdb.cpp:300-305 | At rest a known source that no insert_source_data call brought has the blank record, all zeros and an empty file type. |
| `ImportCalls.DataIsLost` | src_libhashdb/libhashdb.cpp:286-322 | Two threads and seven steps after which the data of a completed insert_source_data call is gone. |
| `ImportResults.FindAfterCalls` | src_libhashdb/libhashdb.cpp:750-815 | End to end, from the calls to find_hash on the byte stores, for any interleaving of any import calls: a hash is found if and only if some call on it reached the store and the latest count written for its first seven bytes is not 0; entropy and label are those of the first call on it, its sources those that calls brought, with what the calls count for them, clipped at 65535, and, when none was clipped and the total is below 2^31, the total as its count. |
| `ImportResults.InsertsAfterEvents` | src_libhashdb/libhashdb.cpp:325-356 | End to end, from the calls to find_hash on the byte stores: after any interleaving of insert_hash calls and calls on sources, a hash is found if and only if some call inserted it, with exactly the sources that calls brought, each sub-count the number of those calls clipped at 65535, and, when none was clipped, the number of calls as its count. |
| `ImportResults.KnownSources` | src_libhashdb/lmdb_source_id_manager.hpp:92-175 | At rest the known sources are exactly those that some call named. |
| `ImportResults.DataAfterEvents` | src_libhashdb/libhashdb.cpp:966-1003 | End to end on the byte stores: after any interleaving a source is found if and only if some call named it, with the data that its calls amount to. |
| `DatabaseStates.MergeStands` | src_libhashdb/libhashdb.cpp:358-391 | A whole merge_hash on stores that hold a database leaves the stores holding the database that the set operations' view of merge_hash gives: hashes with counts, data and names. |
| `DatabaseStates.DataIsInserted` | src_libhashdb/libhashdb.cpp:308-322 | The same for insert_source_data. |
| `DatabaseStates.NameIsInserted` | src_libhashdb/libhashdb.cpp:286-306 | The same for insert_source_name, with the blank data record of a new source. |
| `DatabaseStates.ReportIsHashData` | src_libhashdb/libhashdb.cpp:750-815 | What find_hash reports of stores that hold a database is that database's entry, keyed by file hash, count included. |
| `DatabaseStores.StoresHoldDb` | src_libhashdb/libhashdb.cpp:286-391 | Stores with one thread and no call in progress always hold a database: every hash, source and name in them has its place in it. |
| `DatabaseStores.RestAfterEvents` | src_libhashdb/libhashdb.cpp:286-391 | Byte stores are such stores after any run of calls of one thread, whenever none is in progress. |
| `DatabaseStores.ViewIsValid` | src_libhashdb/libhashdb.cpp:750-815 | All that the commands ask of a database that they read is true of every such store: non-empty hashes with sources, labels and sub-counts within their fields, data for every cited source. |
| `DatabaseStores.FirstHash` | src_libhashdb/libhashdb.cpp:1085-1087 | On the byte stores: the first hash of the database in order. |
| `DatabaseStores.NextHash` | src_libhashdb/libhashdb.cpp:1089-1095 | On the byte stores: the hash after a given one, or nothing behind the last. |
| `DatabaseStores.FindHash` | src_libhashdb/libhashdb.cpp:750-815 | On the byte stores: finds just the database's hashes that the filter does not hide, with entropy, label, count and sub-counts by file hash; never fails. |
| `DatabaseStores.FindHashCount` | src_libhashdb/libhashdb.cpp:879-888 | On the byte stores: the count on record, hidden or not. |
| `DatabaseStores.FindSourceData` | src_libhashdb/libhashdb.cpp:966-1003 | On the byte stores: the database's data of the source, or false. |
| `DatabaseStores.FindSourceNames` | src_libhashdb/libhashdb.cpp:1005-1025 | The database's names of the source, and false when there are none. |
| `DatabaseStores.ReadDb` | src_libhashdb/libhashdb.cpp:1085-1103 | Those calls, looped from the first hash and the first source to the last, read the whole database of any stores at rest. |
| `DatabaseStores.CopiesOnStores` | src/adder.hpp:234-260 | Any sequence of copies, written call by call to stores that hold a database, leaves them holding the database that the copies make of it. |
| `DatabaseStores.RunOnStores` | src/commands.hpp:326-634 | A whole command on databases that stores show, written to stores: they hold their old triples and the chosen ones of sources that they did not know. |
| `DatabaseStores.CommandOnStores` | src/commands.hpp:326-634 | From three stores at rest to the destination at rest again, with the command's triples: commands can follow one another. |
| `IngestObjects.JobQueue.Pop` | src_libhashdb/hasher/job_queue.hpp:120-131 | Takes the job that was pushed first, or nothing. |
| `IngestObjects.IngestTracker.AddSource` | src_libhashdb/hasher/ingest_tracker.hpp:122-137 | Tracks a source that is neither preexisting nor tracked, with no part done. |
| `IngestObjects.IngestTracker.TrackSource` | src_libhashdb/hasher/ingest_tracker.hpp:139-174 | Adds one part's counts, and hands back the source exactly when all parts are done. |
| `IngestBuffers.AllZero` | src_libhashdb/hasher/process_job.cpp:61-73 | The skip test as coded, on the zero-padded block: all bytes but the first are zero. |
| `IngestBuffers.SkippedExactly` | src_libhashdb/hasher/process_job.cpp:61-73 | The blocks skipped are those of zeros, and those whose first byte alone is not zero. |
| `IngestBuffers.FirstByteIgnored` | src_libhashdb/hasher/process_job.cpp:67-67 | A block of every size that is skipped although it is not all zero. |
| `IngestBuffers.HashCalculator.Update` | src_libhashdb/hasher/hash_calculator.hpp:133-157 | Feeds the block at the offset, zero-padded past the end of the buffer. |
| `IngestBuffers.Calculate` | src_libhashdb/hasher/hash_calculator.hpp:71-112 | Hashes exactly the zero-padded block. |
| `IngestBuffers.ProcessBuffer` | src_libhashdb/hasher/process_job.cpp:122-158 | The block loop counts and inserts exactly what the list of the buffer's blocks asks for, in order. |
| `IngestTallies.TallyCounts` | src_libhashdb/hasher/process_job.cpp:119-158 | Of any list of blocks: the zero count is the number of those with only zeros from the second byte on; all others are inserted, and the nonprobative count is the number of those that have a label. |
| `IngestTallies.TallyInserts` | src_libhashdb/hasher/process_job.cpp:119-158 | What is inserted is exactly the other blocks, in their order. |
| `IngestTallies.CountsOnBytes` | src_libhashdb/hasher/process_job.cpp:119-158 | The same for one pass over a file, on its bytes: the counts are those of the places whose block, padded with zeros behind the end, is zero from its second byte on, and of the other places with a labelled block. |
| `IngestTallies.InsertsOnBytes` | src_libhashdb/hasher/process_job.cpp:119-158 | One pass inserts the block at each of the other places, place after place, and nothing else. |
| `IngestBuffers.SameBlock` | src_libhashdb/hasher/ingest.cpp:225-247 | A block that starts in a buffer's own data and ends within a full buffer is the file's block. |
| `IngestBuffers.RoomForStep` | src_libhashdb/hasher/ingest.cpp:56-57 | The last place that a dividing step visits in a part leaves room for a whole step. |
| `IngestBuffers.BuffersAreOnePass` | src_libhashdb/hasher/ingest.cpp:198-268 | If the step divides 2^24 and the block is at most 2^20 bytes and one step long, the placed, zero-padded blocks of all buffers are those of one pass over the file, each once and in order, and the jobs' counts and insertions add up to those of that pass. |
| `IngestBuffers.OnePassExactly` | src_libhashdb/hasher/ingest.cpp:198-268 | The buffers of every file are one pass over it if and only if the step divides 2^24 and the block is no longer than 2^20 bytes and one step. |
| `IngestBuffers.GridKeptExactly` | src_libhashdb/hasher/ingest.cpp:225-231 | For any step, the buffers visit the offsets of one pass if and only if the file has one part or the step divides the part size. |
| `IngestBuffers.PartFits` | src_libhashdb/hasher/ingest.cpp:185-227 | The loop over offsets pushes as many parts as were announced to the tracker. |
| `IngestBuffers.HashFile` | src_libhashdb/hasher/ingest.cpp:107-172 | The bytes fed to the file hash are the file itself, whatever its size, unless a read failed. |
| `IngestBuffers.IngestFile` | src_libhashdb/hasher/ingest.cpp:90-270 | The jobs pushed are the file's parts from the first on: all of them, or those before a part that could not be read. |
| `IngestRun.Run.Step` | src_libhashdb/hasher/threadpool.hpp:50-66 | On the objects that the threads share: after any event the job queue, the tracker, the threads and the stored records are those of the modelled next state, so every theorem about runs is about the queue and the tracker. |
| `IngestRun.Run.SendPart` | src_libhashdb/hasher/job_queue.hpp:99-118 | The second critical section of push puts the next part of the file last in the queue without another look. |
| `IngestRun.Run.AskIfDone` | src_libhashdb/hasher/threadpool.hpp:54-54 | A worker leaves its loop exactly when adding is done and the queue is empty. |
| `IngestRun.Run.TakeJob` | src_libhashdb/hasher/job_queue.hpp:120-131 | A worker gets the job pushed first, or goes back to ask. |
| `IngestRun.Run.CountPart` | src_libhashdb/hasher/ingest_tracker.hpp:139-174 | track_source called by a worker: the precondition that stands for its two assertions always holds, and the part is counted. |
| `IngestRun.Replay` | src_libhashdb/hasher/ingest.cpp:275-396 | After any run of the objects the queue is within its bound, and when all workers have exited it is empty and adding is done. |
| `IngestSafety.ReachedOk` | src_libhashdb/hasher/ingest.cpp:275-396 | The invariant of queue, tracker, workers and stored sources holds in every reachable state of every interleaving. |
| `IngestSafety.QueueBounded` | src_libhashdb/hasher/job_queue.hpp:99-131 | The queue never exceeds its maximum although check and push are separate critical sections; jobs leave in order and each goes to one worker. |
| `IngestSafety.AllJobsProcessed` | src_libhashdb/hasher/threadpool.hpp:50-104 | When all workers have exited, adding was done, the queue is empty and every pushed job was processed. |
| `IngestSafety.TrackNeverFails` | src_libhashdb/hasher/ingest_tracker.hpp:139-165 | A worker that reports a part finds its source tracked and not already done. |
| `IngestSafety.PartsHaveOneOwner` | src_libhashdb/hasher/process_job.cpp:160-163 | In every run no two workers ever hold the same part of a tracked source. |
| `IngestSafety.StoredOnce` | src_libhashdb/hasher/ingest_tracker.hpp:166-174 | A source's data is stored at most once, when complete, with zero and nonprobative counts equal to the sums over its parts, each part once. |
| `IngestSafety.StoredExactlyOnce` | src_libhashdb/hasher/ingest_tracker.hpp:122-174 | When all workers have exited, a new source was stored exactly when all its parts were handed out; that fails only for a file of which a later part could not be read. |
| `IngestCoverage.EveryFileStored` | src_libhashdb/hasher/ingest.cpp:348-382 | When all workers have exited, every file is stored, but for those that are empty, could not be opened, have a later part that could not be read, or whose source was there before. |
| `IngestCoverage.PreexistingIsNotStored` | src_libhashdb/hasher/ingest_tracker.hpp:122-137 | No source that was there before is stored again. |
| `IngestCoverage.RecursesTo7` | src_libhashdb/hasher/process_recursive.cpp:88-167 | A worker runs the uncompressed data of a job inline exactly when it is not empty and the job is less than seven levels deep; the source is then known. |
| `IngestCoverage.EveryRecursionStored` | src_libhashdb/hasher/process_recursive.cpp:82-167 | When all workers have exited, data that a worker recursed into is stored too, for the same reasons. |
| `IngestSafety.RecurseKeeps` | src_libhashdb/hasher/process_recursive.cpp:82-167 | A recursed source of one part, run inline by the worker that found it, keeps the invariant. |
| `IngestCounts.StoredCountsAreOnePass` | src_libhashdb/hasher/process_job.cpp:122-163 | Files, buffers, queue and tracker together: whatever the interleaving of workers, a stored source has its own size, and its zero and nonprobative counts are the numbers of zero and of labelled places of one pass over its bytes, whether it was a file cut into parts or uncompressed data. |
| `IngestCounts.NextMeasured` | src_libhashdb/hasher/ingest_tracker.hpp:139-174 | Every step keeps each source's books equal to the counts of the buffers reported so far. |
| `IngestInserts.StepOk` | src_libhashdb/hasher/process_job.cpp:122-163 | Every step of a worker keeps the log of insert_hash calls: no call twice, and exactly those due for parts that are reported or that a worker is beyond. |
| `IngestInserts.InsertedAreOnePass` | src_libhashdb/hasher/process_job.cpp:122-163 | Whatever the interleaving of workers and of their calls, the insert_hash calls made for a stored source are for exactly the blocks that one pass over the source inserts, each once: one call for every place whose block is not zero from its second byte on, with the bytes at that place, and none for any other. |
| `IngestInserts.SubCountsAreOnePass` | src_libhashdb/hasher/process_job.cpp:155-157 | In a hash data store that did not know the source, a stored source is cited for just the blocks at those places, and each sub-count is the number of places with that block, clipped at 65535. |
| `Databases.MergeCorresponds` | src_libhashdb/libhashdb.cpp:358-391 | The hash data store's merge by source id, seen through one-to-one ids, is merging by file hash: entropy, label, stored count and sub-counts. |
| `Databases.ScanDb.NextHash` | src_libhashdb/lmdb_hash_data_manager.hpp:756-815 | Walks the hashes of a database in order. |
| `Copying.ImportDb.InsertSourceNames` | src/adder.hpp:94-111 | One insert per name leaves the source with the names it had and all of these. |
| `Copying.Copier.CopySource` | src/adder.hpp:232-256 | One source of one hash: merge, and data and names the first time this adder meets it. |
| `Copying.Copier.CopyAll` | src/adder.hpp:215-260 | Copies exactly the chosen sources of a hash that the destination did not know at the start. |
| `Copying.SubsOfCopies` | src/adder.hpp:215-260 | After any copies by any number of adders, a hash has the sources it had and those copied for it; sub-counts on record stay, new ones are copied ones. |
| `Copying.DataOfCopies` | src/adder.hpp:73-91 | A copied source has data that some adder read for it; other data stays. |
| `Copying.NamesOfCopies` | src/adder.hpp:94-111 | A source has the names it had and all that its copies carry. |
| `Copying.SubIsFirst` | src/adder.hpp:215-260 | A new pair's sub-count is that of the first copy made of it. |
| `Copying.DataIsLastMet` | src/adder.hpp:73-91 | A copied source's data is what the last adder to meet it read at its first meeting. |
| `Copying.HeadIsFirst` | src_libhashdb/libhashdb.cpp:358-391 | A hash keeps the entropy and label on record, or gets those of the first copy made for it. |
| `SetOperations.Adder.AddHash` | src/adder.hpp:215-260 | All sources of the hash less those that the destination knew; each of them must have a name, as the code asserts. |
| `SetOperations.Adder.AddHashInRange` | src/adder.hpp:263-313 | The same if the hash's count is within the range, else none. |
| `SetOperations.ChosenCovered` | src/adder.hpp:73-155 | The assertions on source data and names cannot fail for a chosen source, with adder_set_t in any sound database and with add and add_range when the sources have names. |
| `SetOperations.Adder.IsWanted` | src/adder.hpp:157-180 | Classifying once and looking the class up later is the test for a name of the wanted kind; the repository name must be defined, as the code asserts. |
| `SetOperations.Adder.AddHashByRepository` | src/adder.hpp:316-435 | The sources with a name in the repository, or with one outside it, and only those names. |
| `SetOperations.AdderSet.IntersectSources` | src/adder_set.hpp:127-180 | The sources of the hash in both databases, with the first one's sub-counts. |
| `SetOperations.AdderSet.IntersectHashes` | src/adder_set.hpp:183-247 | If the second database finds the hash, the sources of both, the first one's sub-counts before the second one's. |
| `SetOperations.AdderSet.SubtractSources` | src/adder_set.hpp:250-309 | The sources of the hash that the second database does not find for it. |
| `SetOperations.AdderSet.SubtractHashes` | src/adder_set.hpp:312-359 | All sources of a hash whose count in the second database is 0. |
| `SetResults.RunCommand` | src/commands.hpp:326-634 | A whole command: first_hash, then next_hash to the end, copies exactly the chosen sources of every hash. |
| `SetResults.PairsOfCommand` | src/commands.hpp:326-634 | The destination's (hash, source, sub-count) triples are the old ones and the chosen ones of sources it did not know. |
| `SetResults.AddRangeLeaves` | src/adder.hpp:263-313 | add_range leaves a pair of a hash exactly when the first database has it and the hash's count is at least m and, unless n is 0, at most n; with the first database's sub-count. |
| `SetResults.RepositoryLeaves` | src/adder.hpp:316-435 | add_repository leaves the pairs of the sources with a name in that repository, add_non_repository those of the sources with a name in another one. |
| `SetResults.IntersectLeaves` | src/adder_set.hpp:127-180 | intersect leaves the first database's pairs that the second one finds, subtract the others. |
| `SetResults.IntersectHashLeaves` | src/adder_set.hpp:183-247 | intersect_hash leaves, for a hash of the first database that the second one finds, a pair that the first one has with its own sub-count, a pair that only the second one has with that one's, and nothing else. |
| `SetResults.SubtractHashLeaves` | src/adder_set.hpp:312-359 | subtract_hash leaves the pairs of the hashes whose count in the second database is 0. |
| `SetResults.HeadsOfCommand` | src/commands.hpp:326-634 | A hash that was there keeps its entropy and label; one that the command adds has those of the first database. |
| `SetResults.DataOfCommand` | src/adder_set.hpp:60-85 | Every source cited by the copies has its data written exactly once, the first database's if it has the source, else the second one's; no other data is touched. |
| `SetResults.NamesOfCommand` | src/adder_set.hpp:88-104 | Every copied source gets all its names; no other names are touched. |
| `SetResults.NamesGiven` | src/adder_set.hpp:88-104 | Those names are the ones of both databases for the commands on two, of the first one for the others, and of these only the names of the repository, or of other ones, for the repository commands. |
| `SetResults.TriplesSplit` | src/commands.hpp:499-579 | intersect and subtract split the triples of the first database into two disjoint parts that together are all of them, whatever the second database's filter hides. |
| `SetResults.HashesSplitExactly` | src/commands.hpp:526-607 | intersect_hash and subtract_hash split the hashes of the first database if and only if the second finds just the hashes with a positive count. |
| `SetResults.HashesNotSplit` | src/commands.hpp:526-607 | Two databases for which neither command copies a hash: the second one's filter hides it while its count is 1. |
| `SetResults.RepositoriesCover` | src/commands.hpp:446-634 | add_repository and subtract_repository together copy a triple if and only if its source has a name; one goes to both exactly when its source has names of both kinds. |
| `SetResults.NamesSplit` | src/adder.hpp:114-155 | Each name of a source is copied by exactly one of the two. |
| `SetResults.RunIntoNew` | src/commands.hpp:326-634 | Run into a new database, a command leaves exactly the chosen triples. |
| `SetResults.IntersectHashIntoNew` | src/adder_set.hpp:183-247 | intersect_hash run into a new database leaves just that, said of both databases' pairs alone. |
| `SetResults.SplitByPairs` | src/commands.hpp:499-579 | Both commands run into two new databases: no pair in both, and together the first database's pairs with its sub-counts. |
| `AddMultiple.Insert` | src/commands.hpp:410-411 | Multimap insertion: the waiting producers stay in order, and the new one stands behind all with an equal or lesser hash. |
| `AddMultiple.Round` | src/commands.hpp:422-441 | One round adds the least waiting hash, moves its producer on, and enqueues it again unless depleted. |
| `AddMultiple.MergeNext` | src/commands.hpp:421-442 | Each round leaves strictly fewer hashes over all producers, so the loop ends. |
| `AddMultiple.AddAll` | src/commands.hpp:392-442 | Hashes reach the consumer in non-decreasing order, each producer's every hash exactly once and in its own order, and of equal hashes the one enqueued earlier first: a producer's first hash by the producer's number, a later one by when the hash before it was handed on. The copies are made in that order. |
| `AddMultiple.FirstHashesInTurn` | src/commands.hpp:392-442 | What is handed on with a producer's first hash before that producer's turn is the first hash of a lower-numbered producer. |
| `AddMultiple.PairsUnited` | src/commands.hpp:392-442 | The destination's pairs are the old ones united with all producers' pairs whose source was not there at the start; a new pair has a sub-count that some producer gave it. |
| `AddMultiple.FirstWins` | src/commands.hpp:392-442 | A new pair has the sub-count of the first producer to hand it on. |
| `AddMultiple.HeadsUnited` | src/commands.hpp:392-442 | A hash that was there keeps its entropy and label; a new one has those of the first producer to hand it on with a source that was not there. |
| `AddMultiple.LowestGives` | src/commands.hpp:392-442 | When a hash is the first one of several producers that have the source, a new pair has the sub-count of the lowest-numbered of them. |
| `AddMultiple.LowestHeads` | src/commands.hpp:392-442 | A new hash has the entropy and label of the lowest-numbered of the producers that start with it and bring a new source. |
| `AddMultiple.DataUnited` | src/adder.hpp:73-91 | A source that was brought has the data of the last producer to come to it; other data stays. |
| `AddMultiple.NamesUnited` | src/adder.hpp:94-111 | A source gets the names of every producer that brings it, beside those it had. |
| `AddMultiple.AddAllInto` | src/commands.hpp:357-443 | From an opened consumer to its final pairs: what was there stays, and each new pair has the sub-count of the first producer to hand it on; when the hash is the first of several producers that have the source, of the lowest-numbered one. |
| `Crc32.TableRight` | src_libhashdb/crc32.cpp:48-91 | All 256 table entries are eight steps of bitwise division of their index by the reflected polynomial. |
| `Crc32.LowByteOnly` | src_libhashdb/crc32.cpp:102-103 | Eight division steps on a register are those on its low byte and a shift of the rest, which is why one look-up does. |
| `Crc32.Crc32` | src_libhashdb/crc32.cpp:94-107 | The table-driven loop equals bit-by-bit division (section 8 of RFC 1952) for every byte string and start value. |
| `Crc32.Chained` | src_libhashdb/crc32.cpp:94-107 | Two calls in a row are one call on the concatenation. |
| `Crc32.CheckValue` | src_libhashdb/crc32.cpp:94-107 | The CRC of the digits 1 to 9 is 0xcbf43926. |
| `Crc32.CheckValueOfTwo` | src_libhashdb/libhashdb.cpp:141-153 | So is the CRC of two file hashes that together hold those digits. |
| `Crc32.CalculateCrc` | src_libhashdb/libhashdb.cpp:141-153 | The loop over file hashes computes the CRC of their concatenation. |
| `Crc32.OneOrder` | src_libhashdb/libhashdb.cpp:141-153 | A set of file hashes has one ascending order. |
| `Crc32.CrcOfSet` | src_libhashdb/libhashdb.cpp:141-153 | So source_list_id depends on nothing but the set of sources. |
| `Utf8.Encode` | src_libhashdb/rapidjson/encodings.h:101-121 | Appends the one to four bytes of the code point. |
| `Utf8.Decode` | src_libhashdb/rapidjson/encodings.h:123-152 | Accepts exactly the byte sequences of section 4 of RFC 3629 at its position and returns their scalar value; it reads exactly as many bytes as the lead byte announces, accepted or not. |
| `Utf8.Validate` | src_libhashdb/rapidjson/encodings.h:153-176 | Accepts what Decode accepts, reads as many bytes, and copies exactly those. |
| `Utf8.AcceptedStaysWithin` | src_libhashdb/rapidjson/encodings.h:123-176 | Reading an accepted character takes just its bytes and does not reach the terminator of the text. |
| `Utf8.BehindTerminator` | src_libhashdb/rapidjson/encodings.h:123-176 | Whatever lies behind the terminating zero, it never decides whether a character is accepted, nor what it is. |
| `Utf8.ReadsPastTerminator` | src_libhashdb/rapidjson/encodings.h:124-150 | The reads pass the terminator exactly when two or more bytes of the announced character are missing. |
| `Utf8.Masks` | src_libhashdb/rapidjson/encodings.h:178-200 | The table and each mask test for a range of the grammar. |
| `Utf8.LeadTypes` | src_libhashdb/rapidjson/encodings.h:178-200 | The table's type of a lead byte is its row of the grammar, and the shifted mask leaves its value bits. |
| `Utf8.EncodedIsChar` | src_libhashdb/rapidjson/encodings.h:101-152 | An encoded scalar value is a character of the grammar with that value, whatever follows. |
| `Utf8.CharIsEncoded` | src_libhashdb/rapidjson/encodings.h:123-152 | Every character of the grammar is the encoding of its value, a scalar value. |
| `Utf8.Examples` | src_libhashdb/rapidjson/encodings.h:101-121 | The examples of section 7 of RFC 3629 and the last character of each length. |
| `Utf8.TextDecodes` | src_libhashdb/rapidjson/encodings.h:101-152 | A text of scalar values, encoded and followed by anything, decodes to itself character by character, consuming exactly its bytes. |
| `Utf16.Encode` | src_libhashdb/rapidjson/encodings.h:247-260 | Appends one unit, or a surrogate pair. |
| `Utf16.Decode` | src_libhashdb/rapidjson/encodings.h:262-278 | Accepts exactly a lone non-surrogate or a high and low surrogate (section 2.2 of RFC 2781), and returns the scalar value. |
| `Utf16.Validate` | src_libhashdb/rapidjson/encodings.h:280-293 | Accepts what Decode accepts, and copies exactly the units it takes. |
| `Utf16.EncodedIsChar` | src_libhashdb/rapidjson/encodings.h:247-278 | An encoded scalar value decodes to itself, whatever follows. |
| `Utf16.CharIsEncoded` | src_libhashdb/rapidjson/encodings.h:262-278 | Whatever decodes is the encoding of its scalar value. |
| `Utf16.Examples` | src_libhashdb/rapidjson/encodings.h:247-260 | The example of section 5 of RFC 2781 and the ends of both ranges. |
| `Utf16.TextDecodes` | src_libhashdb/rapidjson/encodings.h:247-278 | A text of scalar values, encoded and followed by anything, decodes to itself. |

## Left out

- LMDB itself (B-tree, pages, `maybe_grow`, the sync thread, opening): only its documented contracts for transactions, cursors and sorted duplicates are used. A transaction of one manager runs alone under that manager's mutex. The source id and source data stores have no duplicates, and their transactions are maps of byte keys to byte values.
- JSON reading and writing, settings, the history and log files, option parsing, progress and status output.
- MD5, entropy and block labels as computations: hashes are the bytes they are fed, labels and entropy are given values.
- Files, directories, media images and decompression: a file is its bytes plus the set of offsets at which a read fails. Out-of-memory aborts are not modelled.
- The source name store's byte records: names are sets of (repository, filename) pairs.
- `mdb_midl_insert`, the append, need, shrink and allocation functions of the id lists, and `mdb_mid2l_append`: they would add only easy members.
- `scan_stream`, the media scan and the other readers; UTF-32 and the byte-order variants of UTF-16.
- `find_hash_json`, the CRC-based optimization of its output, and expanding source lists.
- The change counters of the source name store.
- HashDataManager.HashDataManager.Insert: a zero source id and a hash longer than LMDB's default key limit of 511 bytes, on both of which the code aborts, are excluded by its precondition; so for Merge, for the source id store's Insert and for the calls of ImportManager.
- HashDataRecords.EncodeType1: a label over ten bytes is a program error that aborts; the managers truncate labels before the call, and that is part of their contracts.
- ImportRun.Stores.Step: source data of 64-bit counts and file types shorter than 2^35 bytes, for the reason given under SourceStores.WriteRecord; names are sets and not bytes.
- DatabaseStates.MergeStands: one thread, fewer than 2^64 - 6 ids.
- DatabaseStores.CommandOnStores: the databases are read before the destination is written, while the code reads as it goes along; the calls on the destination and their order are the code's. The merge of `add_multiple` is not run on the stores, although DatabaseStores.CopiesOnStores holds for its copies too.
- IngestInserts.SubCountsAreOnePass: a call is one step, the one in which it reaches the hash data store; the other steps of insert_hash are those of ImportManager. The source's id is taken to be its own, which ImportManager.ReachedOk shows.
- SourceStores.WriteRecord: strings of 2^35 bytes or more, for which 40 bytes need not hold the five numbers, are excluded; the code does not check.
- ImportManager.ReachedOk: a store of 2^64 - 1 or more source ids is not reached; every event adds at most one id.
- ImportManager.NextKeeps: a store operation is one atomic step, as the managers' mutexes make it.
- ImportResults.InsertsAfterEvents: runs of fewer than 2^31 events without merge_hash calls, whose effect depends on which call comes first; for those ImportResults.FindAfterCalls gives the result in terms of the order in which the calls reach the store.
- IngestSafety.AllJobsProcessed: a safety statement about runs in which all workers have exited; that they exit needs a fair scheduler, which is not modelled.
- IngestSafety.StoredOnce: the counts reported for a part are given to the step; IngestCounts ties them to the buffers. Sums are not wrapped at 64 bits.
- IngestPipeline's insert_source_name calls for files and recursed data are left out; ImportCalls.NamesAtRest says what such calls amount to.
- IngestPipeline's recursion: which uncompressed buffers a job yields is chosen freely, to the depth of 7 that the code imposes; `track_bytes` and its progress lines are left out.
- MidlSort.Sort: lists of up to 2^30 ids, so that the code's `int` indices do not overflow; ids are unbounded natural numbers, since the sort only compares them.
- MidlLists.XMerge: the ids of `merge` are at most the greatest 64-bit number, which serves as the delimiter; there is room behind `idl`, as its callers make sure.
- SetResults.RunCommand: the filter of the database being read hides none of its hashes, and for add and add_range every source that is copied has a name, since the code aborts otherwise (ScanManager.FilterHidesNothing says when the filter hides nothing); the counts of the destination are carried along but no result follows them.
- AddMultiple.AddAll: the same; validating the directories and settings before the merge is left out.
- Utf8.Decode: bytes behind the end of the stream are modelled as zeros, although the in-memory stream of the parser would read whatever lies there; Utf8.BehindTerminator shows that this does not matter for the verdict. The code point after a refusal is not stated.
- Crc32.Crc32: registers are 32-bit vectors; sizes are unbounded.
