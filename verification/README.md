# A verified model of an embedded vector database

The repository is a small vector database. External ids map to rows; a row is a vector, a typed metadata
record and a payload. A brute-force, IVF or HNSW index answers nearest-neighbour queries; columns carry
counters, postings lists and concurrent B+-trees that turn a predicate into an allowlist; a write-ahead log,
group commit and snapshots make it survive crashes. The model covers these parts, hardest first.

| part | files | form |
|---|---|---|
| the concurrent B-link tree | `BLink*.dfy` | a state machine; one step per lock hold, any number of threads |
| the same tree with one thread, with `remove` | `BPlus*.dfy`, `SortedPairs.dfy` | class `BPlusTree` against a sorted list of pairs |
| logging, group commit, checkpoint, crash, recovery | `Durable*.dfy` | a state machine with crashes as steps |
| checksum, frames, torn tails, segments | `Crc*.dfy`, `Wal*.dfy`, `Layouts.dfy` | classes `Reader` and `Wal` against byte sequences |
| columns, terms, predicates | `SortableBits.dfy`, `Terms.dfy`, `Meta*.dfy` | class `MetadataStore` against a list of records |
| the database and its snapshots | `VectorDb*.dfy`, `SnapshotCodec.dfy` | class `VDB` against a map from ids to rows |
| search | `TopK.dfy`, `FilteredSearch.dfy`, `Ivf*.dfy`, `Hnsw*.dfy`, `IndexedSearch.dfy` | methods and classes against `Nearest` |

How the parts meet: the keys of `SortableBits` order the B+-tree of a column; `MetadataStore` uses what
`BPlusTree` is proved to contain (a sorted list of pairs); `VDB` is proved against the same map of rows that the
durability model folds its log into, and `VectorDbReplay` shows that applying a record to the object is that fold's
step; `Wal` shows that what comes back after a crash is what the durability model takes a crash to leave.

The state machines keep ghost histories (`log`, `hist`), and most theorems about them speak of these. `BLinkCalls` and
`DurableCalls` tie them to callers: their runs also say which thread took each step and which call it made.

`Nearest(all, k, out)` says: `out` is `min(k, |all|)` of the entries of `all`, by rising distance, and nothing left
out is nearer than anything in it. A trail (`Trail`) is a ghost account of a column's history: which rows were posted,
and which codes `set_row` replaced.

## Model

| member | source | states |
|---|---|---|
| `BLinkCalls.RangeIsExact` | include/bplus_tree.h:143-170 | In terms of calls alone, over every interleaving: each pair a finished `range(lo, hi)` emits was passed to a call of insert, a different call for each; every insert within the bounds that returned before the scan was called is among them; keys rise |
| `BLinkCalls.InsertWritesOnce` | src/bplus_tree.cpp:96-128 | Between its call and its return, an insert writes exactly one entry, the pair it was called with |
| `BLinkCalls.EntryHasCall` | src/bplus_tree.cpp:104-110 | Every entry ever written was written by a call of insert with that key and id, while that call was under way |
| `BLinkCalls.ScanIsOfCall` | include/bplus_tree.h:143-170 | A finished scan has the bounds of the call that began it, and started with what was written by then |
| `BLinkTheorems.FinishedScanIsExact` | include/bplus_tree.h:143-170 | About the log of entries: over every interleaving, a finished scan reports every matching entry logged before it began, in key order and once each, and only matching entries of the log (`RangeIsExact` says the same of calls) |
| `BLinkTheorems.RunKeepsInv` | src/bplus_tree.cpp:96-295 | Routing, right links, hints, locks and node sizes stay consistent in every state of every run, and no thread fails an assertion or indexes past an array; the loop of `split_internal_` is taken to read its list by position, as the list is at that moment (see the findings for what its iterators do) |
| `BLinkTheorems.DescentMissesNothing` | src/bplus_tree.cpp:60-94 | To the left of where an insert or a descending scan stands nothing matches; to the left of a scan's leaf nothing written before its call is missing from its output |
| `BLinkTheorems.EveryArrivalIsBelow` | src/bplus_tree.cpp:84-94 | From the root or an inner node, every next node, down or to the right, begins below the key sought; so does the first leaf of a scan |
| `BLinkTheorems.HintLeadsToHolder` | src/bplus_tree.cpp:130-224 | A child's parent hint always leads, at the hint or along right links, to the one inner node that holds the child |
| `BLinkTheorems.WalkGoesRight` | src/bplus_tree.cpp:69-82 | While other threads split nodes, one walk of `move_right_to_child_` only goes right, and its hops are at most the nodes it has passed |
| `BLinkTheorems.HopsAreBounded` | src/bplus_tree.cpp:69-82 | Such a walk takes fewer hops than the tree has nodes at its end, whatever the others do |
| `BLinkTheorems.HopComesCloser` | src/bplus_tree.cpp:69-82 | Within one tree: a hop has a right link to follow, and fewer nodes remain between it and the holder |
| `BLinkTheorems.QuiescentTreeIsWhole` | src/bplus_tree.cpp:96-225 | When no insert is under way, every node but the root is held by the node its hint leads to and is within capacity: no split is half done |
| `BLinkTheorems.NoDeadlock` | src/bplus_tree.cpp:48-94 | No reachable state has a cycle of threads that wait for each other's node, root or growth mutex |
| `BLinkProgress.SomeoneWorks` | src/bplus_tree.cpp:96-225 | While any operation is under way, some thread in the middle of one can step and is not going round the retry loop of insert |
| `BLinkProgress.SpinnerIsServed` | src/bplus_tree.cpp:139-175 | While a thread goes round the retry loop, one outside it owes the splice or the hint it waits for, directly or through others in the loop; along the mutexes that one waits for there is a thread, outside the loop too, that can step |
| `BLinkLists.ListStaysIff` | src/bplus_tree.cpp:276-292 | While a thread hands children over to a new right half, the list it walks is the same in every state if and only if no step in between splices into that node or splits it |
| `BLinkLists.LoopVisitsList` | src/bplus_tree.cpp:289-292 | If so, it visits at each position the child that stood there, and no position past the end |
| `BLinkSchedules.ChangedListRun` | src/bplus_tree.cpp:289-292 | A run of two threads from the empty tree in which that list changes between two steps of the walk |
| `BLinkOrder.InOrderIff` | src/bplus_tree.cpp:190-192 | Through a run, the children of every node stand in the order of their level if and only if no splice puts a node in front of a younger one, by number |
| `BLinkOrder.WellOrderedIff` | src/bplus_tree.cpp:190-192 | Through a run, on every level, children stand in that order and separators are sorted and within their node's bounds if and only if no splice is late in that sense or, behind the last child, beyond the node's high key |
| `BLinkOrder.SortedIff` | src/bplus_tree.cpp:190-192 | In every reachable state, a splice above the leaves keeps sorted separators sorted if and only if nothing stands behind the child, or it has the same separator, or it is older than the new node and to the right of the child |
| `BLinkSchedules.UnsortedRun` | src/bplus_tree.cpp:190-192 | A run of two threads from the empty tree that ends with the separators 15, 10 in an inner node |
| `BPlusTrees.BPlusTree.Insert` | src/bplus_tree.cpp:96-225 | Contents become the old sorted list with the pair put in front of the entries of its key; shape, sizes and hints stay valid |
| `BPlusTrees.BPlusTree.Remove` | src/bplus_tree.cpp:319-357 | Reports whether the pair was present, over all duplicates of the key and all leaves, and drops exactly its first copy |
| `BPlusTrees.BPlusTree.LocateCopy` | src/bplus_tree.cpp:319-385 | Finds a copy exactly when there is one, the first in the whole tree, with the path of parents to its leaf |
| `BPlusTrees.BPlusTree.RebalanceAfterErase` | src/bplus_tree.cpp:387-446 | From a tree with one node below half full: a valid tree with none, and the same entries in the same order |
| `BPlusTrees.BPlusTree.BorrowFromRight` | src/bplus_tree.cpp:448-478 | Entries unchanged, every node at least half full again, routing valid |
| `BPlusTrees.BPlusTree.BorrowFromLeft` | src/bplus_tree.cpp:480-503 | The same for the left sibling |
| `BPlusTrees.BPlusTree.MergeWithRight` | src/bplus_tree.cpp:505-534 | Entries unchanged; only the parent may now be below half full, and the recorded path still leads to it |
| `BPlusTrees.BPlusTree.Range` | include/bplus_tree.h:143-170 | Emits the pairs with keys in the bounds, in order, with every duplicate |
| `BPlusTrees.BPlusTree.Find` | src/bplus_tree.cpp:297-304 | The ids of the key, in the order they are held |
| `BPlusTrees.BPlusTree.Height` | src/bplus_tree.cpp:306-317 | The number of levels h; with h at least 2 and m = capacity / 2 there are at least 2 m (m + 1)^(h - 2) entries, so depth is logarithmic |
| `BPlusSizes.HeightBound` | src/bplus_tree.cpp:387-534 | That bound, from the half-full rule that rebalancing keeps |
| `SortedPairs.HistoryRefinesMultiset` | src/bplus_tree.cpp:96-357 | After every history of inserts and removes the contents are in key order and equal, as a multiset, to what was put in less what was taken out |
| `SortedPairs.ScanOfHistory` | include/bplus_tree.h:143-170 | A scan after any history gives each pair of that multiset within the bounds as often as it is held, and no other, in key order |
| `SortedPairs.DropUndoesAdd` | src/bplus_tree.cpp:319-357 | Removing the pair just inserted restores the very list, not only the multiset |
| `DurableCalls.CallDoes` | src/durable_vdb.cpp:106-234 | When a call is applied, with no other call on its id beside it, the row of that id turns from what it was when the call was made into what the request asks: the given vector and record; the given vector and the record of before; the vector of before and the given record; or no row. An insert makes a row under an id that had none; every other row stays |
| `DurableCalls.CallBegins` | src/durable_vdb.cpp:137-138 | A call is refused at once, changing nothing, if and only if it names an id without a row |
| `DurableCalls.ReturnedIsApplied` | src/durable_vdb.cpp:137-160 | A call that is not refused has been applied when it returns, unless a crash comes first |
| `DurableCalls.CallLogsOnce` | src/durable_vdb.cpp:110-125 | A call that was applied logged one operation, before, in one step; it carries out the request on the row that was there |
| `DurableCalls.ReturnedLogsOnce` | src/durable_vdb.cpp:110-135 | So did a call that returned, and nothing else in any of its steps but the mark of a checkpoint |
| `DurableCalls.OpHasCall` | src/durable_vdb.cpp:110-125 | Every operation that joins the log is logged by a call, its first, and carries out that call's request |
| `DurableCalls.OtherStepsLeaveRows` | src/durable_vdb.cpp:106-234 | Before and after it is applied a call changes no row |
| `DurableMaintenance.CallCovers` | src/durable_vdb.cpp:236-262 | When `sync` or `checkpoint` returns, every operation logged before the call is on stable storage, after a checkpoint in the snapshot |
| `DurableMaintenance.FlushCovers` | src/durable_vdb.cpp:85-98 | Under the relaxed policy, a mutation that finds the flush interval passed, and nobody syncing, has everything logged by then on stable storage before it is done |
| `DurableMaintenance.CoveredStays` | src/durable_vdb.cpp:29-38 | What is on stable storage stays in the recovered history through every later step and crash, under either policy |
| `DurableMaintenance.OneInSoMany` | src/durable_vdb.cpp:122-125 | Since the database was opened, operations = `checkpoint_ops` times those that owe a checkpoint, plus the counter, which stays below `checkpoint_ops` |
| `DurableMaintenance.OwesUntilMade` | src/durable_vdb.cpp:128-134 | An operation that owes a checkpoint goes on owing it until it is done and its thread sets out to make one |
| `DurableTheorems.CrashRecoversPrefix` | src/durable_vdb.cpp:29-62 | After a crash at any step of any run, recovery rebuilds the effect of a prefix of the logged operations; it holds everything reported durable and, under PerOpSync, everything applied; new lsns and ids are beyond it |
| `DurableTheorems.AppliedSettles` | src/durable_vdb.cpp:106-135 | An operation that its thread has applied counts as settled |
| `DurableTheorems.AppliedStays` | src/durable_vdb.cpp:68-83 | Under PerOpSync a settled operation stays settled through every later step, crash (loss of power) and recovery |
| `DurableTheorems.LiveIsReplay` | src/durable_vdb.cpp:44-62 | For an id with no operation under way the live database shows the effect of the whole log in lsn order, whatever the order of application |
| `DurableTheorems.CheckpointIsExact` | src/durable_vdb.cpp:236-255 | A checkpoint's snapshot is exactly the effect of every lsn up to the one it records |
| `DurableTheorems.GroupCommitIsBounded` | src/durable_vdb.cpp:68-98 | One leader at a time; nothing is claimed durable that is not stable or in the snapshot; at most two completed leader syncs between an append and its lsn being covered |
| `DurableTheorems.SomeoneMoves` | src/durable_vdb.cpp:68-104 | No deadlock and no lost wake-up: while a thread has work, some thread can work without being woken first |
| `DurableTheorems.RunKeepsInv` | src/durable_vdb.cpp:106-255 | The invariant behind these holds in every state of every run, with any number of crashes |
| `DurableLog.AnyOrderReplays` | src/durable_vdb.cpp:44-62 | Any order of the same operations that are about different ids replays to the same rows |
| `DurablePuts.PutsAreNew` | src/durable_vdb.cpp:29-38 | After a crash at any step of any run, no record that recovery replays puts an id that is there when its turn comes |
| `DurableFailures.DrainIff` | src/durable_vdb.cpp:236-243 | In a session with calls that may fail, a checkpoint that waits for the operations in flight can still go on to save if and only if no call failed on its record and none in flight is going to |
| `DurableFailures.DoomedWaitsForEver` | src/durable_vdb.cpp:100-135 | Otherwise it waits in every continuation, holding the write mutex |
| `DurableFailures.FailedInsert` | src/durable_vdb.cpp:106-135 | For every record that does not conform: one insert of it, then a checkpoint that drains with nobody else at work |
| `Crc32c.Checksum` | src/crc32c.cpp:24-30 | The table-driven loop computes the bit-by-bit checksum of every message |
| `CrcPolynomial.CrcIsRemainder` | src/crc32c.cpp:6-30 | Section 12.1 of RFC 3720, for every message: the checksum, complemented and read from its lowest bit as the coefficient of x^31, is the remainder of the message times x^32, with its first 32 coefficients complemented, by the generator with the exponents 32, 28, 27, 26, 25, 23, 22, 20, 19, 18, 14, 13, 11, 10, 9, 8, 6, 0 |
| `CrcPolynomial.CrcIsOnly` | src/crc32c.cpp:6-30 | No other word stands for a remainder of that division: it fixes the checksum |
| `CrcPolynomial.OneRemainder` | src/crc32c.cpp:6 | Division by that generator leaves one remainder |
| `CrcPolynomial.KnownChecksum` | src/crc32c.cpp:24-30 | The nine digits 1 to 9 give 0xE3069283 |
| `Crc32c.BuildTable` | src/crc32c.cpp:8-17 | Every table entry is eight bit steps of its index |
| `Crc32c.UpdateInjective` | src/crc32c.cpp:27-28 | One byte step is injective in the register and in the byte |
| `Crc32c.OneByteDetected` | src/crc32c.cpp:24-30 | Changing one byte of a message of any length changes its checksum |
| `WalReader.EncodeRecord` | src/wal.cpp:119-147 | Writes the frame of the record: length, checksum over length and body, body |
| `WalReader.DecodeRecord` | src/wal.cpp:149-194 | The cursor with its bounds checks decides every byte string as the specification does: record, incomplete or corrupt |
| `Layouts.FrameLayout` | src/wal.cpp:119-147 | Byte positions, low bytes first: 0 the length of what follows byte 7, 4 the checksum of bytes 0 to 3 and 8 onwards, 8 the kind, 9 the lsn, 17 the id; from 25 the counted components of kinds 1 and 3; then, for these and 5, the counted attributes, each a type byte from 0 to 5 and its number or string, and the payload; nothing else |
| `Layouts.KindBytes` | src/wal.cpp:119-133 | Insert, delete, update, checkpoint and change of metadata are 1 to 5 in byte 8; a delete and a checkpoint are 25 bytes long |
| `Layouts.HeaderLayout` | src/wal.cpp:96-106 | A segment header: magic number, version 2 at 4, dimension at 6, metric at 10, fingerprint at 11, zeros from 19 to 31 |
| `WalCodec.DecodeFrame` | src/wal.cpp:119-194 | A frame, whatever follows it, decodes to the record that was logged and is consumed exactly |
| `WalCodec.DecodeCut` | src/wal.cpp:154-159 | Every strict prefix of a frame is recognised as incomplete |
| `WalScan.ScanFrames` | src/wal.cpp:345-359 | Frames one after another are read back in order, whatever follows |
| `WalScan.ScanCut` | src/wal.cpp:345-372 | A log cut at any byte gives exactly the records whose frames are complete, and stops where the cut frame begins |
| `WalScan.BodyByteDetected` | src/wal.cpp:161-168 | Any change to one byte of a frame's body makes it corrupt |
| `WalScan.ChecksumDetected` | src/wal.cpp:161-168 | So does any change to the stored checksum |
| `WalScan.GetPutHeader` | src/wal.cpp:96-117 | A segment header is read back as written |
| `WalCanonical.ReencodesIff` | src/wal.cpp:149-194 | A frame that decodes is the frame of the decoded record, byte for byte, if and only if no body bytes are left over |
| `WalCanonical.EncodedIff` | src/wal.cpp:173-193 | It is a frame that the encoder makes of some record of the five kinds if and only if, besides, its kind is one of them |
| `WalCanonical.PaddingIsTaken` | src/wal.cpp:175-193 | Any bytes behind any record's body are taken, and the record read as if they were not there |
| `WalCanonical.TakenThoughNotEncoded` | src/wal.cpp:175-193 | A frame of kind 9, and a delete with one byte too many: both decode, neither is ever encoded |
| `WalSegments.TakenIff` | src/wal.cpp:339-343 | Replay takes a whole segment if and only if dimension and metric are those of its header, and then reads the same whatever the schema fingerprints are |
| `WalSegments.OtherSchemaIsTaken` | src/wal.cpp:342-343 | A segment whose header differs in the fingerprint alone is taken |
| `WalSegments.ReplayCut` | src/wal.cpp:345-373 | An active file cut anywhere behind its header replays its complete records and is cut back to where they end |
| `WalSegments.Wal.Append` | src/wal.cpp:377-394 | The frame goes to the end of the open file, or into a new file, the open one being sealed as it is, exactly when that has records and would grow beyond the limit; the record joins the end of the log; what a sync covers and what is stable stay so |
| `WalSegments.Wal.Rotate` | src/wal.cpp:300-306 | The open file is synced and sealed and an empty one begun; contents unchanged |
| `WalSegments.Wal.SyncBegin` | src/wal.cpp:401-409 | The high-water lsn, and the open file with enough of its bytes to cover it |
| `WalSegments.Wal.SyncEnd` | src/wal.cpp:410-415 | The fsync, after any appends, rotations and truncations since, makes everything up to that lsn stable |
| `WalSegments.FsyncStable` | src/wal.cpp:396-416 | The same about the log: syncing one file suffices because sealed ones are synced already |
| `WalSegments.Wal.Truncate` | src/wal.cpp:418-437 | Drops a prefix, nothing above the bound; no sealed segment at or below it stays; coverage and stability are kept |
| `WalSegments.Wal.Replay` | src/wal.cpp:333-375 | Succeeds exactly when every segment reads; after a crash the records are a prefix of the log that holds everything stable, and the log is valid for appends |
| `WalSegments.ReplayAfterHistory` | src/wal.cpp:333-437 | After any history of appends, rotations, truncations and crashes the log is everything logged and not lost, less a prefix that lies below the largest truncation bound |
| `WalSegments.StableIsLogged` | src/wal.cpp:333-416 | A record that was stable at each later crash is still among what counts as logged |
| `SortableBits.IntOrder` | include/sortable_bits.h:37-41 | The key of a signed 64-bit integer is ordered as the integer, and has an inverse |
| `SortableBits.DoubleOrder` | include/sortable_bits.h:43-48 | The key of a double's bits is ordered by IEEE 754 totalOrder, and has an inverse |
| `MetaColumn.TurnKeeps` | src/metadata.cpp:131-199 | A row turning live or dead keeps every counter, document total and index entry exact |
| `MetaRows.SetKeeps` | src/metadata.cpp:291-327 | Overwriting a live cell keeps counters and index exact; what is left in the postings is accounted for code by code |
| `MetaResolve.PermuteKeeps` | src/metadata.cpp:329-396 | Renumbering keeps counts without recounting, and rebuilds postings and index with nothing stale |
| `MetaResolve.CountIsSize` | include/metadata.h:245-255 | A counter is the number of live rows that hold the code |
| `MetaResolve.EqualityExact` | src/metadata.cpp:465-471 | The filtered postings hold every live match; they hold nothing else, and nothing twice, if and only if no live row had this code overwritten since the postings were built |
| `MetaResolve.SetSpoilsEquality` | src/metadata.cpp:322-324 | Every `set_row` of a posted live row spoils equality on the value it held, even when it writes the same value again |
| `MetaResolve.StaleTag` | src/metadata.cpp:322-324 | A concrete case: one row tagged a, then b; equality on a still finds it |
| `MetaResolve.RangeExact` | src/metadata.cpp:485-499 | A range on an indexed column gives exactly the live rows within the bounds, each once, whatever happened before |
| `MetaResolve.RangeByValue` | src/metadata.cpp:485-499 | The same in terms of signed integers, and of totalOrder on doubles: a stored -0.0 lies below a bound of +0.0 and is not found by it |
| `MetaTable.EqualityAnswers` | src/metadata.cpp:445-472 | Equality by value, values never interned included: complete always, exact under the same condition and no other |
| `MetaTable.TruthIff` | src/metadata.cpp:148-167 | A conforming truth value indexes its column's two lists inside their bounds if and only if its low half is 0 or 1, and where equality on its reading looks if and only if it is 0 or its low half is 1 |
| `MetaTable.OddTruths` | src/metadata.cpp:92-99 | Two conforming records: raw value 2 indexes past the lists, raw value 2^32 reads as true and counts as false |
| `MetadataStores.MetadataStore.AppendRow` | src/metadata.cpp:234-273 | Accepts exactly conforming records; the record is added with nulls spelled out, dead and posted in every column |
| `MetadataStores.MetadataStore.AppendRowCopy` | src/metadata.cpp:275-289 | A new dead row that reads as row src |
| `MetadataStores.MetadataStore.SetRow` | src/metadata.cpp:291-327 | Accepts exactly conforming records; that row reads as the record, others are unchanged, derived state stays valid |
| `MetadataStores.MetadataStore.MarkLive` | src/metadata.cpp:187-192 | The row turns live; all rows read the same and every counter and index follows |
| `MetadataStores.MetadataStore.MarkDead` | src/metadata.cpp:194-199 | The reverse |
| `MetadataStores.MetadataStore.Permute` | src/metadata.cpp:329-396 | The live rows in order, all live, with fresh trails |
| `MetadataStores.MetadataStore.RebuildDerivedState` | src/metadata.cpp:201-224 | From rows alone: counters, postings and indexes valid for the given tombstones, rows unchanged |
| `Terms.TokensAreFixed` | src/metadata.cpp:28-43 | Letters count without their ASCII case; every byte that is no ASCII letter or digit ends a token; a run of digits and lower-case letters is one token; nothing is none. The tokenizer meets these laws, and whatever meets them agrees with it on every string |
| `Terms.TokenizeText` | src/metadata.cpp:28-43 | The loop gives those tokens |
| `Terms.TermsAreTokens` | src/metadata.cpp:113-125 | The codes of a text row are those of its tokens and no others, each once, in order of first occurrence |
| `Terms.InternedAdds` | src/metadata.cpp:102-125 | Interning adds to the dictionary the tokens that are new, each once and none else, with no rows and no count; every other part of the column stays |
| `MetaTable.ConformingIsKept` | src/metadata.cpp:234-273 | A conforming record is stored as it was given, or with nulls when it gives no attributes |
| `MetadataStores.MetadataStore.InternTerms` | src/metadata.cpp:113-125 | Codes are the distinct terms of the text in order of first occurrence, though the dictionary grows meanwhile; the length counts repeats |
| `MetadataStores.MetadataStore.Count` | include/metadata.h:252-255 | The number of live rows that hold the code |
| `MetadataStores.MetadataStore.GetRow` | src/metadata.cpp:420-438 | What was last written to the row, through dictionary codes and bit patterns |
| `MetadataStores.MetadataStore.Resolve` | src/metadata.cpp:440-500 | Refuses exactly ill-typed predicates; unresolved exactly for a range without index; otherwise live rows only, every match, and exact if and only if untouched by `set_row` |
| `VectorDbs.VDB.ReserveId` | src/vdb.cpp:91-94 | The next id, above that of every row, live or dead |
| `VectorDbs.PublishIff` | src/vdb.cpp:122-130 | Publishing a row under an id keeps the table of ids sound if and only if no row has that id |
| `VectorDbs.VDB.BeginInsert` | src/vdb.cpp:103-118 | Under a reserved id: readers see no change; a pending row remembers what it will show |
| `VectorDbs.VDB.FinishInsert` | src/vdb.cpp:122-130 | The id now shows exactly the row given in phase 1, whatever other calls did between |
| `VectorDbs.VDB.InsertReserved` | src/vdb.cpp:100-131 | Under a reserved id: the map of rows gains the row, or nothing if the record does not conform |
| `VectorDbs.VDB.BeginUpdate` | src/vdb.cpp:166-184 | Readers see no change; the replacement is pending, with the old metadata if none is given |
| `VectorDbs.VDB.FinishUpdate` | src/vdb.cpp:190-197 | The id shows the replacement; no other id changes |
| `VectorDbs.VDB.Update` | src/vdb.cpp:166-199 | Both phases: replaces the row of a known id, and nothing else |
| `VectorDbs.VDB.Remove` | src/vdb.cpp:144-154 | Reports whether the id had a row; the map loses exactly that id |
| `VectorDbs.VDB.SetMetadata` | src/vdb.cpp:209-216 | The record of that id is replaced, its vector kept |
| `VectorDbs.VDB.GetMetadata` | src/vdb.cpp:218-224 | The record of the id in the map of rows, or none |
| `VectorDbs.VDB.Compact` | src/vdb.cpp:479-523 | For an index that numbers rows from zero: the map of rows is unchanged; no tombstones remain and no posting is stale |
| `VectorDbReplay.ApplyRecord` | src/durable_vdb.cpp:44-62 | On the object, a record does what the durability model says it does to the map; one that does not conform is refused and changes nothing |
| `VectorDbReplay.ReplayInto` | src/durable_vdb.cpp:36-38 | Replaying is the fold of the records up to the first that does not conform; recovery completes if and only if there is none |
| `VectorDbReplay.RecoveryIsReplayable` | src/durable_vdb.cpp:29-38 | What recovery replays in any reachable state, after any crash, meets what the two methods above ask of ids |
| `Layouts.SnapshotRows` | src/snapshot.cpp:71-90 | Behind 43 bytes of head: the number of rows, their ids, the number of flags, the flags, 1 for a tombstone, and the number of vectors, all counts in eight bytes |
| `Layouts.SnapshotHead` | src/snapshot.cpp:71-81 | The head: magic number, version 2 at 4, dimension at 6, metric at 10, then lsn, next id, live and deleted counts from 11 on |
| `SnapshotCodec.LoadSaved` | src/snapshot.cpp:71-146 | A snapshot's bytes, with the vectors, lists or graph of any of the three indexes, load as exactly the image saved, whatever follows |
| `SnapshotCodec.CutIsRefused` | src/snapshot.cpp:102-146 | Every strict prefix of a snapshot is refused |
| `VectorDbSnapshot.SaveSnapshot` | src/snapshot.cpp:71-100 | The image means the same map of rows as the database, pending rows being tombstones, and holds the index whole |
| `VectorDbSnapshot.LoadSnapshot` | src/snapshot.cpp:102-146 | A saved file loads exactly under the same dimension, metric and fingerprint; then the database shows that map, its counters, postings and indexes are fresh, and the vector index is the one saved |
| `VectorDbSnapshot.RestoredSame` | src/metadata.cpp:588-676 | Values and term codes come back, the codes by tokenizing again against the loaded dictionary |
| `VectorDbSearch.SearchWhere` | src/vdb.cpp:317-329 | Over the exact index, from predicate to hits, by either strategy: the nearest k of the live rows that satisfy the predicate, provided no live row had the value overwritten |
| `IndexedSearch.SearchGraphWhere` | src/vdb.cpp:317-329 | Over the graph: the same when the matches are scanned; otherwise the nearest k of the matching rows among those that a search visits, at the end of the way down from the entry point, when asked for k and as many more as there are rows that do not match |
| `IndexedSearch.CollectGraph` | src/vdb.cpp:229-260 | Over-fetch from the graph, then drop: the way down from the entry point, and the nearest k kept rows among those visited at its end, which are all reachable ones when the search is wide enough |
| `IndexedSearch.CollectLists` | src/vdb.cpp:229-260 | The same over inverted lists: the nearest k kept rows of the nprobe nearest lists |
| `FilteredSearch.BruteSearch` | src/brute_index.cpp:19-40 | The nearest k of all rows |
| `FilteredSearch.PrefilterScan` | src/vdb.cpp:40-56 | The nearest k of the allowlist |
| `FilteredSearch.CollectAmong` | src/vdb.cpp:229-260 | The margin for all rows is enough for whatever an index visits: the nearest k kept rows among those visited |
| `FilteredSearch.Collect` | src/vdb.cpp:229-260 | Over the exact index: the nearest k of the live and allowed rows when the allowlist is exact; in any case only such rows, rising, each once |
| `FilteredSearch.Auto` | src/vdb.cpp:318-329 | Whatever the planner chooses, the nearest k of the live and allowed rows |
| `FilteredSearch.AgreeIffDistinct` | src/vdb.cpp:246-256 | The two strategies give the same distances for all queries if and only if the allowlist repeats no id |
| `TopK.OverfetchSuffices` | src/vdb.cpp:230-250 | Asking for k plus the number of rows to be dropped, capped at the size, always suffices |
| `TopK.SameDistances` | src/brute_index.cpp:29-39 | However ties are broken, the distances of the nearest k are the same |
| `IvfIndexes.IvfIndex.Train` | src/ivf_index.cpp:71-80 | Each training row is in the list of the first of its nearest centroids and in no other; the lists partition the rows |
| `IvfIndexes.IvfIndex.Add` | src/ivf_index.cpp:84-93 | Fails if and only if the index is untrained or has no centroids; otherwise the new row joins the list of the first of its nearest centroids, and its number is the number of rows there were, those of training included |
| `IvfIndexes.IvfIndex.Search` | src/ivf_index.cpp:96-129 | The nearest k of the probed lists, which are nprobe of the lists with none nearer left out; with all lists probed, the nearest k of all rows |
| `IvfIndexes.TrainThenAdd` | src/vdb.cpp:510-521 | Training on n rows and adding them again numbers them n, n+1, …; they get 0, 1, … if and only if there are none |
| `HnswSearch.SearchLayer` | src/hnsw_index.cpp:80-129 | The ef nearest of the visited nodes, farthest first, each once, all reachable and with every neighbour visited; everything reachable if ef is that large |
| `HnswIndexes.HnswIndex.SelectNeighbors` | src/hnsw_index.cpp:137-171 | All candidates if there is room. Otherwise M: first picked ones, ever farther from the query and none nearer to an earlier one than to the query; every other candidate is nearer to a picked one, itself no farther from the query, than to the query, or is as far away as the last picked when those fill the room; the rest are the nearest of the others |
| `HnswIndexes.HnswIndex.BackLink` | src/hnsw_index.cpp:238-244 | The node's list gains the new link, or is a selection among old and new links when that is too many; nothing else changes, and lists stay capped, without repeats or self-links, on existing layers |
| `HnswIndexes.HnswIndex.LinkLayer` | src/hnsw_index.cpp:224-247 | On one layer: the new node's links are a selection among the results of a search from the given node, and the first nearest of these results is handed on; each linked node has a back-link as above, and no other list changes |
| `HnswIndexes.HnswIndex.Descend` | src/hnsw_index.cpp:217-221 | One layer of the way down: the first nearest of the results of a search of width one from the given node |
| `HnswIndexes.HnswIndex.LinkNode` | src/hnsw_index.cpp:198-257 | From the entry point each layer above the new node's is searched from where the layer before handed on, and so is each shared layer, where the node is linked as above; all other layers stay the same; the graph stays well formed; the entry point becomes the new node exactly when it is taller than the graph |
| `HnswIndexes.HnswIndex.Add` | src/hnsw_index.cpp:266-270 | The new node has the next number and is linked by such a way down on every shared layer; other vectors, heights and layers are unchanged |
| `HnswIndexes.HnswIndex.Search` | src/hnsw_index.cpp:273-311 | From the entry point each layer but the lowest is searched with width one from the nearest node found one layer up; the lowest with width max(ef, k) from the last such node; the answer is the nearest k of what is visited there, which is all that can be reached if the width is that large |

## Findings

Properties that the code or its documentation suggests and that do not hold. Each entry names a lemma at an input where
it fails, and the theorem that says exactly when it holds.

- Equality predicates after `set_metadata`. `set_row` posts the row again without removing what it held
  (src/metadata.cpp:322-324), and `resolve` filters postings by liveness alone (src/metadata.cpp:465-471) though
  include/metadata.h:261-263 asks consumers to look at the value as well. Fails: `StaleTag`, and by `SetSpoilsEquality`
  after every `set_row` of a posted live row. Holds if and only if no live row had this value overwritten since the last
  rebuild: `EqualityExact`.
- A repeated id in the allowlist makes the pre-filter return it twice and shrinks the post-filter's margin, so the
  planner's choice changes answers. Fails: `RepeatsDisagree`, on every such list. The strategies agree if and only if no
  id is repeated: `AgreeIffDistinct`.
- Separators are said to be always sorted (include/bplus_tree.h:190). Two concurrent splits of one child may be spliced
  in reverse. Fails: `UnsortedRun`. Above the leaves a splice keeps them sorted exactly as `SortedIff` says; over whole
  runs, children stay in order if and only if no splice is late (`InOrderIff`), and on every level separators stay
  sorted and within bounds if and only if none is out of place (`WellOrderedIff`). The descent tolerates disorder: the
  scan theorem is proved without any order.
- `split_internal_` iterates the new right half's children without that node's mutex (src/bplus_tree.cpp:289-292). Once
  a child carries its new hint, another insert may splice into the list, which invalidates the iterators. Fails:
  `ChangedListRun`. The list stays the same if and only if nobody splices into that node or splits it meanwhile:
  `ListStaysIff`; then the loop visits it as intended: `LoopVisitsList`.
- IVF inside the database. A new index is untrained, nothing trains it before the first insert, and `add` then fails its
  assertion (src/ivf_index.cpp:85): `IvfIndex.Add` succeeds if and only if it is trained and has centroids. `compact`
  trains on the live rows, which stores them, and then adds them again (src/vdb.cpp:510-521): the numbers are as asserted
  if and only if there are no live rows: `TrainThenAdd`.
- An operation is logged, and counted as in flight, before its record is validated (src/durable_vdb.cpp:116-129).
  Recovery completes if and only if every record that it reads conforms: `ReplayInto`. The failing call stays in the
  count, for which a checkpoint waits: `FailedInsert`. A waiting checkpoint can go on if and only if no call failed or is
  going to: `DrainIff`.
- The schema fingerprint in a segment's header is documented as checked on open (include/wal.h:43), but replay compares
  dimension and metric alone (src/wal.cpp:342-343). Fails: `OtherSchemaIsTaken`. Exactly what is taken: `TakenIff`.
- Decoding takes unknown kinds and body bytes left over, as long as the checksum fits (src/wal.cpp:175-193). Fails:
  `TakenThoughNotEncoded`. What decodes was encoded if and only if neither is the case: `EncodedIff`.
- `validate` does not look at the raw value of a Bool (src/metadata.cpp:92-99), whose low half indexes a list of two.
  Fails: `OddTruths`. Exactly which values are counted where they are looked for: `TruthIff`.

## Left out

- `remove` on the B+-tree beside other threads: the source forbids it, and it is proved on the sequential class.
- BLinkTheorems.RunKeepsInv: what a program does after its iterators were invalidated is undefined; the model goes on
  reading the list by position, up to its end at that moment.
- The node limit of the concurrent tree, its relaxed `size` counter, and data races below the level of lock holds.
- The parent walk in the sequential tree: with one thread `move_right_to_child_` never hops, so `Climb` has no loop for it.
- AppliedStays: a crash is a loss of power, so what recovery finds in the files counts as stable. If only the process
  dies, recovery may find records that were written and never synced; a later loss of power could still take them.
  Their calls had not returned.
- Periodic policy: operations beyond the durable lsn may be lost, as the source says; the flush interval is a free choice
  of the model.
- Durable operations whose record does not conform: the theorems about runs with crashes are for records that do; a
  session between two crashes is modelled with those that do not.
- MetadataStores.MetadataStore.AppendRow: asks for truth values that are counted where they are looked for (`TruthIff`);
  others index past a list, or are misread.
- MetadataStores.MetadataStore.SetRow: the same, and so do the insert, update and metadata calls of `VectorDbs.VDB` and
  the two methods of `VectorDbReplay`.
- VectorDbs.VDB.InsertReserved: asks for an id without a row, as `reserve_id` and the log give it (`PublishIff`,
  `RecoveryIsReplayable`).
- VectorDbs.VDB.Compact: an IVF index does not number rows from zero then; see the findings.
- Concurrent calls about the same id: the source asks callers for distinct ids (include/vdb.h:58), and so does the model.
- Creating a segment with its header, and renaming a snapshot into place, are single steps; the failure of a system call
  is not modelled; the id in a checkpoint record is not either.
- Recovery of the file list: discovering segment files by name is a given list of numbers and contents.
- Widths: lsns, ids and counters are unbounded in the state machines and classes; the formats bound them by their fields.
- Column indexes are the sorted list that class `BPlusTree` is proved to refine, not instances of that class. The map
  from strings to codes is read off the dictionary.
- The fingerprint hash and attribute names: a fingerprint is a given number. `clear_rows` is not modelled.
- A load that fails half way: the model says that it fails, not what the partly loaded object holds.
- VectorDbSnapshot.LoadSnapshot: is about files that were saved, or cut short (`CutIsRefused`); a file that was changed
  otherwise is not validated by the source. The file does not say which kind of index it holds.
- Distances are integers given for each row, and floating-point rounding, NaN and quantization are left out. A priority
  queue is an ordered list; `nth_element` and `sort` are small stand-ins with the same contracts.
- HNSW links one node at a time; the random layer is an input, and `max_elements` is not reached. IVF's k-means gives the
  centroids; the model starts from distances to them, all of them finite.
- The columns and the index in a snapshot: pinned by the round trip, not by byte positions.
- BM25, rank fusion, the planner's cost formula, the HTTP server and the benchmarks.
