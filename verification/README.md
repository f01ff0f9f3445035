# Verified models of the labs

The repository is a collection of small labs. This project models the parts of it that carry
state with an invariant, and proves what those parts keep over every run and every
interleaving. `dafny verify dfyconfig.toml` checks the whole project.

Where a lab changes objects in place, the project has two layers: functions on values that
follow the code branch by branch, with the theorems about them, and classes with the code's own
fields and loops, each method proved to do exactly what the function says. Where a lab is a
concurrent protocol, every critical section or atomic instruction is one step, any number of
threads may take part, and the theorems quantify over every interleaving.

## The systems

**The db_lab table** (`BTreeModel`, `BTreeProofs`, `BTreeTheorems`, `BTreeRuns`, `BTreeLoad`,
`BTreeFailures`, `BTreePages`, `BTreeScan`, `BTreeChain`, `BTreeStored`). A paged B+tree of one
internal level over a chain of leaves, for every leaf capacity of at least one cell and every number
of internal keys. The value layer follows `Insert` including the branch that goes wrong: for a leaf
that is neither the root nor the rightmost one, the separator of the split leaf is overwritten with
the parent's last separator and the new separator is entered at a position that was searched for
with the number of keys instead of a key. So an insertion keeps the table well formed under an exact
condition that a caller can check beforehand (the key is new, and if its leaf is full it is the root
leaf, or the rightmost leaf below a root with room for one more key), and the theorem states that
condition in both directions. Where it fails for a new key and Insert goes through, some key that
the table held, or the new one, is afterwards no longer where `Find` looks. In every layout with
room for two internal keys a run of new keys gets there; in db_lab as it is compiled, twenty rows
do, and one more makes seven of them unreachable. The chain of leaves survives every split, the
wrong ones too: its links still lead through all rows and the new one in key order. Whole runs
refine a map, and a table that was filled by such a run, its pages kept by the pager, flushed and
read again at will, is the same table and map after its file has been closed and opened again.
Ascending loads meet the condition until the root has no room for another key, and their page count
and leaf fill are computed exactly. A scan visits the rows of any well-formed table once each in
increasing order. The page classes shift cells in arrays, and split a full leaf by one downward pass
that is proved never to read a cell it has already overwritten.

**The pager** (`PagerModel`, `PagerCache`). A write-back cache over one file. Every run of requests,
writes, closings and reopenings shows the pages of a store that keeps all of them in memory. One
condition is exact: skipping page numbers creates pages of zeros if and only if the file has no
partial last page with something in it.

**The rocksdb_lab document store** (`ByteStrings`, `StoreKeys`, `StoreRanges`, `DocSchema`,
`DocStore`, `DocInvariants`, `DocBatch`, `DocRepeats`, `DocOwners`, `DocDatabase`, `DocRuns`,
`DocSequential`, `DocContents`, `DocImpl`). RocksDB is a map from byte strings to byte strings in
bytewise order, a write batch is a sequence of puts and deletes. Structured keys are encoded to the
code's bytes; the encoding is injective, so theorems about structured stores carry over to bytes,
and `DocImpl` builds every key and value byte by byte. In every run of CreateTable, AddDoc and
AddDocs, whatever uids occur in a batch and how often, every uid is mapped to an address of its own
below the cursor with all its records, every record is indexed, and the cache is in step; starting
again on a store rebuilds the cache that was held. To its callers the database is a map from uids to
documents for each table: every run does to the records what it would do to those maps, and answers
as they say (`DocContents`). Exact conditions, each of which a caller can check beforehand:

- a batch, of any length and over any number of segments, agrees with adding its documents one by
  one if and only if each further version of a uid in it finds that uid in the current segment, with
  the version before it put there too, and, when the segment has become full in between, equal to
  the one stored (while the segment has room for the whole batch: every uid that occurs twice is
  already in it);
- every record belongs to the document mapped to its address, after any run over any number of
  tables, if and only if in no batch a uid occurs again that is not in the current segment, or that
  was put elsewhere the time before because the segment was full. Otherwise the version before stays
  behind, with its index entries, at an address that no uid is mapped to any more, for good;
- index and records agree, after any run, if and only if no document is put in place in its current
  segment with a changed value (the old index entry is not deleted then);
- a range scan over a string field takes a bound at its word, for all values at all addresses up to
  the cursor, if and only if every rest of the bound, followed by zeros, comes after that address.
  Bounds without zero bytes meet this in all segments below 2^56;
- encoded longs are in numeric order if and only if their signs agree, so that a range scan over a
  long field is exact if and only if its bounds have the same sign;
- a schema survives being stored if and only if it has at most 255 fields and no name longer than
  255 bytes.

**The ck_lab hierarchy guard** (`HierarchyGuard`). The two-level locking protocol as a step
relation. An unlock is split into the moment at which the mutex becomes free and the return of the
call, because until then the call touches the mutex that the erasure of an entry destroys.

**The ck_lab port slot** (`PortSlot`, `PortChannel`). The compare-and-swap loop on 64-bit words with
spurious failures, for any number of clients; then one output and one input port whose guarded
pushes and pulls hand over every chunk exactly once and in order, while the other flags change
arbitrarily, and end when the other port stops. A push goes by a look that found the slot needed;
the exchanges leave the other flags alone, but that a pull clears IS_NEEDED exactly when its call
asks for it.

**The ck_lab pipes and graph** (`Pipes`, `PipeSinks`, `PipeObjects`, `PortGraph`). Pipes built from
unconnected processors by any run of AddSource, AddTransform and MergePipes; the walk of `ToString`;
the edges of the graph over fully connected processors. Only `AddSink` can complete a pipe, and as
it runs it connects nothing; `PipeSinks` proves that, and that the loop it is written with would
complete every pipe that can be built. In every run each processor taken in is in exactly one pipe,
the parts of a merged pipe are its blocks in their order, and the lines of `ToString` are the chains
of the sources up to what an earlier line shows.

**The duckdb_lab thread pool** (`ThreadPool`, `ThreadPoolRuns`). Workers, callers of `enqueue` and
the destructor on one mutex and one condition variable, sleeping and `notify_all` included. The pool
completes (calls return or, once the destructor has begun, throw; accepted tasks run; the destructor
finishes) if and only if it was given at least one worker and room for at least one task. At rest
every task ever submitted has run once or its call has thrown, and all have run if the destructor
was never started.

**The new_meta_lab snapshot retention** (`Snapshots`, `SnapshotAnswers`, `SnapshotsHolders`,
`RefcountRace`, `SnapshotRaces`, `SnapshotAlone`, `SnapshotLoss`). The two critical sections of
`Add` with anything in between, scoped handles, and the background collector, each change of a
reference count being one step. `Add` answers true exactly for the ids that went in, and nothing
goes in once the holder is done. The source counts in a plain int and drops handles outside every
mutex. `RefcountRace` splits a change into its load and its store and says, for any number of
threads, when the count comes out right: if and only if no two changes overlap. `SnapshotRaces` puts
those loads and stores into the steps of the holder's threads. `SnapshotAlone` proves that every run
in which a change of a count begins only when no other change of that count is under way, whatever
happens to other counts, is an atomic run, so that a snapshot is called back at most once and only
without handles. Without that `SnapshotLoss` has, for every number of versions, a run from the empty
holder in which a snapshot's callback runs although a handle on it is live.

`Options` declares the one option type that the modules share.

## Where code and comments differ

- `rocksdb_lab/rocksdb_util.h:27-28` says that the next-id key ends in a segment id; the code
  writes the table id alone and puts segment and id into the value
  (`rocksdb_lab/rocksdb_impl.cpp:747-752, 791-797`). The model follows the code.
- `ck_lab/Status.h:8-13` never evaluates its argument, so the source check of `AddSource` does
  nothing, and `AddSink` forgets the open ports without connecting them. The model takes what the
  source check would establish as a precondition, and has `AddSink` both as it runs and as it is
  written.
- `ck_lab/Port.h:107` parses as `flags & (HAS_DATA != 0)`. The model proves the evident meaning,
  that the pulled word had data.

## Model

| member | source | states |
|---|---|---|
| HierarchyGuard.StepInv | ck_lab/HierarchyGuard.h:62-105 | every step of every guard keeps the protocol invariant |
| HierarchyGuard.ReachableSafe | ck_lab/HierarchyGuard.h:62-105 | in every state of every run a counter is the number of registered guards, the guard mutex and each id's entry mutex exclude, and a guard that may still touch its entry has it in the relation |
| HierarchyGuard.EraseIsLast | ck_lab/HierarchyGuard.h:84-100 | an entry is erased only with a zero counter and a free mutex, when no other guard waits on it, holds it or can still touch it or its mutex |
| HierarchyGuard.NoDeadlock | ck_lab/HierarchyGuard.h:66-105 | while some guard is unfinished some guard can step |
| HierarchyGuard.RunsComplete | ck_lab/HierarchyGuard.h:50-105 | a run of n guards has at most 10 n steps, and one that cannot be extended has finished every guard, freed the guard mutex and emptied the relation |
| BTreeProofs.InnerProbeBound | db_lab/node.h:191-208 | the search returns the boundary between the keys below the sought one and the rest |
| BTreeProofs.LeafProbeBound | db_lab/node.h:334-357 | the same for leaf cells, equal keys included |
| BTreeProofs.FindCorrect | db_lab/table.h:302-363 | Find's cursor stands on the key if and only if the table holds it, and otherwise on the key's place |
| BTreeProofs.InsertWithRoom | db_lab/table.h:239-265 | a new key whose leaf has room: the table stays well formed and gains exactly that row |
| BTreeProofs.InsertSplitsRoot | db_lab/table.h:71-105 | the same when the root leaf overflows |
| BTreeProofs.RightmostRoot | db_lab/table.h:142-173 | on the rightmost leaf the separator updates come out right |
| BTreeProofs.InsertSplitsRightmost | db_lab/table.h:175-237 | the same when the rightmost leaf overflows and the root has room |
| BTreeTheorems.PagesDisjoint | db_lab/table.h:142-265 | rows on different pages of a well-formed table have different keys |
| BTreeTheorems.DuplicateBreaks | db_lab/table.h:239-265 | inserting a key that is present never leaves a well-formed table |
| BTreeTheorems.MiddleSplitBreaks | db_lab/table.h:222-235 | splitting a full leaf that is neither the root nor the rightmost never leaves a well-formed table |
| BTreeFailures.ReachesHeld | db_lab/table.h:302-363 | in a well-formed table Find is led to exactly the keys held |
| BTreeFailures.MiddleSplitLoses | db_lab/table.h:142-235 | after such a split Find is no longer led to some key that the table held, or to the new one |
| BTreeFailures.RightChildLost | db_lab/table.h:153-173 | when the new page replaces the right child, no key of the old right child is found any more |
| BTreeTheorems.InsertCorrectIff | db_lab/table.h:142-265 | Insert succeeds and leaves a well-formed table if and only if the caller's condition holds, and then it has gained exactly the new row |
| BTreeRuns.HoldsInMap | db_lab/table.h:302-363 | the table holds a key if and only if the map it represents does |
| BTreeRuns.RunRefinesMap | db_lab/table.h:71-377 | a run whose keys can be inserted keeps the table well formed, and its rows are exactly the map of the rows inserted so far |
| BTreeRuns.RunCorrectIff | db_lab/table.h:71-377 | a run is well formed throughout if and only if every key could be inserted |
| BTreeFailures.SomeRunFails | db_lab/table.h:71-235 | for every layout with room for two internal keys: a run of new keys, each of which could be inserted, leaves a well-formed table into which a further new key cannot be put; Insert makes the root a child of itself and no row of the second leaf is found any more |
| BTreeFailures.DbLabFails | db_lab/table.h:71-235 | in the compiled layout, after twenty new keys the twenty-first makes seven of them unreachable |
| BTreeChain.ChainSurvives | db_lab/table.h:178-235 | every split of a leaf below the root that goes through, the wrong ones included, leaves a chain of next links from the first leaf to the last that shows exactly the rows there were and the new one, in strictly increasing key order |
| BTreeLoad.LoadStep | db_lab/table.h:175-265 | an ascending insert can be done, and takes the shape for m rows to the shape for m + 1 |
| BTreeLoad.AscendingLoad | db_lab/table.h:71-237 | m ascending inserts never fail while the internal keys fit; 1 page or 3 + (m - C - 1) / LeftSplit pages, every leaf but the last holding exactly LeftSplit rows, the rows being the map loaded |
| BTreeLoad.SplitsEvenly | db_lab/node.h:255-256 | a split puts at least half a leaf on either side, a row left over on the left |
| BTreePages.Page.FindLeafCell | db_lab/node.h:334-357 | the loop computes the search function on the cells in use |
| BTreePages.Page.FindSlot | db_lab/node.h:191-208 | the loop computes the search function on the first n slots |
| BTreePages.Page.InsertCell | db_lab/table.h:251-262 | the shifting loop puts the row in before the cell and keeps the others in order |
| BTreePages.Page.EnterSlot | db_lab/table.h:142-173 | InsertInternal on the page object does what the value function says |
| BTreePages.Page.TakeIn | db_lab/table.h:225-233 | the separator update followed by InsertInternal, on the page object |
| BTreePages.SplitCells | db_lab/table.h:193-217 | for every capacity, full leaf and cell number the downward in-place pass makes left cells then right cells the old cells with the new one put in |
| BTreePages.SplitLeaf | db_lab/table.h:178-220 | the two leaves after a split, with parents and next links |
| BTreePages.Table.constructor | db_lab/table.h:17-31 | a new table is the empty root leaf |
| BTreePages.Table.Find | db_lab/table.h:302-363 | the page and cell of the value function |
| BTreePages.Table.TellRoot | db_lab/table.h:222-234 | the parent is told of the new page, or is full |
| BTreePages.Table.Insert | db_lab/table.h:365-377 | all pages end as the value function says, and false is exactly the unfinished branch |
| BTreeScan.AdvanceFaces | db_lab/table.h:267-294 | advancing leaves behind exactly the row the cursor stood on |
| BTreeScan.RowsSorted | db_lab/table.h:142-265 | the leaves of a well-formed table, in chain order, are strictly sorted |
| BTreeScan.ScanVisitsAll | db_lab/table.h:267-391 | from StartCursor, one Advance per row reaches the end, the k-th position showing the k-th row in strictly increasing key order |
| BTreeScan.TableCursor.Advance | db_lab/table.h:267-294 | the cursor's fields move as the step function says |
| BTreeScan.DumpTree | db_lab/table.h:60-69 | the loop ends and collects all rows, sorted |
| BTreeStored.StepStored | db_lab/pager.h:18-115 | an insertion that asks for its pages and writes them, in any order and with flushes in between, takes a pager that holds the table to one that holds the new table |
| BTreeStored.FreshStored | db_lab/table.h:17-31 | opening a new file and writing the first page leaves it holding the empty table |
| BTreeStored.CanSave | db_lab/pager.h:50-115 | every insertion can be saved: there are requests and writes after which the pager holds the new table |
| BTreeStored.ReopenedRun | db_lab/table.h:17-31 | a table filled by any run of keys that could be inserted is, after its file was closed and opened again, the same table: well formed, its rows exactly the map of the rows inserted |
| PagerModel.GetPageView | db_lab/pager.h:50-70 | GetPage shows the page, changes none, and creates a page of zeros with the pages before it when the number is new |
| PagerModel.FlushedView | db_lab/pager.h:33-48 | the flush loop changes no page, empties the cache and makes the file reach the last page that was cached |
| PagerModel.CloseView | db_lab/pager.h:18-48 | Close keeps all pages, and opening the file again finds exactly them |
| PagerModel.RunIsSimple | db_lab/pager.h:18-115 | every run of GetPage, writes, Close and Open shows the pages of a store kept in memory |
| PagerModel.SkippedZeroIff | db_lab/pager.h:18-70 | skipped pages are zeros if and only if the file's partial last page is |
| PagerCache.Cache.constructor | db_lab/pager.h:18-31 | Open as a page table of null entries |
| PagerCache.Cache.OnPageMissing | db_lab/pager.h:50-70 | one entry of the page table is filled, the others are untouched |
| PagerCache.Cache.GetPage | db_lab/pager.h:96-115 | the same buffer every time, and the state that the model gives |
| PagerCache.Cache.FlushPage | db_lab/pager.h:72-94 | a cached page is written at its place, an absent one is left alone |
| PagerCache.Cache.Close | db_lab/pager.h:33-48 | the loop over the page table flushes and frees every page |
| ByteStrings.BigEndianRoundTrip | rocksdb_lab/utils.h:36-55 | decoding an encoded number gives it back |
| ByteStrings.BigEndianOrder | rocksdb_lab/utils.h:6-41 | the encoding is injective and keeps the order of unsigned numbers |
| ByteStrings.SwappedIsBigEndian | rocksdb_lab/utils.h:6-16 | swapping the bytes of a little-endian number gives the big-endian encoding |
| ByteStrings.BetweenHasPrefix | rocksdb_lab/rocksdb_impl.cpp:163-186 | what lies between two strings with a common prefix has that prefix |
| ByteStrings.LongOrder | rocksdb_lab/utils.h:36-41 | encoded longs are in numeric order if and only if their signs agree |
| ByteStrings.SwapEndian | rocksdb_lab/utils.h:6-16 | the reverse copy in place |
| ByteStrings.Serialize | rocksdb_lab/utils.h:36-41 | the string gains exactly the big-endian bytes |
| ByteStrings.Deserialize | rocksdb_lab/utils.h:51-55 | the number whose big-endian bytes were given |
| StoreKeys.EncodeInjective | rocksdb_lab/rocksdb_util.h:14-44 | no two keys have the same bytes |
| StoreKeys.EncodesApply | rocksdb_lab/rocksdb_impl.cpp:554-562 | a batch of encoded operations keeps the byte store the encoding of the structured store |
| StoreRanges.DocRangeExact | rocksdb_lab/rocksdb_impl.cpp:256-277 | GetDoc's range holds exactly the fields of one address with numbers below 255, in field order |
| StoreRanges.IndexRangeExact | rocksdb_lab/rocksdb_impl.cpp:163-186 | for all values, addresses and bounds: GetDocs' range holds exactly the index entries of the field whose value is not below the lower and is below the upper bound, where a value that is the beginning of a bound is below it if its address comes before the rest of the bound and zeros |
| StoreRanges.FixedSizeExact | rocksdb_lab/rocksdb_impl.cpp:163-186 | for values as long as the bounds: exactly lower <= value < upper |
| StoreRanges.UpperExactIff | rocksdb_lab/rocksdb_impl.cpp:163-186 | over all byte strings at all addresses up to a last one: a scan with no lower bound returns exactly the values below its upper bound if and only if every rest of that bound, followed by zeros, comes after the last address |
| StoreRanges.LowerExactIff | rocksdb_lab/rocksdb_impl.cpp:163-186 | a scan starts exactly at the values from its lower bound on if and only if that bound meets the same condition |
| StoreRanges.BoundsExact | rocksdb_lab/rocksdb_impl.cpp:163-186 | with two such bounds the scan holds exactly the index entries of the field with lower <= value < upper |
| StoreRanges.StringRangeExact | rocksdb_lab/rocksdb_impl.cpp:163-186 | in particular for bounds without zero bytes, values of any bytes and lengths, and segments below 2^56 |
| StoreRanges.LongRangeExact | rocksdb_lab/rocksdb_impl.cpp:163-186 | over all 64-bit bounds: the scan of a long field returns exactly the values in [lo, hi) if and only if the bounds have the same sign |
| StoreRanges.ZeroByteMissed | rocksdb_lab/rocksdb_impl.cpp:163-186 | a bound that fails the condition: up to s followed by a zero the scan misses the entry of the value s, at every address but the first |
| StoreRanges.TableScanExact | rocksdb_lab/rocksdb_impl.cpp:54-74 | in any store the name scan, which starts at the bare prefix and stops at the first key without it, reaches exactly the table-name keys |
| StoreRanges.TidRangeExact | rocksdb_lab/rocksdb_impl.cpp:76-116 | the per-table scans of Init meet exactly the tables created so far |
| DocSchema.SchemaRoundTrip | rocksdb_lab/doc.h:97-133 | a built schema survives being stored and read back if and only if it has at most 255 fields and no name is longer than 255 bytes |
| DocSchema.LongNameBreaks | rocksdb_lab/doc.cpp:292-312 | a cut name loses a field or brings in a new name |
| DocSchema.Build | rocksdb_lab/doc.cpp:51-76 | the name, id and type tables agree field by field, in name order |
| DocSchema.SerializeSchema | rocksdb_lab/doc.cpp:78-83 | the handler's loop writes the schema's bytes |
| DocSchema.DeserializeSchema | rocksdb_lab/doc.h:97-133 | the loop reads what the parsing function reads, and stops instead of reading past the end |
| DocStore.DocEffect | rocksdb_lab/rocksdb_impl.cpp:617-753 | the batch of one document, described key by key without its order |
| DocInvariants.AddedTableOk | rocksdb_lab/rocksdb_impl.cpp:617-753 | an addition, alone or within a batch, keeps: every uid mapped below the cursor to an address with all its field records, records of the schema's fields below the cursor, every record indexed, index entries below the cursor, offset within the segment |
| DocInvariants.AddressesDistinct | rocksdb_lab/rocksdb_impl.cpp:634-666 | two uids never share an address |
| DocInvariants.ExactIff | rocksdb_lab/rocksdb_impl.cpp:634-730 | index and records agree after an addition if and only if they did before it and it did not change a document in its current segment |
| DocBatch.BatchOk | rocksdb_lab/rocksdb_impl.cpp:526-569 | every batch, with repeated uids too, keeps the table invariant |
| DocBatch.BatchIsSequential | rocksdb_lab/rocksdb_impl.cpp:526-569 | for distinct uids the batch leaves the store, cursor and segment flag of adding one by one |
| DocBatch.AlwaysExactIff | rocksdb_lab/rocksdb_impl.cpp:617-753 | over a sequence of additions index and records agree throughout if and only if none changes a document in its current segment |
| DocContents.BatchHolds | rocksdb_lab/rocksdb_impl.cpp:526-753 | a batch puts its documents in: afterwards the last version of each of its uids is stored with all fields, the other documents are as they were, and no other uid is mapped |
| DocContents.WithLast | rocksdb_lab/rocksdb_impl.cpp:548-556 | of several versions of a uid in a batch the last one counts, and a uid that the batch does not name keeps its document |
| DocRepeats.BatchIffRepeatsOk | rocksdb_lab/rocksdb_impl.cpp:526-753 | a batch of any length, over any number of segments, leaves the store and cursor of adding one by one if and only if each further version of a uid finds that uid in the current segment, the version before it put there too, and that one equal to what is stored if the segment is full by then |
| DocRepeats.BatchWithRoomIff | rocksdb_lab/rocksdb_impl.cpp:526-753 | while the segment has room for the whole batch: if and only if every uid that occurs twice is already in the segment |
| DocRepeats.PairIff | rocksdb_lab/rocksdb_impl.cpp:526-753 | two versions of one document: if and only if it is already in the segment, full or not |
| DocOwners.BatchOwnedIff | rocksdb_lab/rocksdb_impl.cpp:526-753 | after a batch every record belongs to the document mapped to its address if and only if that held before and each uid that occurs again is in the current segment and was put there the time before |
| DocOwners.BatchExactIff | rocksdb_lab/rocksdb_impl.cpp:526-753 | after a batch index and records agree if and only if they did before and every document put in place in the current segment is stored there as it is |
| DocDatabase.CreateTableOk | rocksdb_lab/rocksdb_impl.cpp:755-835 | creating a table keeps store and cache in step |
| DocDatabase.AddDocsOk | rocksdb_lab/rocksdb_impl.cpp:526-569 | adding a batch, whatever uids occur in it and how often, keeps every table's invariant and store and cache in step, and changes no other table's segment |
| DocDatabase.RunOk | rocksdb_lab/rocksdb_impl.cpp:526-835 | every state of every run of CreateTable, AddDoc and AddDocs is in order, repeated uids included |
| DocDatabase.CacheDetermined | rocksdb_lab/rocksdb_impl.cpp:30-136 | only one cache fits a store |
| DocContents.CommandTold | rocksdb_lab/rocksdb_impl.cpp:526-615 | a command does to the tables what it does to a map from uids to documents for each; the answer is OK exactly if the table exists or was created, NotFound for an unknown table, InvalidArgument for what is not built |
| DocContents.RunRefinesTables | rocksdb_lab/rocksdb_impl.cpp:526-835 | in every state of every run the database holds exactly the documents of those maps, the last version added of each uid with all its fields, and every command has answered as they say |
| DocRuns.AddDocsTidyIff | rocksdb_lab/rocksdb_impl.cpp:526-569 | on the whole database: after AddDocs all tables' records have owners, or all indexes agree with the records, if and only if they did before and the batch meets the condition above |
| DocRuns.RunTidyIff | rocksdb_lab/rocksdb_impl.cpp:526-835 | after any run over any number of tables: if and only if every command of the run met the condition in the state it found |
| DocSequential.AddDocsIff | rocksdb_lab/rocksdb_impl.cpp:526-615 | on the whole database, AddDocs leaves the store and cache of calling AddDoc on each document in turn if and only if the repeated uids meet that condition |
| DocSequential.AddDocsIsOneByOne | rocksdb_lab/rocksdb_impl.cpp:526-615 | in particular for every batch of distinct uids |
| DocImpl.RocksDBImpl.PutUid | rocksdb_lab/rocksdb_impl.cpp:634-666 | the uid lookup and its operations, in bytes |
| DocImpl.RocksDBImpl.PutField | rocksdb_lab/rocksdb_impl.cpp:667-730 | a field's deletes and puts, in bytes |
| DocImpl.RocksDBImpl.PutCursor | rocksdb_lab/rocksdb_impl.cpp:733-752 | the cursor moves on, over a segment's end too |
| DocImpl.RocksDBImpl.AddToBatch | rocksdb_lab/rocksdb_impl.cpp:617-753 | one document's operations, with segment and offset passed on |
| DocImpl.RocksDBImpl.BuildBatch | rocksdb_lab/rocksdb_impl.cpp:548-556 | the loop over the documents |
| DocImpl.RocksDBImpl.AddDocs | rocksdb_lab/rocksdb_impl.cpp:526-569 | byte store, cache and status end as the function on values says |
| DocImpl.RocksDBImpl.AddDoc | rocksdb_lab/rocksdb_impl.cpp:571-615 | the same, with the refusal of documents that are not built |
| DocImpl.RocksDBImpl.CreateTable | rocksdb_lab/rocksdb_impl.cpp:755-835 | the same for a new table, and nothing for one that exists |
| DocImpl.RocksDBImpl.constructor | rocksdb_lab/rocksdb_impl.cpp:20-136 | Init on the store of any earlier run rebuilds exactly the cache that was held, through scans and parsing; on an empty store it starts afresh |
| DocImpl.RocksDBImpl.ReadNames | rocksdb_lab/rocksdb_impl.cpp:54-74 | the scan over the table names rebuilds both name maps |
| DocImpl.RocksDBImpl.ReadCursors | rocksdb_lab/rocksdb_impl.cpp:75-105 | the scan over the cursors rebuilds segments and offsets |
| DocImpl.RocksDBImpl.ReadSchemas | rocksdb_lab/rocksdb_impl.cpp:107-135 | the scan over the schemas rebuilds the schema map |
| ThreadPool.StepInv | duckdb_lab/ThreadPool.h:53-106 | every step keeps bound, order, conservation, the meaning of exit and the absence of lost wakeups |
| ThreadPool.ReachableSafe | duckdb_lab/ThreadPool.h:53-94 | the queue is bounded, tasks leave in the order of acceptance, each accepted task is in exactly one place, the accepted tasks are those of the calls that got through, and no call is refused while the pool is open |
| ThreadPool.Drained | duckdb_lab/ThreadPool.h:53-106 | once all workers have returned every accepted task has run and none is accepted later |
| ThreadPool.ClosedExited | duckdb_lab/ThreadPool.h:96-106 | the destructor returns only after every worker has |
| ThreadPool.QuietIsSettled | duckdb_lab/ThreadPool.h:53-106 | no deadlock and no lost wakeup: when no thread can act, calls have returned, or thrown if the pool was stopped, accepted tasks have run, all tasks if it was not, and the workers sleep in an open pool or have returned from a closed one |
| ThreadPool.OwnRunBound | duckdb_lab/ThreadPool.h:53-106 | left to itself the pool rests after a bounded number of steps, in any order |
| ThreadPool.CompletesIff | duckdb_lab/ThreadPool.h:53-106 | it always comes to a settled rest if and only if it has a worker and room for a task |
| ThreadPoolRuns.NothingLost | duckdb_lab/ThreadPool.h:53-94 | in every run each task ever submitted is in exactly one place: queued, in a worker's hands, run, refused with its call, or with a call not yet decided |
| ThreadPoolRuns.AllRun | duckdb_lab/ThreadPool.h:53-106 | at rest every task submitted has run once or its call has thrown; if the destructor was never started every call was accepted and every task has run |
| ThreadPoolRuns.EnqueueOutcome | duckdb_lab/ThreadPool.h:83-92 | a call about to test the queue waits if and only if it is full, and otherwise queues its task at the end if and only if the pool is open, and throws if not |
| ThreadPoolRuns.SleepersMayWake | duckdb_lab/ThreadPool.h:61-85 | whoever waits may wake at any moment, notified or not, and tests its predicate again |
| Snapshots.EvictsOldest | new_meta_lab/Snapshots.h:133-141 | an id beyond the limit pushes out the least one, and only that |
| Snapshots.InsertedTop | new_meta_lab/Snapshots.h:113-141 | the second section keeps the active ids the k largest ever put in |
| Snapshots.TopUnique | new_meta_lab/Snapshots.h:134-141 | there is only one set of the k largest |
| Snapshots.AddAlone | new_meta_lab/Snapshots.h:105-144 | without interference Add accepts exactly the ids above all active ones |
| Snapshots.GetFindsActive | new_meta_lab/Snapshots.h:171-187 | GetSnapshot answers with the snapshot of an active id and with nothing for any other; the case that the source looks up an id it has not checked to be there is exactly an inactive id 0, or the initial maximum on an empty map |
| Snapshots.StepInv | new_meta_lab/Snapshots.h:105-219 | every step of every thread keeps bounds, places and counts |
| Snapshots.ReachableTop | new_meta_lab/Snapshots.h:105-144 | under every interleaving of the two sections the active ids are the k largest ever put in, with the bounds kept |
| Snapshots.ReachableCounts | new_meta_lab/Snapshots.h:105-219 | a count is Add's reference plus the live handles; the callback has run at most once, and exactly when the snapshot is evicted, released and without handles; a refused duplicate keeps its reference for ever |
| Snapshots.RanIsFinal | new_meta_lab/Utils.cpp:6-22 | after its callback a snapshot is never referenced or called back again |
| SnapshotAnswers.TrueIfEntered | new_meta_lab/Snapshots.h:105-144 | in every reachable state the ids of the Adds that answered true, with those still handing over what they evicted, are the ids of the snapshots that went in, as often as they did |
| SnapshotAnswers.AddOutcome | new_meta_lab/Snapshots.h:105-141 | the first section refuses exactly the ids below an active one; the second takes in exactly those not active, unless the holder is done |
| SnapshotAnswers.DoneIff | new_meta_lab/Snapshots.h:189-194 | the holder is done if and only if it has been told so |
| SnapshotAnswers.DoneIsFinal | new_meta_lab/Snapshots.h:116-117 | once it is, nothing goes into the map or out of it by an Add |
| RefcountRace.SerialIsExact | new_meta_lab/Utils.cpp:6-18 | with loads and stores as separate steps of any number of threads, the count is exact if no two changes overlap |
| RefcountRace.CountIsSurvivors | new_meta_lab/Utils.cpp:6-18 | for any number of threads and any order of loads and stores the count is the old one plus the changes that were not overwritten |
| RefcountRace.SameExactIff | new_meta_lab/Utils.cpp:6-18 | any number of references taken, or of references given back: the count is right if and only if no two overlap |
| RefcountRace.AlwaysExactIff | new_meta_lab/Utils.cpp:6-18 | any number of threads: an order of loads and stores gives the right count for every mixture of Ref and UnRef if and only if no two overlap |
| RefcountRace.TwoExactIff | new_meta_lab/Utils.cpp:6-18 | two changes, of whichever kind, leave the right count if and only if they do not overlap |
| SnapshotAlone.AloneIsAtomic | new_meta_lab/Utils.cpp:6-18 | every run with loads and stores as steps in which a change of a count begins only when no other change of that count is under way is a run with atomic counts, of the changes in the order in which they ended |
| SnapshotAlone.AloneIsSafe | new_meta_lab/Utils.cpp:6-18 | in every state of such a run a callback has run at most once, and only for a snapshot that is released and has no handle; while no change is under way the counts are exact |
| SnapshotRaces.Uninterrupted | new_meta_lab/Utils.cpp:6-18 | conversely every run of the holder's threads with atomic counts is one of theirs with loads and stores as steps |
| SnapshotLoss.CallbackWithHandle | new_meta_lab/Proxy.h:34-47 | for every number of versions, a run from the empty holder, loads and stores being steps, ends with no call under way, a live handle on a snapshot, its count 0 and its callback carried out |
| SnapshotsHolders.ReferenceProxy.UnRef | new_meta_lab/Utils.cpp:10-18 | the count falls, and the loop calls every callback at zero |
| SnapshotsHolders.ScopedSnapshot.constructor | new_meta_lab/Proxy.h:34-40 | a scoped handle takes a reference |
| SnapshotsHolders.ScopedSnapshot.Close | new_meta_lab/Proxy.h:42-47 | and gives it back |
| SnapshotsHolders.SnapshotsHolder.Insert | new_meta_lab/Snapshots.h:113-141 | the second section on the holder's fields and the snapshot objects |
| SnapshotsHolders.SnapshotsHolder.Add | new_meta_lab/Snapshots.h:105-144 | both sections and ReadyForRelease |
| SnapshotsHolders.SnapshotsHolder.GetSnapshot | new_meta_lab/Snapshots.h:171-187 | the handle returned and the reference it took |
| SnapshotsHolders.LastUnRefCalls | new_meta_lab/Utils.cpp:10-18 | giving back as many references as are held calls every callback once, with the last one and not before; giving back more does nothing |
| SnapshotsHolders.RoundEach | new_meta_lab/Snapshots.h:202-216 | a round takes one reference from each snapshot listed, with its callbacks if that was the last, and changes no other |
| SnapshotsHolders.RoundIsSteps | new_meta_lab/Snapshots.h:202-216 | from every reachable state a round is the step that takes the list and one step for each snapshot on it, so that the counts of all runs hold through it |
| SnapshotsHolders.SnapshotsHolder.CollectRound | new_meta_lab/Snapshots.h:202-216 | the method empties to_release_, gives back one reference for each time a snapshot was listed, and changes nothing else |
| PortSlot.StepRefines | ck_lab/Port.h:62-72 | one step of any client is nothing or one atomic exchange |
| PortSlot.Linearizable | ck_lab/Port.h:62-72 | every run shows what the completed swaps show when each is one atomic step in the order of the successful exchanges |
| PortSlot.ExchangesAsCalled | ck_lab/Port.h:62-72 | in every run a successful exchange applies the flags and the mask of the last call that its client began |
| PortSlot.AnyMarks | ck_lab/Port.h:110-119 | between any two steps the flags other than HAS_DATA may become any others |
| PortSlot.SwapReturns | ck_lab/Port.h:70-71 | at the end of any run a successful Swap returns the flags and takes over the buffer that the exchanges completed before it, each as one atomic step, have left in the slot |
| PortSlot.LoseThenWin | ck_lab/Port.h:66-68 | after a failed exchange the next attempt can succeed, at any later time, unless another exchange has succeeded or the flags were changed since |
| PortSlot.BuffersPermuted | ck_lab/Port.h:62-72 | the buffers of slot and ports are always those of the beginning in some order |
| PortChannel.ExactlyOnce | ck_lab/Port.h:92-108 | the chunks sent are, in order, those received, the one in the puller's hands and the one in the slot |
| PortChannel.FlagsAsserted | ck_lab/Port.h:92-108 | a guarded push finds no data and a guarded pull finds some |
| PortChannel.PushesWhenNeeded | ck_lab/Port.h:242-245 | in every history a push is under way only after a look, the last so far, that found IS_NEEDED set and no data |
| PortChannel.ExchangeMarks | ck_lab/Port.h:92-108 | in every history the exchange of a push leaves IS_NEEDED and IS_FINISHED as they are; that of a pull leaves IS_FINISHED, and clears IS_NEEDED exactly if the last call of Pull asked for it |
| PortChannel.PushEnds | ck_lab/Port.h:92-95 | from any state in which a guarded push may start it can end, a failed exchange included, with its chunk sent and the other flags as they were, while the other port stands still |
| PortChannel.PullEnds | ck_lab/Port.h:97-108 | the same for a guarded pull, which receives exactly the chunk in the slot, keeps IS_FINISHED and clears IS_NEEDED exactly if set_not_needed |
| Pipes.ConnectAllOk | ck_lab/Pipe.cpp:108-112 | the connection loop joins the open ports to the inputs one to one and leaves every other processor alone |
| Pipes.AddSourceOk | ck_lab/Pipe.cpp:48-59 | AddSource keeps a pipe well formed |
| Pipes.AddSourceIff | ck_lab/Pipe.cpp:48-59 | it takes exactly the sources that nothing is connected to, appends processor and port, raises the stream maximum, and otherwise changes nothing |
| Pipes.AddTransformOk | ck_lab/Pipe.cpp:95-127 | AddTransform keeps it well formed and touches only its processors and the transform |
| Pipes.AddTransformIff | ck_lab/Pipe.cpp:95-127 | it accepts exactly if the pipe has open ports, as many as the inputs, and the transform has outputs: then the k-th open port is joined to the k-th input both ways and the outputs are the open ports; otherwise it names the first condition that fails and changes nothing |
| Pipes.MergePipesOk | ck_lab/Pipe.cpp:198-217 | merging pipes that share no processor gives a well-formed pipe of exactly their processors |
| Pipes.MergedBlocks | ck_lab/Pipe.cpp:210-214 | the processors and the open ports of each part are one block of the merged ones, the parts in their order |
| Pipes.MergedTotals | ck_lab/Pipe.cpp:210-214 | there is nothing else: the lengths are the sums of the parts' lengths, and the streams the sum of their streams |
| Pipes.LeadsLater | ck_lab/Pipe.cpp:95-127 | every link points later in the processor list |
| Pipes.NoneLost | ck_lab/Pipe.cpp:48-217 | after any run of the builder exactly the processors that AddSource or AddTransform accepted are in a pipe, each in only one and once in it |
| Pipes.BuiltPipes | ck_lab/Pipe.cpp:48-217 | whatever is built: open ports are exactly the unconnected outputs in order, all inputs are connected inside the pipe, and no path of links returns to its start |
| PipeSinks.SinkEachOk | ck_lab/Pipe.cpp:61-93 | AddSink's loop as written gets through if and only if every sink has one input and no output, and then joins the k-th sink to the k-th open port and leaves the other inputs alone |
| PipeSinks.MeantCompletes | ck_lab/Pipe.cpp:61-93 | so it leaves the pipe well formed, without open ports and complete, each sink on its port |
| PipeSinks.RunLosesPorts | ck_lab/Pipe.cpp:61-93 | as it runs, AddSink forgets the open ports and changes nothing else; it keeps a pipe well formed if and only if it refuses it, and completes none |
| PipeSinks.BuiltIncomplete | ck_lab/Pipe.cpp:48-217 | every pipe built by the other operations has an open output and is not complete |
| PipeSinks.BuiltGraphForward | ck_lab/Graph.cpp:54-67 | with AddSink as written, every pipe that can be built gets a graph whose direct edges all lead to later nodes |
| PipeObjects.Network.Connect | ck_lab/Port.cpp:7-14 | both ports learn of each other |
| PipeObjects.PipeObject.AddTransform | ck_lab/Pipe.cpp:95-127 | the loops on the mutable pipe and network do what the function says, with every error case |
| PipeObjects.PipeObject.AddSink | ck_lab/Pipe.cpp:61-93 | the open ports are forgotten and nothing else changes |
| PipeObjects.LineDetermined | ck_lab/Pipe.cpp:141-160 | a line is determined by its source and by what was printed before |
| PipeObjects.FirstIsLink | ck_lab/Pipe.cpp:149-159 | the walk goes from a processor to exactly the one that its first output is connected to |
| PipeObjects.SourcesInOrder | ck_lab/Pipe.cpp:131-136 | the sources are in the order of the processor list |
| PipeObjects.PipeObject.ToString | ck_lab/Pipe.cpp:129-162 | the walk terminates, and line k is the chain of first links from source k, in order, up to where it ends or comes to a processor of an earlier line; each processor reachable from a source is printed exactly once and no other |
| PipeObjects.MergePipeObjects | ck_lab/Pipe.cpp:208-216 | the merging loop makes a new pipe of the parts as the value function says |
| PortGraph.Graph.constructor | ck_lab/Graph.cpp:22-69 | the loops give every node exactly one edge per port, in port order |
| PortGraph.EdgesMirror | ck_lab/Graph.cpp:34-69 | an output is connected to an input if and only if the one node has that direct edge, and if and only if the other has its mirror as back edge |
| PortGraph.DirectForward | ck_lab/Graph.cpp:54-67 | in the graph of a well-formed complete pipe direct edges lead to later nodes |

## Left out

- BTreeTheorems.MiddleSplitBreaks: says only that the table stops being well formed; BTreeFailures.MiddleSplitLoses says that something is lost, but not everything that later lookups answer.
- BTreePages.Table.Insert: nothing is stated about the pages when it returns false, the unfinished split of a full internal page, which is an `assert(false)` in the source.
- BTreePages.Page.InsertCell: a page's cell body is two typed arrays, one for leaf rows and one for internal slots, instead of one byte buffer reinterpreted by casts; the placement of headers in the page is not modelled.
- BTreeStored.ReopenedRun: the layout of a page in bytes is a parameter of which only is used that a page written reads back, so placement-new on a page is not modelled; which pages an insertion asks for, and when, is left open.
- PagerModel.RunIsSimple: page numbers are below MAX_PAGES, reads and writes of whole pages succeed, and a file's length fits 32 bits.
- DocDatabase.RunOk: documents are complete (a value for every field), schemas can be stored, and the 64-bit ids are not used up.
- DocSchema.DeserializeSchema: stops at the end of the data, where the source reads on.
- StoreRanges.BoundsExact: the condition is exact for each bound by itself; a scan with two bounds is stated to be exact under both.
- StoreRanges.DocRangeExact: the assembly of GetDoc's and GetDocs' results after the scan is not modelled.
- Concurrent calls into RocksDBImpl are not modelled; its runs are sequential.
- HierarchyGuard.RunsComplete: one guard per thread; the 32-bit counter is unbounded.
- ThreadPool.CompletesIff: running tasks finish and do not call `enqueue` on the same pool; thread creation and futures are not modelled.
- Snapshots.ReachableCounts: each change of `refcnt_` is one step; with loads and stores as steps it holds for the runs of SnapshotAlone, and SnapshotLoss has one in which it fails; counts are unbounded, and the collection resources behind a snapshot are not modelled.
- Snapshots.ReachableTop: at least one version is kept; with none the source reads the first element of an empty map. GetSnapshot with an id that would insert an empty entry, and copies of scoped handles, are excluded.
- SnapshotsHolders.SnapshotsHolder.CollectRound: the collector's exit when the holder is done, and its timed wait, are not modelled.
- PortChannel.ExactlyOnce: `SetFlags` is replaced by arbitrary changes of the flags other than HAS_DATA, because its own loop starts from an uninitialised value; the ports' own `is_finished_` marks are not modelled; the assertion on IS_NEEDED in Pull depends on it and is not claimed.
- Pipes.BuiltPipes: `AddSink` is in PipeSinks; the erasing of empty pipes before a merge is left out. Pipes that were merged are left empty, where the source leaves them to the caller, who is not to use them further.
- PipeObjects.PipeObject.ToString: processors stand for their texts, and lines are lists of them; the line numbers and arrows are not put in.
- PortGraph.Graph.constructor: the numbering of a port by a search through its processor's list is the port's own position.
- rocksdb_lab's executor and blocking queues, key printing and unused comparator, the resource holders of new_meta_lab, the scanners, parsers and generated code of other labs, and all network and library plumbing would add no harder property.
