# Verified models of the storage probes and concurrency benchmarks

This project models, in Dafny, the self-contained algorithms of the repository's examples and
benchmarks, and proves what their comments and assertions promise - on all inputs, all runs and all
interleavings. `dafny verify dfyconfig.toml` checks everything.

* **Page ownership** (`PageFile`, `PageGraph`, `TreeWalk`, `TrunkChain`, `Freelist`, `PageLayout`,
  `Ownership`):
  the forensic walker. It follows the freelist trunk chain and every B-tree of a SQLite-format file
  with an explicit stack, over any bytes at all - cycles, shared subtrees, wild pointers, truncated
  pages - and derives double-owned pages, their parent slots and orphans. Decoding follows the code,
  which reads the header of page 1 at the start of the page like that of every other page. A read
  outside the file stops the program; the model says exactly when that happens.
* **Optimistic commits** (`RowStore`): the row-level contract of `BEGIN CONCURRENT` - private writes,
  validation of the written rows against the begin epoch, installation of all writes or none.
  Its clients are the OLTP burst (`OltpBurst`, `BurstProgress`, `BurstCollision`, `BurstHang`, `WorkerLoop`,
  `BurstRuns`), the parallel bulk writers (`ParallelWriters`) and the readers beside one open write
  transaction (`SnapshotReaders`). Each is a state machine whose steps interleave freely; the engine may serve a
  statement from any version since the transaction began, refuse it, conflict, or fail.
  `WorkerLoop` is the client's nested retry loop itself: the words it sends are exactly the complete
  words of a worker automaton. What a worker can send in the interleaved runs are exactly the beginnings
  of the words of its loop, for all draws and replies (`BurstRuns`).
* **Sorted-batch index maintenance** (`IndexKeys`, `IndexMaintenance`): the same deletes and inserts
  in rowid order and in two sorted passes leave the very same index.
* **Build and churn** (`ChurnProbe`): batched build, band update, band delete and batched reinsert.
* **Slot table** (`GroupSlots`): the grouper's open-addressing table with linear probing.
* **Failure-log scripts** (`ScriptText`, `ScriptLog`, `LineNumbers`, `ScriptMeaning`): the parser of the stateful fuzzer's failure
  logs against the printer that writes them.

`Finite` and `Words` hold the counting, summing and word sizes that several of these share.

## Where the code falls short of what it says

Each of these is proved with its exact condition.

* The churn is announced as an "exact round trip" (`examples/m6_probe.rs:153`). It is one exactly
  when the table does not have one single row: with one row the end of the band wraps around below
  zero, the row is deleted and nothing comes back (`ChurnProbe.BuildAndChurn`).
* History ids are said never to collide (`examples/bench_oltp_concurrent.rs:157-159`). With several
  connections they collide exactly from the 1,000,001st round on, and then a burst in which the engine
  never fails can panic (`BurstProgress.IdsDistinctIff`, `BurstCollision.PanicIff`). `PanicIff` is about
  the worker function `run_worker_burst` and covers every argument it takes; for 0 accounts and for 0
  connections the program's `main` panics before it starts a worker, at the seeding `INSERT` without rows
  and at `workers[0]` (`examples/bench_oltp_concurrent.rs:280`).
* A worker that panics leaves before its barrier wait (`examples/bench_oltp_concurrent.rs:164-183`). What
  that means depends on the build. The release build that the documentation asks for
  (`examples/bench_oltp_concurrent.rs:30`) has `panic = "abort"` (`Cargo.toml:282-287`): the process ends
  with the first panic. In a build where panics unwind no worker ever finishes: each one has panicked or
  waits for ever at the barrier of the same round, and the main thread, which joins them in order, panics
  if the first worker did and otherwise hangs. The integrity equations hold at each of these ends
  (`BurstProgress.BurstEnds`). A burst can hang exactly when panics unwind, there are two connections or
  more, and there is an account and a round (`BurstHang.CanHangIff`).
* "freelist chain loop!" is printed after 100000 trunks. Over all files of one length that have a header
  the engine accepts, the line is right about the chain exactly when that length is below 409,600,008
  bytes, so that page 100001 holds no trunk; page 1 cannot be a trunk, since its magic reads as a leaf count
  (`Freelist.OpenableLineExactIff`, with a longer file whose chain ends as the counterexample).
* The walker looks for the B-tree header of page 1 at its first byte, where the magic is
  (`examples/forensic_walk.rs:74-75`; the real one is at byte 100). It therefore reads page 1 of every
  file with an accepted header as a leaf: with the SQLite magic one of 26996 cells, so the audit stops
  on every such file that has a first page but fewer than 54,000 bytes. On longer files the schema walk
  owns page 1 alone, and any other page of the schema tree is reported as an orphan unless another root
  reaches it or the freelist holds it (`Ownership.SchemaWalkStops`, `Ownership.SmallFileStops`,
  `Ownership.SchemaPagesOrphaned`).
* The failure-log parser does not undo the printer in general. When the message or the failing
  statement of the header holds the start mark, the header alone decides what is read back, so at most
  one script survives: the one that the text behind the mark spells, if its numbered lines count up from
  0. Otherwise a statement is read back as it was exactly when it holds neither mark,
  its first line does not end in a carriage return, and each of its further lines is non-empty, starts
  with no white space, does not end in a carriage return and is neither a `note:` nor a numbered line
  (`ScriptMeaning.RoundTripIff`, `ScriptMeaning.SurvivorIff`, `ScriptLog.AtMostOneScript`).
* The slot table's growth step discards the slots stored before, so it holds every group exactly up
  to 11 groups; beyond that it holds exactly the groups stored since the last growth
  (`GroupSlots.PatternD`).

## Model

| member | source | states |
|---|---|---|
| TreeWalk.PushChildren | examples/forensic_walk.rs:73-92 | stops exactly when a cell pointer or child pointer lies outside the file; otherwise the stack grows by exactly the page's children in slot order |
| TreeWalk.Walk | examples/forensic_walk.rs:61-107 | terminates on every file; stops on a bad read exactly when some reachable page is unreadable; otherwise owned grows by exactly the reachable pages and the two report lists satisfy the walk law |
| PageFile.FirstPage | examples/forensic_walk.rs:72-92 | page 1 of a file with an accepted header has no children for the walker, and reading it stays inside the file exactly from 54,000 bytes on (39,056 for the engine's own format) |
| PageLayout.InRangeIff | examples/forensic_walk.rs:65 | the pages of a file are those that lie in it with all their 4096 bytes |
| PageLayout.InteriorLayout | examples/forensic_walk.rs:73-92 | in any file, on a page with kind byte 2 or 5, its cell count at 3, right-most child at 8, cell pointers from 12 on and a four-byte child at each cell, wherever the cells lie, the children read are exactly those, in slot order |
| PageLayout.OtherLayout | examples/forensic_walk.rs:75-83 | a page whose kind byte is neither 2 nor 5 has no children |
| PageLayout.PageRoundTrip | examples/forensic_walk.rs:73-92 | an encoded interior page with its cells packed from the end is read back, at any page of any file |
| PageLayout.ReadableIff | examples/forensic_walk.rs:74-92 | reading a page stays in the file exactly when all its cell pointers do and, on the kinds 2 and 5, four bytes at every cell |
| PageGraph.PopFresh | examples/forensic_walk.rs:64-92 | popping an unseen page and pushing its children keeps the conservation law (reports + seen + stack = root + pointers of seen pages, with multiplicity) and shrinks the unseen set |
| PageGraph.WalkEnds | examples/forensic_walk.rs:61-107 | with an empty stack the seen set is exactly the pages reachable from the root through pages of the file |
| PageGraph.ReportCount | examples/forensic_walk.rs:65-71 | "visited twice" lines plus "out of range" lines equal 1 + child pointers of seen pages - seen pages |
| PageGraph.ReportsPerPage | examples/forensic_walk.rs:65-71 | per page number: how often it is reported is the number of slots holding it, less the first arrival of a seen page |
| PageGraph.SilentIffTree | examples/forensic_walk.rs:65-71 | a walk prints nothing exactly when the reachable pages form a tree: no pointer leaves the file, none goes to the root, exactly one slot goes to every other page |
| PageGraph.UniqueChain | examples/forensic_walk.rs:69-71 | in such a tree the pointer chain to a page is unique, so there is no cycle and no shared page |
| Freelist.AddLeaves | examples/forensic_walk.rs:44-49 | the free set grows by exactly the leaves of the trunk; the lines are, in order, exactly the leaves already free or listed earlier on the same trunk; with multiplicity no leaf is lost |
| Freelist.WalkFreelist | examples/forensic_walk.rs:24-51 | terminates; states exactly which trunks were taken in, how the run ended (0 reached, guard, overfull trunk, bad read), that the free set is exactly what they list, and exactly which lines were printed |
| PageLayout.TrunkIff | examples/forensic_walk.rs:34-46 | a page is taken in as the trunk with this next page and these leaves if and only if the words next, leaf count, leaves are written from its start on and fit its 4096 bytes |
| PageLayout.StopsWhere | examples/forensic_walk.rs:28-40 | in bytes: the walk ends after at most 100000 trunks, at page 0, at a trunk that claims more leaves than 4096 bytes hold, or at one whose header or leaves leave the file |
| TrunkChain.AccountGrows | examples/forensic_walk.rs:41-49 | one more trunk keeps the account: the free set is everything listed, the lines are the trunks and leaves met again, in order, together they are the list with multiplicity, and no duplicate trunk line means all trunks are distinct |
| TrunkChain.TrunkRepeatsIff | examples/forensic_walk.rs:41-43 | a duplicate trunk line names a page exactly when it is a trunk that the trunks before its turn are or list |
| TrunkChain.LinesPerPage | examples/forensic_walk.rs:41-48 | every page listed has one line less than it is listed times; the free set is exactly the pages listed at all |
| TrunkChain.AccountCount | examples/forensic_walk.rs:41-52 | free set size plus duplicate lines equals the sum of 1 + leaf count over the trunks taken in |
| TrunkChain.RepeatGoesOn | examples/forensic_walk.rs:28-50 | a chain that repeats one trunk can be followed for ever |
| Freelist.EndIsUnique | examples/forensic_walk.rs:24-51 | the file and the head of the chain determine the trunks taken in, where the walk stopped and why |
| Freelist.LoopReport | examples/forensic_walk.rs:28-33 | an endless chain always ends in the loop line; where the file has room for fewer trunks than the guard, page 1 not counted on files with an accepted header, the line also means that the chain is endless |
| Freelist.LoopIsPreceded | examples/forensic_walk.rs:28-43 | on such a file a duplicate trunk line comes before the loop line |
| Freelist.FirstPageNoTrunk | src/storage/sqlitefmt/header.rs:34-40 | page 1 of a file with an accepted header is never taken in as a trunk |
| Freelist.LoopLineExactIff | examples/forensic_walk.rs:28-33 | over all byte sequences of length n, with any header or none, the loop line is printed exactly for endless chains if and only if n < 409,595,912, so that page 100000 holds no trunk |
| Freelist.OpenableLineExactIff | examples/forensic_walk.rs:11-33 | over all files of n bytes that start with a header the engine accepts, the loop line is printed exactly for endless chains if and only if n < 409,600,008, so that page 100001 holds no trunk |
| Ownership.WalkedRoots | examples/forensic_walk.rs:108-121 | page 1 first, and otherwise exactly the positive schema roots, cut to 32 bits |
| Ownership.WalkedRootsIff | examples/forensic_walk.rs:108-121 | a page is walked from if and only if it is page 1 or a positive root of the schema modulo 2^32 |
| Ownership.WalkAll | examples/forensic_walk.rs:59-122 | owned is exactly what some walked root reaches; the run stops exactly when some root reaches an unreadable page |
| Ownership.ReportChildren | examples/forensic_walk.rs:200-223 | the report lines of one page are exactly its slots naming a target, each once, and all children go on the stack |
| Ownership.Probe | examples/forensic_walk.rs:188-226 | the parent search of a root reports exactly the slots of reachable pages that name a double-owned page, each once |
| Ownership.RunAudit | examples/forensic_walk.rs:20-246 | the whole audit: exactly when it stops on a bad read, and otherwise owned, free, overlap, parents and orphans as defined by reachability and the trunk chain |
| Ownership.AuditIsUnique | examples/forensic_walk.rs:20-246 | file and schema determine the free set with its lines, the owned, double-owned and orphaned pages, and for every root the parent lines up to their order |
| Ownership.DoubleOwnedHasParent | examples/forensic_walk.rs:179-235 | every double-owned page that is not a walked root has a reported parent slot |
| Ownership.ParentIsReal | examples/forensic_walk.rs:206-221 | every reported parent is a real slot of a reachable page that names a double-owned page |
| Ownership.ReportsAreAllParents | examples/forensic_walk.rs:206-221 | the report lines naming one page are all of its parent slots below the root |
| Ownership.PagesAccountedFor | examples/forensic_walk.rs:236-246 | for any file: every listed page is owned, free or orphan; orphans are disjoint from both; over the listed pages orphans = pages - owned - free + double-owned |
| Ownership.AllPagesIff | examples/forensic_walk.rs:236 | the page list, cut to 32 bits, holds every page of the file exactly when there are fewer than 2^32 |
| Ownership.SchemaWalkStops | examples/forensic_walk.rs:61-108 | on a file with an accepted header the walk of page 1 makes a bad read exactly when the file, of at least one page, is shorter than 54,000 bytes (39,056 for the engine's own format) |
| Ownership.SmallFileStops | examples/forensic_walk.rs:61-108 | on such a file the audit stops on a bad read, whatever the schema lists |
| Ownership.SchemaPagesOrphaned | examples/forensic_walk.rs:61-122 | for any file with an accepted header: the schema walk owns page 1 alone, and any other listed page is an orphan exactly when no other walked root reaches it and it is not in the free set |
| Ownership.OrphanCount | examples/forensic_walk.rs:236-246 | on such a file orphans = pages - owned - free pages of the file + double-owned |
| RowStore.CommitKeepsValid | src/storage/concurrent.rs:581-591 | after any commit a row still has one value in all versions from its stamp on |
| RowStore.ReadsAreCurrent | src/storage/concurrent.rs:2003-2012 | what a validated transaction read of a row it writes, at any version served since it began, is what the store holds at commit |
| Finite.TotalWrite | examples/bench_oltp_concurrent.rs:325-335 | writing one row moves a sum over the table by exactly the change of that row |
| Finite.TotalUnion | examples/bench_full_vs_sqlite.rs:1465-1471 | sums over disjoint row sets add |
| OltpBurst.CommitIsSerial | examples/bench_oltp_concurrent.rs:98-127 | a transaction allowed to commit writes exactly what the whole payment would write if run alone on the current store, so no update is lost |
| OltpBurst.CommitWrites | examples/bench_oltp_concurrent.rs:98-127 | in numbers: a successful commit leaves the current store with the account drawn debited by the delta drawn and one history row (w + 1) * 1000000 + round added |
| OltpBurst.GateValidates | examples/bench_oltp_concurrent.rs:20-22 | in plain mode the write gate guarantees that nothing relevant was committed since the transaction's first write |
| OltpBurst.StepInv | examples/bench_oltp_concurrent.rs:151-185 | every begin, statement, refusal, commit, conflict, retry, barrier and panic step keeps the invariant of store, workers and gate |
| OltpBurst.SerialSums | examples/bench_oltp_concurrent.rs:318-355 | a serial run of payments conserves balances + deltas and adds one history row each |
| OltpBurst.BurstIntegrity | examples/bench_oltp_concurrent.rs:318-355 | in every state of every run: the store is the serial run of the committed payments, balances = 10000 * scale - sum of deltas, history rows = successful commits |
| OltpBurst.ResetRestores | examples/bench_oltp_concurrent.rs:258-265 | after any burst the reset brings back exactly the seeded state |
| BurstProgress.LastArrival | examples/bench_oltp_concurrent.rs:281 | the barrier opens only when every other worker waits at it |
| BurstProgress.LockStep | examples/bench_oltp_concurrent.rs:151-183 | in every reachable state no two workers are more than one round apart, and every worker has passed the barrier once per round |
| BurstProgress.AttemptBound | examples/bench_oltp_concurrent.rs:160 | no run begins more than conns * rounds * 8 attempts |
| BurstProgress.RunsAreBounded | examples/bench_oltp_concurrent.rs:151-185 | every run ends, whatever the engine answers, within a bound linear in conns * rounds |
| BurstProgress.StuckIff | examples/bench_oltp_concurrent.rs:151-185 | in every reachable state nothing at all can happen if the process was ended by a panic or every worker has finished, has panicked or waits at the current barrier; otherwise a step without refusal or failure by the engine is possible |
| BurstProgress.HeldUpIff | examples/bench_oltp_concurrent.rs:151-185 | whatever the others are doing, a worker of a live process can take a step of its own if and only if it has not ended, does not wait at the current barrier, and does not come with its first write to a write gate that is held in plain mode |
| BurstProgress.PanicHolds | examples/bench_oltp_concurrent.rs:164-183 | while a worker has panicked in round r, no worker is finished and none goes past round r |
| BurstProgress.BurstEnds | examples/bench_oltp_concurrent.rs:281-355 | how any run ends, whatever failed: without a panic all workers are through all rounds and are joined; where panics abort, the first panic was the last step; where they unwind, every worker has panicked or waits for ever, and the main thread panics or hangs as the first worker says; the integrity equations hold in each case |
| BurstProgress.EveryRunCanEnd | examples/bench_oltp_concurrent.rs:151-185 | every run can be continued to such an end with no refusal and no failure on the way; a run ended by an abort is there already |
| BurstHang.HangIsReachable | examples/bench_oltp_concurrent.rs:164-183 | where panics unwind, two connections, a round and an account are enough: some run ends with the main thread kept in its join for ever |
| BurstHang.CanHangIff | Cargo.toml:282-287 | a burst can hang if and only if panics unwind, there are at least two connections, and there is a round and an account |
| BurstProgress.IdsDistinctIff | examples/bench_oltp_concurrent.rs:157-159 | history ids are pairwise distinct exactly when there is one connection or at most a million rounds |
| BurstProgress.HistoryRows | examples/bench_oltp_concurrent.rs:152-159 | in every state of every run each history row has the id (w + 1) * 1000000 + r of a round r of a worker w, an account in 0 .. scale and a delta in -100 .. 99 |
| BurstProgress.RunNoPanic | examples/bench_oltp_concurrent.rs:160-180 | with accounts, distinct ids and an engine that never fails no worker panics: the id inserted is free and the account read is there, in whatever version serves them |
| BurstProgress.BurstCompletes | examples/bench_oltp_concurrent.rs:290-355 | a panic-free burst with an engine that never fails ends with every worker through all rounds, and the integrity assertions hold |
| BurstCollision.CollisionPanics | examples/bench_oltp_concurrent.rs:157-179 | with two connections and more than a million rounds a failure-free run into a panic exists |
| BurstCollision.NoAccounts | examples/bench_oltp_concurrent.rs:152 | the worker function panics at its first draw when it is given no accounts |
| BurstCollision.PanicIff | examples/bench_oltp_concurrent.rs:152-179 | for the worker function with any arguments: workers of a burst in which the engine never fails never panic exactly when there are no connections or no rounds, or there are accounts and one connection or at most a million rounds |
| WorkerLoop.RunOneTxn | examples/bench_oltp_concurrent.rs:98-127 | sends exactly debit, append and read in this order, for the given payment, up to the first that is not served, and reports how it ended |
| WorkerLoop.RunRound | examples/bench_oltp_concurrent.rs:152-183 | sends the draw and then at most eight attempts, all with the payment drawn; pays or breaks exactly as the first attempt that is not retried says; counts exactly the conflicts before it |
| WorkerLoop.RunWorkerBurst | examples/bench_oltp_concurrent.rs:133-187 | for all draws and engine replies: what is sent is the word of the loop, with one barrier wait per round passed; commits and conflicts are counted exactly; it ends early only in a round that breaks |
| WorkerLoop.LoopLeads | examples/bench_oltp_concurrent.rs:133-187 | every word of the loop is a complete word of the worker automaton, and the client's counters are the automaton's |
| WorkerLoop.ParseLoop | examples/bench_oltp_concurrent.rs:133-187 | every complete word of the automaton is the word of the loop for some draws and replies, which are read off the word |
| WorkerLoop.LoopIsAutomaton | examples/bench_oltp_concurrent.rs:133-187 | the loop and the automaton have the same complete words |
| WorkerLoop.RunSends | examples/bench_oltp_concurrent.rs:133-187 | in every interleaved run of the burst, what each worker sends is a word of the automaton and leads to that worker's state |
| WorkerLoop.EachWorkerLoops | examples/bench_oltp_concurrent.rs:133-187 | each worker of every interleaved run is a run of the loop: at any moment it has sent a beginning of the loop's word for some draws and replies, and the whole word once it has ended |
| BurstRuns.WordHasRun | examples/bench_oltp_concurrent.rs:133-187 | for any accounts in 0 .. scale, deltas in -100 .. 99 and any replies to each of eight attempts, for any number of connections: an interleaved run in which the worker sends the word of its loop, or any given beginning of it |
| BurstRuns.WordIff | examples/bench_oltp_concurrent.rs:133-187 | what a worker can have sent in some run are exactly the beginnings of the words of its loop, for all draws in range and all replies |
| BurstRuns.WordsHaveRun | examples/bench_oltp_concurrent.rs:133-187 | with one connection or at most a million rounds, for any draws in range and any replies that break no round: one run in which all workers send the whole words of their loops and finish |
| ParallelWriters.DisjointIff | examples/bench_full_vs_sqlite.rs:1452 | the writers' ids are pairwise distinct exactly when there is one writer or the stride is at least the rows per writer |
| ParallelWriters.StepInv | examples/bench_full_vs_sqlite.rs:1446-1460 | every step of every writer, a failing one too, keeps: the table is the rows of the landed writers, no two of which share a row; every row of an open writer was free at some moment since it began |
| ParallelWriters.LandOne | examples/bench_full_vs_sqlite.rs:1415-1416 | whatever the commit order, a writer that shares no row with those landed before adds exactly its own rows |
| ParallelWriters.LandedApart | examples/bench_full_vs_sqlite.rs:1415-1416 | whatever the ids, a writer that passes validation shares no row with the table it lands in |
| ParallelWriters.InsertIsFresh | examples/bench_full_vs_sqlite.rs:1451-1456 | with disjoint ids the next id of an open writer is free in every version that may serve it |
| ParallelWriters.LandValidates | examples/bench_full_vs_sqlite.rs:1458 | with disjoint ids validation of a writer never fails, whoever committed meanwhile |
| ParallelWriters.AllRowsLand | examples/bench_full_vs_sqlite.rs:1465-1471 | in every state of every run, whatever the ids and whatever failed or panicked: the table is exactly the rows of the landed writers, with count and value sum to match; once all have landed there are writers * perWriter rows with value sum perWriter * writers * (writers - 1) / 2 |
| ParallelWriters.LandedRowsAre | examples/bench_full_vs_sqlite.rs:1451-1456 | id k is in that table exactly when a writer w with w * stride <= k < w * stride + perWriter has landed, and its value is w |
| ParallelWriters.NeighboursClash | examples/bench_full_vs_sqlite.rs:1415-1416 | where the stride is shorter than the rows per writer, two neighbouring writers never both land, in no run |
| ParallelWriters.RunNoPanic | examples/bench_full_vs_sqlite.rs:1446-1460 | with one writer or a stride at least the rows per writer, no writer panics while the engine never fails |
| ParallelWriters.NobodyWaits | examples/bench_full_vs_sqlite.rs:1446-1460 | whatever the other writers have done, a writer of a live process that has not ended can take its next step, its insert served by any version since it began |
| ParallelWriters.StuckIff | examples/bench_full_vs_sqlite.rs:1431-1467 | a run can go on without a failure unless a panic has aborted the process or every writer has landed or panicked, and then no step at all is left |
| ParallelWriters.EveryRunCanLand | examples/bench_full_vs_sqlite.rs:1431-1467 | where there is one writer or the stride is at least the rows per writer, every run that has not been aborted can be continued without a failure until every writer that had not panicked has landed |
| ParallelWriters.RunsAreBounded | examples/bench_full_vs_sqlite.rs:1431-1467 | whatever the ids, no run is longer than writers * (perWriter + 2) steps |
| ParallelWriters.PanicIff | examples/bench_full_vs_sqlite.rs:1451-1458 | with an engine that never fails: some run has a writer that panics if and only if there are several writers and the stride is shorter than the rows per writer |
| ParallelWriters.LandAllIff | examples/bench_full_vs_sqlite.rs:1431-1467 | all writers can land, with an engine that never fails, if and only if there is at most one or the stride is at least the rows per writer |
| SnapshotReaders.StepInv | benches/concurrent_rw.rs:53-95 | every writer and reader step keeps: the committed versions are the initial and the final table, and each reader's answers come from versions that never go back, lookup and count of one iteration from the same one |
| SnapshotReaders.TableRows | benches/concurrent_rw.rs:38-60 | the two tables a reader may see hold exactly the ids below the initial count, and below the initial count plus the inserts |
| SnapshotReaders.OneTablePerIteration | benches/concurrent_rw.rs:55-74 | the lookup and the count of one iteration are answered by one and the same table, the initial or the final one: it finds exactly one row, counts that table's rows and never a number between, and the new count only after COMMIT; this is what the read guard is for |
| SnapshotReaders.NeverBack | benches/concurrent_rw.rs:55-74 | once a reader has counted the new rows, each of its later lookups and counts sees them |
| SnapshotReaders.NewRowsStay | benches/concurrent_rw.rs:55-74 | the same across readers: after any reader's count of the new rows every reader is answered by the final table |
| SnapshotReaders.ReadersNeverWait | benches/concurrent_rw.rs:55-74 | a reader can take its next step in every state of every run |
| SnapshotReaders.WriterWaitsIff | benches/concurrent_rw.rs:76-95 | until its commit the writer can take its next step exactly when no reader is between taking the lock and its count |
| IndexKeys.BytesOrder | examples/probe_index_maint.rs:256-258 | big-endian encoding is injective and byte order is numeric order |
| IndexKeys.LessIsNumeric | examples/probe_index_maint.rs:310-311 | sorting by (bytes, rowid) is sorting by (value, rowid) |
| IndexKeys.SortedIsUnique | examples/probe_index_maint.rs:310-319 | a sorted index is determined by its entries |
| IndexKeys.SortSpec | examples/probe_index_maint.rs:310-311 | the sort of a pass is sorted and keeps the entries |
| IndexMaintenance.SplitsInTwoPasses | examples/probe_index_maint.rs:287-319 | any operation list without an insert before a delete of the same entry gives the same contents interleaved as with all deletes first and all inserts after |
| IndexMaintenance.BatchDeletesFirst | examples/probe_index_maint.rs:277-284 | the experiment's operation list has that shape, for every key cycle, touched count and shift |
| IndexMaintenance.RowidOrderResult | examples/probe_index_maint.rs:288-296 | the rowid-order pass leaves exactly one entry per rowid with the moved keys |
| IndexMaintenance.IndexTree.AppendHinted | src/storage/btree.rs:4464-4480 | appends exactly when the entry is past the last one, otherwise inserts in order; the entries grow by exactly the new one |
| IndexMaintenance.IndexTree.InsertIndex | src/storage/btree.rs:11301-11314 | keeps the order and adds exactly the entry |
| IndexMaintenance.IndexTree.DeleteIndex | src/storage/btree.rs:11412-11430 | removes exactly the entry if it is there, tells whether it was, and keeps the order |
| IndexMaintenance.Build | examples/probe_index_maint.rs:264-270 | the bulk build appends at every step and leaves entry (k, k) for every k below the cycle |
| IndexMaintenance.MakeOps | examples/probe_index_maint.rs:276-285 | the list is delete (i mod cycle, i), insert ((i + shift) mod cycle, i) for i = 1 .. touched, with the never-negative remainder |
| IndexMaintenance.OpsMeaning | examples/probe_index_maint.rs:276-285 | in numbers: operations 2i - 1 and 2i delete rowid i from key i mod cycle and insert it with key (i + shift) mod cycle |
| IndexMaintenance.ApplyInOrder | examples/probe_index_maint.rs:288-296 | applies the operations as they come |
| IndexMaintenance.ApplySorted | examples/probe_index_maint.rs:300-319 | leaves the old entries less the deletes plus the inserts |
| IndexMaintenance.ExperimentF | examples/probe_index_maint.rs:251-319 | both orders leave the identical index, sorted, with the final key of every rowid |
| IndexMaintenance.FinalKeysMeaning | examples/probe_index_maint.rs:262-285 | rowid r ends with key (r + shift) mod cycle if touched and with key r otherwise; the rowids stay the same exactly when touched < cycle |
| ChurnProbe.InsertBatch | examples/m6_probe.rs:45-56 | one statement inserts the generated rows start + 1 .. start + n, or nothing exactly when one of the ids is taken |
| ChurnProbe.JoinGenerated | examples/m6_probe.rs:118-127 | consecutive batches of generated rows are one generated run |
| ChurnProbe.Build | examples/m6_probe.rs:118-127 | every build leaves exactly rows 1 .. rows, and no batch meets a taken id |
| ChurnProbe.Reinsert | examples/m6_probe.rs:169-181 | the batched reinsert into a cleared band adds exactly the adjusted rows of the band |
| ChurnProbe.Churn | examples/m6_probe.rs:142-181 | the churned table on any input, row by row: the band comes back with generated values, every other row stays, with one added on the ids up to cap that leave 7 modulo 20; below two rows the band end wraps around and all ids go |
| ChurnProbe.BuildAndChurn | examples/m6_probe.rs:102-188 | build and churn leave exactly the rows 1 .. rows with value i mod 1000000, plus one where i mod 20 is 7 and i <= cap, exactly when rows is not 1 |
| ChurnProbe.MassDeleteCount | examples/m6_probe.rs:198-218 | the mass delete leaves exactly the ids that are above its cap or leave 4 or more modulo 10, and they are as many as the probe's own count says |
| GroupSlots.MaskKeeps | examples/probe_mi_growth.rs:81-83 | masking by a power of two less one leaves smaller numbers alone |
| GroupSlots.MaskIs | examples/probe_mi_growth.rs:81-83 | masking by a power of two less one is the remainder modulo that power, for every number |
| GroupSlots.FreeSlot | examples/probe_mi_growth.rs:76-84 | a table holding fewer groups than slots has a free slot |
| GroupSlots.FindFree | examples/probe_mi_growth.rs:81-84 | the probe loop ends at a free slot, with all slots on the way from home taken |
| GroupSlots.Grow | examples/probe_mi_growth.rs:76-80 | the new capacity is 16 or twice the old one, a power of two, all slots empty |
| GroupSlots.StoreHolds | examples/probe_mi_growth.rs:81-85 | storing a group at the end of its probe run keeps every stored group reachable from its home slot |
| GroupSlots.HoldsInPlace | examples/probe_mi_growth.rs:75-85 | a stored group g has its whole hash g * 0x9E3779B97F4A7C15 mod 2^64 in its slot, and every slot that probing from that hash modulo the capacity meets before is taken |
| GroupSlots.ProbeFinds | examples/probe_mi_growth.rs:81-85 | probing meets every stored group before any free slot, and a discarded group is nowhere in the table |
| GroupSlots.PatternD | examples/probe_mi_growth.rs:65-88 | for every n below 2^32 all loops end, the capacity is a power of two under the load bound, the table holds exactly the groups since the last growth, which came at the load bound of half the capacity, and all groups exactly when n <= 11; each is where its hash puts it |
| ScriptText.FindFirst | examples/bisect_sweep.rs:101-112 | the search finds the first occurrence at or after a position, or that there is none |
| ScriptText.LinesConcat | examples/bisect_sweep.rs:105 | splitting into lines distributes over text that ends with a line feed |
| ScriptText.ParseDecimal | examples/bisect_sweep.rs:112 | every printed 64-bit index parses back to itself |
| LineNumbers.NumberedIff | examples/bisect_sweep.rs:110-112 | a line is the first one of statement n exactly when its first ": " comes behind white space, an optional plus sign, decimal digits worth n < 2^64 and white space; the text starts behind it |
| LineNumbers.PlainIff | examples/bisect_sweep.rs:110-119 | every line without such a number in front of its first ": " is a continuation line |
| LineNumbers.TrimStartIff | examples/bisect_sweep.rs:106 | what is kept of a line is what follows its leading white space |
| LineNumbers.PaddedIs | tests/stateful_fuzz.rs:547-549 | the index is printed right-aligned in four columns, or in as many as it needs |
| LineNumbers.DecimalIs | tests/stateful_fuzz.rs:547-549 | its digits are worth the index, without leading zeros |
| ScriptLog.ParseScript | examples/bisect_sweep.rs:99-123 | the loop over the lines of the body computes the fold of the line effect |
| ScriptLog.ChunkParse | tests/stateful_fuzz.rs:547-549 | a printed statement parses to exactly one item with its index and text if its lines are good, and to strictly less text if not |
| ScriptLog.BodyOfLog | examples/bisect_sweep.rs:101-104 | the body found in a printed log is the whole printed script exactly when no statement holds a marker, and otherwise it is cut at a dash of a statement |
| ScriptLog.HeaderMarker | tests/stateful_fuzz.rs:542-546 | the printed header holds a mark exactly when the message or the failing statement does |
| ScriptLog.HeaderDecides | examples/bisect_sweep.rs:101-104 | when the header holds the start mark, what is read back depends on the header alone |
| ScriptLog.AtMostOneScript | examples/bisect_sweep.rs:101-104 | after such a header at most one script comes back |
| ScriptMeaning.HeadsAre | examples/bisect_sweep.rs:110-116 | the heads of the blocks are exactly the numbered lines |
| ScriptMeaning.ReadsBlocks | examples/bisect_sweep.rs:99-123 | for any text: the parser returns one item for each numbered line, with its number and its text joined by the kept lines up to the next numbered one |
| ScriptMeaning.HeaderQuotes | tests/stateful_fuzz.rs:542-546 | with the start mark in the header the text read is the one behind it in the message, with the failing statement after it, or else in the failing statement, as far as the next mark |
| ScriptMeaning.NoMarkNoScript | examples/bisect_sweep.rs:101-104 | text without the start mark holds no statement |
| ScriptMeaning.RoundTripIff | tests/stateful_fuzz.rs:542-552 | for every failure and script: parsing the printed log gives back all statements with their indexes exactly when all statements are clean, or, when the message or the failing statement holds the start mark, exactly when the text behind it, as far as the next mark, spells the script: its numbered lines carry 0, 1, 2 and so on and each one is its statement, with the lines up to the next |
| ScriptMeaning.SurvivorIff | tests/stateful_fuzz.rs:542-552 | with the start mark in the message or the failing statement some script comes back exactly when the numbered lines behind it count up from 0 |
| ScriptLog.EnumeratedShape | tests/stateful_fuzz.rs:547-549 | item j is (j, statement j), and there are as many items as statements |

## Left out

- The engine itself (pager, B-tree pages, WAL, planner, SQL): only the row-level commit contract and the contents of an index are modelled. Page-granularity conflicts, read failures for pages newer than the snapshot and failed merges appear only as conflicts, refusals or errors that may happen at any time.
- A commit that fails has installed nothing: a commit that installs its rows and then reports an error is not modelled.
- A `BEGIN CONCURRENT` commit is modelled as validating the rows it wrote; other grounds for a conflict are covered because the burst may meet a conflict at any commit.
- The program around the burst: its `main` is modelled from the start of the workers to the last join, not its set-up, which panics for 0 accounts and for 0 connections.
- Timing, think time, busy timeouts, RSS, fsync counts, throughput and all printed text.
- Threads: the burst, the bulk writers and the readers are state machines whose steps interleave, on values; the burst's client loop is also modelled as a loop (`WorkerLoop`), on values, the insert loops of the bulk writers and the reader loops are not.
- BurstProgress.BurstEnds: when the main thread panics where panics unwind, the process ends with it; the workers still waiting then are cut off, which the model does not follow.
- OltpBurst.StepInv: where panics abort, the panic step itself is the last one; statements that other threads finish while the process is going down are not modelled.
- The random generator of the burst: accounts and deltas are arbitrary values in the drawn ranges. Balances, deltas and sums are unbounded integers.
- The rows of the accounts table have no name column and no index, which no checked property reads.
- PageFile.FirstPage: of the checks made on opening a file only those of the magic and of the smallest length are modelled; the counterexample of `Freelist.OpenableLineExactIff` starts with the header of an empty database.
- `dump_tree`, the freeblock sanity loop, the declared-count mismatch line and the final `auto_vacuum` print of the forensic walker: they do not feed the ownership result.
- TreeWalk.PushChildren: the bytes of a page are read through the decoding functions of PageFile, which check the same bounds cell by cell in the same order.
- ChurnProbe.Churn: arithmetic on u64 wraps around, as in the optimized build the probe is run as; a build with overflow checks would stop instead below two rows, where the band end drops below zero. Row counts are below 2^63.
- The text of the batched INSERT statements: a batch is modelled as the rows it names.
- The stop flag of the readers in the concurrent read/write benchmark: a reader may be observed after any number of operations.
- GroupSlots.PatternD: the states and output rows that the pattern pushes along are left out; capacities stay below the 64-bit limit for n below 2^32.
- IndexMaintenance.ApplySorted: the standard library's sort is modelled by its contract (a sorted rearrangement), computed by insertion; entries that compare equal are equal, so stability plays no part.
- Key cycles of the index experiment are below 2^63, where the cast of the cycle to i64 is exact, and rowid plus shift is taken not to overflow.
- IndexTree objects stand for one index each; pages, hints and the on-disk layout are not modelled.
