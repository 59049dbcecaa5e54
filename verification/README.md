# PagerDB in Dafny

A model of PagerDB, a crash-safe key-value engine, and proofs about it. Six layers are
modelled, each in the form the code has, and joined in one theorem:

1. **Transactions and recovery.** `TxnMachine` is a step machine over the tree's map, the
   log, the lock table, the transactions' undo lists and the counter of begun transactions;
   every step appends at most one record, so a crash can fall between any two.
   `TxnTheorems` proves that recovering any prefix of the log of any run gives exactly the
   committed state unless the one leak below occurs, and that committed transactions are
   serializable in commit order. `TxnHandle` is the transaction object, `Locks` the lock
   manager, `WaitDie` its progress and the shape of its waits.
2. **Pages, log and checkpoints.** `PageRedo`, `WalMachine` and `WalProof` model the
   write-ahead rule with operation groups, torn page and meta writes and the dual-meta
   checkpoint, and prove that a crash anywhere recovers every page. `OpGroups` shows that
   redoing complete groups is running the complete operations one after another. `Recovery`
   is the recovery code as loops.
3. **B+ tree.** `BTree` is Get, Delete and the splitting Put over a store of pages, proved
   to be a map; `TreeRoom` says exactly when a Put finds no room; `TreeShape` and its
   companions hold the tree laws, `Scans` the cursors, `LatchMachine` and `LatchProof` the
   latch protocol as steps of any number of threads.
4. **The engine.** `EngineMachine` runs the first three together: threads of the latch
   protocol write for transactions, each write logs the code's own records (images, key
   records, allocations, root changes, one record a step, any other thread's steps in
   between) and holds its pages until the last of them. `EngineTheorems` proves that every
   prefix of every run's log holds a lawful tree with exactly the complete effects.
   `EndToEnd` takes any crash of any such run through the recovery loops.
5. **Slotted pages.** `SlottedPage` and `NodeView` are the byte array with slots, dead bytes
   and compaction, and the leaf edits on it. `Buffers` is the buffer pool with its LRU list.
6. **Bytes.** `Crc32` (slicing by eight equals the bitwise checksum), `LogCodec` and
   `LogFile` (record encoding, the writer's LSN bookkeeping, the reader's scan).

The theorem is `EndToEnd.RecoverAfterCrash`: for every run of the engine and every crash the
pages, the log and the two metas allow, opening the file and recovering yields a lawful tree
whose map is the committed one if and only if no loser leaks. `EndToEnd.MetasAgree` adds
that inside a checkpoint both metas recover to the same map.

How the other layers meet it: `NodeView` shows that a leaf on a page takes an edit exactly
when `Nodes.Fits` says so, which is the test `BTree`, `LatchMachine` and `PageRedo` use;
`BTree` proves the same edits and splits as sequential code; `LogFile.Survives` says that
what a crash leaves of the log file reads back as a prefix of its records.

Conventions. In the recovery layers an LSN is the number of a record, counted from the
checkpoint; in `LogFile` it is what the code uses, the byte offset past the base. Numbers are
unbounded except where a width matters (`LE`, `Crc32`, the length fields, `MAX_FIELD`).
Whether an I/O call fails, which pages a crash leaves torn and how much of the unflushed log
survives are free choices of the environment. Tree operations that fail half-way and poison
the handle end the run.

Failures are decided, not merely allowed: where an operation may refuse, its contract says
when. `TreeRoom.PutOverflows` is the condition for a Put, `TreeRoom.Refuses` adds the size
limit, and undo, at run time and in recovery, stops only at a before-image the tree refuses.

## Where the code and its documentation part

- **A loser's first insert can survive.** When a transaction makes the very first insert
  into an empty database, the code logs an allocation, a page image and a root change, but
  no key record (`src/btree/btree.cc:373-392`). If it crashes before committing, undo finds
  no before-image and the key stays. `EngineLeak.LeakComesBack` takes such a run of the
  whole engine through a crash and the recovery loops, for any key and value;
  `TxnTheorems.RecoveryExactAtEveryCut` and `EndToEnd.RecoverAfterCrash` prove that recovery
  is exact if and only if this has not happened, and `RootedNeverLeaks` that it cannot once
  the tree has a root.
- **Waits can form a cycle for a while.** `include/kvstore/txn/lock_manager.h:10-15` says the
  waits-for graph never has a cycle. `WaitDie.WaitsCanCycle` is a run in which it has one.
  In every run a sleeper waits for an older transaction only if that one was granted a
  shared lock while the sleeper, wanting the lock exclusively, already slept
  (`OvertakenBySharing`, `OnlySharingOvertakes`); every cycle passes through such an
  overtaken sleeper, so without one the graph is acyclic (`NobodyOvertakenNoCycle`). Each
  unwoken sleeper also has a strictly younger holder in its way, hence the youngest
  transaction is never stuck and the oldest never dies.
- **Records near 1 KB can break a split.** `include/kvstore/db.h:309` gives about 1 KB as the
  reliable limit. `TreeOverflow.OneKilobytePoisons` is a lawful tree of records under 1000
  bytes on which a Put of another fails. `BPlusTree.Put` fails if and only if `PutOverflows`
  holds of the pages, the root and the record before the call: the half of the leaf the
  record belongs to lacks room for it, or some full parent's half lacks room for the
  separator, or the last separator does not fit a new root. It never fails when every
  record costs at most 213 bytes.

## Model

| member | source | states |
|---|---|---|
| `Keys.LessIsLexicographic` | src/btree/node.cc:203-232 | one key is below another exactly when at the first place where they differ it ends or has the smaller unsigned byte |
| `LittleEndian.DigitOf` | src/wal/log_record.cc:15-29 | byte i of a number written little-endian is its digit of weight 256 to the i |
| `Nodes.FindKeyIndex` | src/btree/node.cc:203-232 | the binary search returns the place where the key is or belongs, and `found` exactly when it is there |
| `Nodes.LowerBoundCorrect` | src/btree/node.cc:203-232 | on ascending keys that place separates smaller keys from the rest, and the key is there iff it is among the keys |
| `Nodes.UpdateCost` | src/btree/btree.cc:437-468 | erasing a record and writing it again gives the same leaf as updating it, at the same cost: a refused update is refused again after delete and reinsert |
| `Nodes.HoldableIs` | src/btree/btree.cc:272-284 | the size limit tested before a Put is exactly that an empty leaf can hold the record |
| `TreeShape.ChildHoldsKey` | src/btree/node.cc:451-472 | the child picked (equal keys go right) is the one whose range holds the key, one level down |
| `TreeShape.LeafDecides` | src/btree/btree.cc:186-191 | the leaf whose range holds a key decides, both ways, whether and with what value the map holds it |
| `TreeShape.HeldMapUnique` | src/btree/btree.cc:160-192 | a page store obeying the tree laws holds exactly one map |
| `TreeWalk.Reached` | src/btree/btree.cc:362-562 | every page is reached from the root |
| `TreeWalk.WalkUnique` | src/btree/btree.cc:362-562 | along exactly one path |
| `TreeWalk.WalkLength` | src/btree/btree.cc:362-562 | and all leaves lie at the same depth |
| `TreeEdits.WriteHolds` | src/btree/node.cc:303-396 | writing a record in the leaf that covers its key keeps every tree law and is a map update |
| `TreeEdits.EraseHolds` | src/btree/node.cc:398-427 | erasing one is a map removal, also when the leaf becomes empty |
| `TreeSplits.SplitLeafInv` | src/btree/btree.cc:657-761 | a leaf cut in half by count keeps ranges, order, and the doubly linked leaf chain, with the new half pending above |
| `TreeSplits.SplitLeafHolds` | src/btree/btree.cc:657-761 | and holds the same map |
| `TreeSplits.SeparatorSlot` | src/btree/node.cc:496-545 | a pending separator belongs exactly in the slot of the child that split, strictly between its neighbours |
| `TreeSplits.AbsorbInv` | src/btree/node.cc:496-576 | the parent that takes the separator tiles its range with its children again |
| `TreeSplits.SplitInnerInv` | src/btree/btree.cc:767-852 | an internal page cut at its middle separator keeps every tree law, the middle key moving up |
| `TreeSplits.SplitThenInsert` | src/btree/btree.cc:532-552 | splitting a full parent and inserting into the right half equals inserting first and cutting the result |
| `TreeSplits.GrowInv` | src/btree/btree.cc:858-895 | the new root above a split root restores every tree law |
| `TreeCapacity.SmallSplitFits` | src/btree/btree.cc:484-512 | with records of at most 213 bytes either half of a split leaf has room for one more |
| `TreeCapacity.SmallInnerFits` | src/btree/btree.cc:532-552 | and either half of a split internal page for one more separator |
| `TreeRoom.SameDescent` | src/btree/btree.cc:394-413 | the way down for a key is unique, so "the full parents above the leaf" is a fact about the pages alone |
| `TreeRoom.OverflowsThere` | src/btree/btree.cc:437-562 | a Put overflows the tree iff it overflows along the path the descent takes |
| `TreeRoom.HalfNeeds` | src/btree/btree.cc:489-512 | the half of a split leaf a record belongs to takes it iff that half's cost and the record's are within the page |
| `TreeRoom.HalvesNeed` | src/btree/btree.cc:532-552 | the half of a split parent takes the separator iff its cost and the separator's are within the page; the other half always fits |
| `TreeRoom.SmallCarries` | src/btree/btree.cc:514-562 | a small separator is never refused on the way up, at any height |
| `TreeOverflow.OneKilobyteOverflows` | include/kvstore/db.h:306-312 | a lawful tree of one full leaf with records under 1000 bytes, on which the overflow condition holds for another such record |
| `TreeOverflow.OneKilobytePoisons` | include/kvstore/db.h:306-312 | on that tree the Put itself returns the poisoning failure |
| `BTree.BPlusTree.FindLeaf` | src/btree/btree.cc:630-651 | none iff the tree is empty; else the descent ends at the leaf whose range holds the key, at most two pages held at a time |
| `BTree.BPlusTree.Get` | src/btree/btree.cc:160-192 | returns the map's value for the key, or none |
| `BTree.BPlusTree.Delete` | src/btree/btree.cc:198-253 | removes the key from the map, returns its old value, NotFound iff absent; no page comes or goes |
| `BTree.BPlusTree.Put` | src/btree/btree.cc:267-360 | a map update with the old value returned; rejected, before any change, exactly when no empty leaf could hold the record; fails iff `PutOverflows` held before; never for small records; every page changed was held, at most 2 * depth + 2 of them |
| `BTree.BPlusTree.PutPessimistic` | src/btree/btree.cc:362-562 | the same for the splitting path, from an empty tree to a new root, failing iff `PutOverflows` |
| `BTree.BPlusTree.PutEmpty` | src/btree/btree.cc:373-392 | the first leaf becomes the root of a tree holding one record |
| `BTree.BPlusTree.DescendPath` | src/btree/btree.cc:394-413 | the held path is parent by parent, as long as the tree is deep, and ends at the key's leaf |
| `BTree.BPlusTree.PutOnPath` | src/btree/btree.cc:415-512 | with the path held: update in place, or erase and reinsert with splits; fails iff the record overflows along that path |
| `BTree.BPlusTree.SplitLeaf` | src/btree/btree.cc:657-761 | both halves, the separator, and a valid tree with the pair pending |
| `BTree.BPlusTree.SplitAndInsert` | src/btree/btree.cc:470-512 | split, insert in the right half, propagate: a map update, failing iff the half or the way up lacks room |
| `BTree.BPlusTree.Propagate` | src/btree/btree.cc:514-562 | a separator carried through any number of full parents to one with room or to a new root leaves a valid tree with the same map; fails iff some parent's half or the new root lacks room for what reaches it |
| `BTree.BPlusTree.Absorb` | src/btree/node.cc:496-576 | takes the separator, or refuses with nothing changed exactly when it does not fit |
| `BTree.BPlusTree.SplitInternal` | src/btree/btree.cc:767-852 | cuts the full parent, the pending separator in its half, the middle key pending one level up; refuses iff that half lacks room |
| `BTree.BPlusTree.CreateNewRoot` | src/btree/btree.cc:858-895 | a valid tree one level deeper with the same map; refuses iff the separator does not fit an empty page |
| `Scans.Cursor.SkipToLiveEntry` | src/btree/cursor.cc:33-62 | hopping over any number of empty leaves skips no entry and ends at one or at the end of the chain |
| `Scans.Cursor.Next` | src/btree/cursor.cc:64-70 | exactly the current entry is passed |
| `Scans.Seek` | src/btree/btree.cc:568-597 | what lies ahead is exactly the entries at or above the start key; nothing in an empty tree |
| `Scans.Scan` | src/db.cc:168-184 | visits exactly the entries from start up to, not including, end (an empty end meaning no bound), in ascending byte order, each with its value; stops early exactly where the callback says so |
| `LatchProof.NextKeeps` | src/btree/btree.cc:160-562 | every step of every thread keeps the tree laws, the latch rules and each thread's place, and changes the map only by its own operation |
| `LatchProof.ActsOnItsLeaf` | src/btree/btree.cc:294-358 | the leaf an operation reads or changes is at that moment the one covering its key, also across the drop and relatch, and it finds there what the map says |
| `LatchProof.Linearizable` | src/btree/btree.cc:160-562 | in every interleaving the tree holds the map obtained by applying operations one at a time at their acting steps |
| `LatchProof.ActsOnce` | src/btree/btree.cc:160-562 | in every run each operation takes effect at exactly one step, and its result is what the map built up to that step says of its key |
| `LatchProof.ChildCovers` | src/btree/btree.cc:172-183 | a descent beside a split on its way up still reaches the child covering its key |
| `LatchProof.PutSplit` | src/btree/btree.cc:437-512 | erase, split and insert of an outgrown record is one map update |
| `LatchProof.SplitCanHappen` | src/btree/btree.cc:484-512 | the conditions the machine puts on a leaf split hold whenever the code gets there and the half has room |
| `LatchProof.SplitCanGoUp` | src/btree/btree.cc:524-562 | a carried split can always be handed to the parent or to a new root |
| `Locks.ScanHolders` | src/txn/lock_manager.cc:32-50 | the holder loop finds a conflict iff there is one, and an older one iff there is one |
| `Locks.LockManager.Look` | src/txn/lock_manager.cc:32-68 | one round: granted iff nothing conflicts, dies iff a conflicting holder is older, else sleeps; nothing changes unless granted |
| `Locks.LockManager.Acquire` | src/txn/lock_manager.cc:25-75 | the whole wait loop beside any events of others: it looks at once and after every release that takes a lock away; the first look that need not wait decides, granted iff nothing conflicts, told to die iff a conflicting holder is older; timed out only if every look had to wait |
| `Locks.OneReply` | src/txn/lock_manager.cc:25-75 | the reply, and when it comes, are decided by the lock table and what the others do |
| `Locks.LockManager.Happen` | src/txn/lock_manager.cc:77-94 | a sleeper is woken exactly by the events that take a lock away |
| `Locks.LockManager.ReleaseAll` | src/txn/lock_manager.cc:77-94 | removes the transaction from every key and nobody else; wakes sleepers iff it held anything |
| `Locks.GrantCompatible` | src/txn/lock_manager.cc:16-60 | a request is blocked exactly when granting it, upgrades included, would let two holders of a key conflict |
| `Locks.ReleaseHolds` | src/txn/lock_manager.cc:77-94 | after a release everyone else holds exactly what they held |
| `Locks.AfterKeeps` | src/txn/lock_manager.cc:25-94 | whatever other transactions do meanwhile, exclusive locks already held stay held |
| `WaitDie.RunInv` | src/txn/lock_manager.cc:32-94 | in every run each sleeper not woken since it looked has a live, strictly younger holder in its way |
| `WaitDie.SomebodyCanMove` | src/txn/lock_manager.cc:32-94 | so the youngest live transaction is never asleep unwoken: no deadlock persists |
| `WaitDie.OldestNeverDies` | include/kvstore/txn/lock_manager.h:17-25 | the oldest live transaction is never told to die |
| `WaitDie.WaitsCanCycle` | include/kvstore/txn/lock_manager.h:10-15 | a run in which two transactions wait for each other, one of them overtaken: the waits-for graph is not always acyclic |
| `WaitDie.OvertakenBySharing` | src/txn/lock_manager.cc:32-72 | in every run an unwoken sleeper waits for an older holder only if it wants the key exclusively and that holder shares it |
| `WaitDie.OnlySharingOvertakes` | src/txn/lock_manager.cc:32-72 | and the only step that makes a sleeper overtaken grants a shared lock on its key to an older transaction |
| `WaitDie.CyclesAreOvertaken` | include/kvstore/txn/lock_manager.h:10-15 | every cycle of waits in every run passes through an overtaken sleeper |
| `WaitDie.NobodyOvertakenNoCycle` | include/kvstore/txn/lock_manager.h:10-15 | a state with no overtaken sleeper has no cycle |
| `TxnHandle.TxnImpl.Get` | src/db.cc:723-735 | the tree's value under a shared lock granted at the first look that finds nothing in the way; Busy exactly where wait-die refuses or the time is up first |
| `TxnHandle.NeverBoth` | src/db.cc:723-765 | from one lock table and one course of events a request cannot come out both granted and refused |
| `TxnHandle.TxnImpl.EnsureBegun` | src/db.cc:893-907 | succeeds iff already begun or the log takes the marker; the first write logs the begin marker and counts the transaction, later ones do neither |
| `TxnHandle.TxnImpl.Put` | src/db.cc:738-765 | under the granted exclusive lock the reply is decided: unlogged iff the begin marker cannot be logged, else rejected iff no leaf could hold the record, else failed (and poisoned) iff the tree overflows, else a map update with its inverse recorded; the begin marker and the counter move exactly with the first write |
| `TxnHandle.TxnImpl.Delete` | src/db.cc:767-789 | under the granted exclusive lock: unlogged iff the begin marker cannot be logged, else a map removal with its inverse recorded iff the key is there, else missing with nothing to undo |
| `TxnHandle.TxnImpl.Commit` | src/db.cc:792-821 | logs the commit marker once, after its begin marker, flushes it before answering, takes the counter down, then releases every lock; changes no key; a log failure poisons and leaves the counter up |
| `TxnHandle.TxnImpl.Abort` | src/db.cc:824-863 | plays the undo list backwards, then logs the abort marker once, takes the counter down and releases every lock; fails only if the log does or some entry's before-image has no place in the tree as the rollback had left it |
| `TxnHandle.TxnImpl.UndoAll` | src/db.cc:836-847 | the rollback loop: the rolled back map, or the entry it stops at and the tree that refuses it |
| `TxnHandle.RollbackRestores` | src/db.cc:836-847 | that leaves each written key as before its first write and every other key alone |
| `TxnLog.UndoneKey` | src/db.cc:409-437 | undo restores a key to what the loser's first completed record on it says was there |
| `TxnLog.UndoResumes` | src/db.cc:409-437 | what is left of the undo pass, from any record on, leads where the whole pass leads |
| `TxnTheorems.NextInv` | src/db.cc:723-907 | every step of every transaction keeps the invariant tying map, log, locks and undo lists |
| `TxnTheorems.RecoveryExact` | src/db.cc:354-437 | recovery of the log as it stands is the committed state iff no loser made the root |
| `TxnTheorems.RecoveryExactAtEveryCut` | src/db.cc:354-437 | the same for every prefix of the log of every run, transactions cut off in their own abort included |
| `TxnTheorems.RootedNeverLeaks` | src/db.cc:354-437 | once the tree has a root every cut recovers to exactly the committed state |
| `TxnTheorems.SerializableInCommitOrder` | src/db.cc:723-864 | replaying committed transactions in commit order, every read returns what it returned, and the result is the committed state |
| `TxnTheorems.QuiescentMapIsSerial` | src/db.cc:723-864 | with no transaction in flight the tree's map is that serial state |
| `TxnTheorems.AbortLeavesNoTrace` | src/db.cc:824-863 | an abort changes neither committed state nor history, and its keys read as committed again |
| `TxnTheorems.TruncationKeepsLosers` | src/db.cc:276-285 | truncation happens only when the counter is zero, and then no record of a transaction begun and not ended is discarded |
| `TxnTheorems.CounterCounts` | src/db.cc:792-907 | in every run the counter the checkpoint tests is the number of transactions whose begin marker is logged and end marker is not |
| `TxnLeak.RecoveryCanLeak` | src/btree/btree.cc:373-392 | a run whose recovery keeps an uncommitted first insert, for any key and value |
| `PageRedo.CompleteFirst` | src/db.cc:354-378 | on one page the records of complete groups come before those of unfinished ones |
| `PageRedo.RedoRebuilds` | src/db.cc:462-551 | from any version a crash may leave of a page, torn included, redo reports no corruption and gives the contents after its last complete record |
| `PageRedo.RedoRestarts` | src/db.cc:462-551 | redo stopped after any number of records, the page flushed at any moment of it or not at all or torn in that write, and run again over the whole log ends the same |
| `PageRedo.MidRedoIsDisk` | src/db.cc:320-378 | such a page is again one redo can start from |
| `OpGroups.KeptIsSerial` | src/db.cc:343-378 | at every cut, keeping complete groups gives each page as if the complete operations had run one after another in the order they ended |
| `WalProof.NextInv` | src/storage/buffer_pool.cc:67-324 | every step of writers, log, write-back and checkpoint keeps the write-ahead invariant |
| `WalProof.WriteAhead` | src/storage/buffer_pool.cc:304-324 | a page LSN found in the data file names a record whose whole group, its last record included, is durable |
| `WalProof.MetaChoice` | src/storage/pager.cc:155-181 | whatever a crash leaves of the two metas, the choice is the last complete checkpoint or the one just written |
| `WalProof.CrashSafe` | src/db.cc:254-312 | a crash between any two steps, also of a checkpoint and with torn writes, recovers every page and the root to what the surviving complete groups say, whichever meta is chosen |
| `WalProof.EveryRunIsCrashSafe` | src/db.cc:254-460 | the same at every moment of every run |
| `WalProof.CrashLeaves` | src/storage/pager.cc:414-441 | every page a crash leaves, pages past the checkpointed count re-zeroed, is one redo can start from |
| `Recovery.MarkApplicable` | src/db.cc:354-368 | the open-group pass marks exactly the records past the checkpoint whose group ends in the log |
| `Recovery.RedoPut` | src/db.cc:566-583 | redo of a put is the leaf write, and fails exactly when the written leaf would not fit |
| `Recovery.DataFile.EnsurePageExists` | src/db.cc:328-340 | extends the file with zeroed pages and changes no other |
| `Recovery.DataFile.ApplyRecord` | src/db.cc:462-551 | redo of one record on its page, guarded by the page LSN, healing torn pages from images |
| `Recovery.DataFile.Redo` | src/db.cc:369-378 | the redo loop computes `RedoPage` for every page and the last complete root change; if it fails, a named record could not be applied |
| `Recovery.RedoCrashed` | src/db.cc:320-378 | from any crashed file it succeeds and rebuilds every page |
| `Recovery.NeverStuck` | src/db.cc:566-583 | none of redo's failure branches is reached on a log the tree wrote |
| `Recovery.NoteOutcomes` | src/db.cc:391-407 | the two bits per transaction say exactly who lost |
| `Recovery.UndoOne` | src/db.cc:415-437 | undoes one record; fails exactly when its before-image fits no page or overflows the tree |
| `Recovery.UndoLosers` | src/db.cc:409-437 | the undo loop through the tree leaves the map the log theory's undo defines; it stops only at an undone record whose before-image has no place in the tree as undo had left it |
| `KeptPages.EndRecord` | src/db.cc:354-378 | the record that ends a group brings exactly the pages its owner holds up to what they are in memory; every other page redo rebuilds as before |
| `KeptPages.UnheldIsKept` | src/storage/buffer_pool.cc:304-324 | a page nobody holds is in memory exactly what redo of the log would make of it |
| `EnginePlans.SplitPlanRight` | src/btree/btree.cc:470-512 | the records a leaf split logs (both halves, the neighbour, the key record) rebuild every page as the split left it |
| `EnginePlans.ParentPlanRight` | src/btree/btree.cc:519-562 | and so do those of a parent's split, separator included |
| `EngineTheorems.NextOk` | src/btree/btree.cc:81-562 | every step of threads, transactions, write-back and checkpoint keeps the engine's invariant: redo of the log would give a lawful tree holding the transactions' map, and memory differs from it only by the split under way |
| `EngineTheorems.TreeAtEveryCut` | src/db.cc:343-378 | for every run and every prefix of its log, the complete groups leave a lawful tree (root included) holding exactly their effects, and undoing its losers gives the committed map iff none leaks |
| `EngineInv.ReadersSeeTheTree` | src/btree/btree.cc:160-192 | a page a thread may read is in memory the tree's page, also while others are half-way through logging |
| `EngineReads.ReadSeesTheMap` | src/db.cc:723-735 | a transaction's read returns what the transactions' map holds, though another's split may be ahead of it |
| `EngineReads.BeforeIsInTheLeaf` | src/btree/btree.cc:415-437 | the before-image a write will log is what its leaf holds when the group opens |
| `EndToEnd.FromLastMeta` | src/db.cc:320-378 | any crash of any run leaves, seen from the last complete checkpoint, a file redo can start from and a log whose redo gives a lawful tree with the surviving effects |
| `EndToEnd.FromNewMeta` | src/db.cc:254-312 | seen from the meta being written, the file already is the tree of all effects |
| `EndToEnd.CheckpointIsInvisible` | src/db.cc:254-312 | while a new meta is out nothing would be undone: old meta with its log and new meta with none recover to the same map, the committed one |
| `EndToEnd.MetasAgree` | src/storage/pager.cc:155-181 | the same for every crash inside every checkpoint of every run, pages and metas torn included |
| `EndToEnd.RedoStartsOver` | src/db.cc:320-378 | redo stopped anywhere with any pages flushed and started over, pages past the meta's count zeroed anew, ends with the same pages and root |
| `EndToEnd.OpenFile` | src/storage/pager.cc:155-190 | opening takes the newer intact meta and the pages it counts, all of which the crash left in the file |
| `EndToEnd.Recover` | src/db.cc:320-456 | redo never fails from a crashed file; recovery yields a lawful tree with the redone effects, losers undone, or names the before-image that has no place |
| `EndToEnd.RecoverAfterCrash` | src/db.cc:320-456 | for every run of the engine and every crash, opening and recovering yields a lawful tree whose map is the committed one iff no loser leaks, whichever meta is chosen; it fails only where an undone record's before-image has no place in the tree as undo had left it, with small records never |
| `EngineLeak.EngineCanLeak` | src/btree/btree.cc:373-392 | a run of the whole engine and a crash of it after which recovery does not give the committed state, for every first record the engine accepts |
| `EngineLeak.LeakComesBack` | src/btree/btree.cc:373-392 | recovering that crash always succeeds and brings back the uncommitted key though nothing was committed |
| `SlottedPage.Page.InsertRecordAt` | include/kvstore/storage/page_format.h:497-527 | inserts the record at its slot, all others unchanged, iff slot and bytes fit in the free space |
| `SlottedPage.Page.DeleteRecord` | include/kvstore/storage/page_format.h:532-545 | tombstones one live record and counts its bytes dead |
| `SlottedPage.Page.Compact` | src/storage/page.cc:199-230 | every slot reads as before, no byte is dead, and live bytes plus free end make 4096 |
| `SlottedPage.Page.Validate` | src/storage/page.cc:236-275 | sorting and checking neighbours accepts exactly the layouts with bounds right and no two live records overlapping |
| `SlottedPage.Page.Overwrite` | src/btree/node.cc:359-371 | a shorter record in place leaves the others and accounts the rest as dead |
| `SlottedPage.Page.Place` | src/btree/node.cc:384-395 | a new copy in free space replaces the old one, whose bytes go dead, and leaves the others |
| `SlottedPage.Page.RemoveAt` | src/btree/node.cc:398-427 | the slot directory closes over the slot, the record's bytes go dead |
| `SlottedPage.Page.DropAndCompact` | src/btree/node.cc:375-383 | tombstone and compaction free exactly the old free, dead and dropped bytes |
| `SlottedPage.NeighboursSuffice` | src/storage/page.cc:264-272 | on sorted records, no overlap of neighbours iff no overlap at all |
| `NodeView.DecodeLeaf` | src/btree/node.cc:105-146 | decoding undoes encoding of a leaf record |
| `NodeView.DecodeInner` | src/btree/node.cc:148-181 | and of an internal record |
| `NodeView.LeafView.Room` | src/btree/node.cc:291-301 | free plus dead bytes plus the leaf's cost is always 4056, however fragmented the page |
| `NodeView.LeafView.GetKey` | src/btree/node.cc:187-201 | reads the key at a slot from the bytes |
| `NodeView.LeafView.GetValueAt` | src/btree/node.cc:253-268 | reads the value at a slot from the bytes |
| `NodeView.LeafView.FindKeyIndex` | src/btree/node.cc:203-232 | binary search over the bytes finds the leaf's lower bound |
| `NodeView.LeafView.EnsureFit` | src/btree/node.cc:291-301 | makes room iff the leaf's cost allows it, records unchanged |
| `NodeView.LeafView.InsertLeaf` | src/btree/node.cc:303-330 | succeeds iff the key is absent and the leaf with it fits, and is then the sorted insert; else nothing changes |
| `NodeView.LeafView.UpdateLeaf` | src/btree/node.cc:332-396 | all three ways of updating succeed iff the key is present and the new leaf fits, and change one value |
| `NodeView.LeafView.DeleteAt` | src/btree/node.cc:398-427 | removes exactly the record at the slot |
| `NodeView.EntriesAfterSplit` | src/btree/node.cc:516-545 | the rebuild loop puts the separator and both halves where the split child was |
| `NodeView.RebuildInternal` | src/btree/node.cc:547-575 | a rebuilt internal page takes all entries iff they cost at most 4056 bytes |
| `Buffers.LruReplacer.RecordAccess` | include/kvstore/storage/lru_replacer.h:29-38 | the frame becomes the most recently used |
| `Buffers.LruReplacer.Evict` | include/kvstore/storage/lru_replacer.h:49-57 | the victim is the least recently used evictable frame, none iff none is evictable |
| `Buffers.BufferPool.EnforceWalRule` | src/storage/buffer_pool.cc:304-324 | a page that was ever logged is let through only when all of the log is flushed |
| `Buffers.BufferPool.WriteBack` | src/storage/buffer_pool.cc:87-109 | a dirty page reaches the file only behind the whole log; it stays dirty iff the write or the log's flush fails |
| `Buffers.BufferPool.EvictFrame` | src/storage/buffer_pool.cc:74-114 | evicts the least recently used unpinned frame after writing it back behind the log; none iff all are pinned or that one cannot be written; pinned frames keep their page |
| `Buffers.BufferPool.FetchPage` | src/storage/buffer_pool.cc:120-162 | pins a frame with the page's current contents, changes no page, and makes the frame the most recently used; fails iff the page is not resident and no frame can be had, the read fails or there is no such page; a free frame is used before any page is evicted |
| `Buffers.BufferPool.NewPage` | src/storage/buffer_pool.cc:176-212 | a pinned zeroed page in a frame found the same way, every other page unchanged; fails iff no frame can be had or the file cannot grow |
| `Buffers.BufferPool.Write` | src/storage/buffer_pool.cc:31-35 | changes one page of the store |
| `Buffers.BufferPool.ReleaseGuard` | src/storage/buffer_pool.cc:218-231 | one pin less; evictable exactly when none is left |
| `Buffers.BufferPool.FlushAll` | src/storage/buffer_pool.cc:267-298 | each dirty frame is pinned while it is written and let go again; no page changes; fails iff some dirty frame cannot be written; on success nothing is dirty, the file is the page store, and every logged page went behind the log |
| `Crc32.GenerateTables` | src/storage/page.cc:109-129 | table k holds each byte followed by k zero bytes |
| `Crc32.UpdateFast` | src/storage/page.cc:134-157 | slicing by eight equals the bitwise checksum for every start value and byte string |
| `Crc32.ByteStepLinear` | src/storage/page.cc:109-129 | eight bit steps distribute over exclusive or |
| `Crc32.EightBytes` | src/storage/page.cc:144-148 | eight bytes taken bit by bit equal the two-word form the lookups compute |
| `Crc32.BurstDetected` | src/storage/page.cc:105-157 | any change confined to four adjacent bytes changes the checksum |
| `Crc32.CheckValue` | src/storage/page.cc:105-157 | the checksum of "123456789" is the check value of CRC-32, 0xCBF43926 |
| `Crc32.ChecksumWithZeroedField` | src/storage/page.cc:167-178 | equals the checksum of the buffer with the four field bytes zero |
| `LogCodec.ParseExactly` | src/wal/log_record.cc:33-103 | a buffer parses to a record iff it begins with that record's encoding and the record is within the field limits, absent and empty before-images distinct |
| `LogCodec.ParseCut` | src/wal/log_record.cc:58-90 | a record cut short anywhere does not parse |
| `LogCodec.Sealed` | src/wal/log_record.cc:33-56 | a record ends with the CRC-32 of all bytes before it |
| `LogCodec.DamageFound` | src/wal/log_record.cc:58-103 | a record damaged within four adjacent bytes, in what the checksum covers or in the checksum, the length fields standing, does not parse, whatever follows it |
| `LogCodec.FlipFound` | src/wal/log_record.cc:58-103 | nor does one with any one byte altered outside the length fields |
| `LogFile.ReadAll` | src/wal/log_reader.cc:43-64 | the scan loop returns records whose LSNs follow on and whose bytes the file begins with, and every such chain is a part of what it returns |
| `LogFile.ScanDamaged` | src/wal/log_reader.cc:43-64 | damage in a record ends the scan there: the records before it are returned, nothing after |
| `LogFile.ScanCut` | src/wal/log_reader.cc:43-64 | a file cut at any byte reads as exactly the records wholly before the cut |
| `LogFile.WholeIs` | src/wal/log_reader.cc:43-64 | those are all that end at or before the cut |
| `LogFile.LogWriter.Append` | src/wal/log_writer.cc:46-51 | the LSN is base plus byte offset, the record is buffered, nothing else changes |
| `LogFile.LogWriter.AppendPageImage` | src/wal/log_writer.cc:53-73 | the image carries its own LSN and its page counts as imaged |
| `LogFile.LogWriter.Flush` | src/wal/log_writer.cc:75-95 | everything appended becomes durable |
| `LogFile.LogWriter.FlushTo` | src/wal/log_writer.cc:102-114 | every record up to the LSN is durable whole; a write is always of the whole buffer, and none is made when the LSN is durable already |
| `LogFile.LogWriter.Truncate` | src/wal/log_writer.cc:116-133 | the log restarts empty at the new base with no page imaged |
| `LogFile.LogWriter.Survives` | src/wal/log_writer.cc:41-95 | any surviving prefix reads back as the appended records it wholly holds, all durable ones among them |

## Left out

- Runs in which an operation fails half-way and poisons the handle: the tree is then half changed and only reopening repairs it. `Put` says exactly when that happens, and `EngineMachine` takes only steps that find room.
- A second crash while recovery is undoing losers, or in the checkpoint that follows recovery: the theorem is about one completed undo. A crash during redo is covered.
- Which step of `EngineMachine` is enabled when is not stated, beyond `SplitCanHappen` and `SplitCanGoUp` for the latch layer and the concrete run in `EngineLeak`: the theorems are about safety.
- TxnHandle.TxnImpl.Put: while it sleeps for its lock the model lets other transactions change the lock table but not the tree; what the tree holds by then is the business of `EngineMachine`. The same goes for `Get` and `Delete`.
- `num_keys` and its recount after recovery: a counter beside the map, kept by plain additions.
- Scans beside concurrent writers: documented as read-uncommitted; `Scan` is proved without writers.
- Autocommit writes to keys a live transaction has locked: documented as unisolated, and excluded in `TxnMachine`.
- Time: the one-second lock timeout may come at any wait; fairness and wake-up order are not modelled.
- Freeing and recycling pages: the tree never frees one.
- Buffers.BufferPool.FlushAll: the pool lock and content latches are in `LatchMachine` instead.
- LatchProof.Linearizable: the right neighbour of a splitting leaf is latched before the two halves are written, not between; both are exclusively held. The same in `EngineMachine`. Freedom from latch deadlock is not stated.
- EngineTheorems.NextOk: a splitting Put changes its pages in memory in one step and logs them afterwards, where the code alternates changing and logging; the pages are exclusively held throughout, so no other thread and no write-back can tell.
- NodeView.LeafView.UpdateLeaf: values longer than 65535 bytes, which `Put` rejects first, are outside its precondition.
- Header fields and slots are typed fields in `SlottedPage`, not bytes of the page; page checksums are a separate function.
- LogCodec.DamageFound: damage in the three length fields, or spread over more than four adjacent bytes, is not shown to be found; no 32-bit checksum finds all of it.
- Reopening a log with a torn tail: `LogWriter` starts from an empty log.
- The ARM checksum instructions, POSIX files, locking of the database directory, fault injection, dumps, benchmarks and tools.
