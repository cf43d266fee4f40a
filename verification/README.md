# PhotonDB, modelled and proved in Dafny

PhotonDB is a latch-free Bw-tree on a log-structured page store.  This project models its five hard
parts and proves what they promise, for every input, every run or every reachable state.  Loads,
compare-exchanges and locked sections are steps, and steps of different threads interleave freely.

1. **The tree protocol.** Logical pages are chains of immutable deltas behind a table of page ids.
   `TreeProtocol` is the state machine of descents, writes, page and root splits, reconciliations and
   consolidations; `TreeInvariant` says who owns which key range and what an epoch mismatch means;
   `TreeReading`, `TreeReconcile`, `TreeSplit` and `TreeRootSplit` show that each step keeps it, and
   `TreeTheorems` draws the conclusions: leaves partition the keys, a descent only ends at the owner,
   and reads see a multi-version map.  `LeafChain` and `InnerChain` hold the meaning of chains and of
   their consolidation, `TreeHalves` that of splits; `Merge`, `Filters` and `Consolidation` the iterators,
   with their loops.  `TreeScan` and `TreeScanTheorems` follow an iterator over the whole tree through any
   interleaving: it shows every key once, as the map has it.
2. **The page-store life cycle.** `PageStore` is the state machine of transactions, seals, flushes,
   compactions, versions, guards, cleanups and restarts; `PageStoreInv`, `PageStoreSteps` and `PageStoreJobs`
   hold its invariant, `PageStoreRecovery` shows that recovery finds the last flushed update and builds a
   store that satisfies the invariant again, and `PageStoreTheorems` that no pinned reader meets a missing
   page.  `PageStoreDead` is the other direction: dead pages and obsolete files go, with the exceptions that
   `PageStoreRevival` shows.  `StoreJobs` has the loops of the jobs, `Manifest` the log of version edits.
3. **The LRU page cache.** `LruCache` is one shard with its intrusive rings, cursors, reference counts and
   usage counters, over the pointer lemmas of `Ring` and `LruRuns`.
4. **The wake-up primitives.** `Notify` and its companions are the state machine of the wake-up primitive,
   `LinkedList` its intrusive list, `Permits` the write-buffer permits, `WriteBuffer` and
   `WriteBufferTheorems` the shared write buffer.
5. **Codecs and indexes.** `SortedPage` is the codec and builder of pages, `PageFile` the layout of page files
   and its reader, `BufferedWriter` and `FileBuilder` the writer and the builder that produce it, `PageGroup`
   and `PageTable` the indexes.

`Options`, `Sequences` and `Arithmetic` hold what the other modules share.

Seven promises that a reader might expect turn out to hold only in part.  Each has a lemma with an input that
breaks it and a lemma that says exactly when it holds:

- partial leaf consolidation: `LeafChain.PartialConsolidationCanResurrect`,
  `LeafChain.PartialConsolidationKeepsReadsIff`;
- waits for a permit that take none: `Permits.WaiterCanBeStranded`, `Permits.StrandedIff`;
- write buffers of 2^31 bytes: `WriteBuffer.LargestCapacityOverlaps`, `WriteBuffer.SafeCapacities`;
- the bounds assertion on record headers: `WriteBufferTheorems.HeaderAssertionFails`,
  `WriteBufferTheorems.HeaderAssertion`;
- pages built in buffers that are larger than asked for: `SortedPage.PaddedPutIsWrong`,
  `SortedPage.LeafPageRoundTrip`.  Where the comment on `build` says only that the buffer must be large
  enough, the code needs the exact size for a leaf page whose last item is a put;
- pages that a flush deallocated while their file was being compacted: `PageStoreRevival.CompactionCanRevive`,
  `PageStoreDead.CompactionRevivesIff` (and `PageStoreDead.RestartRevivesIff` for recovery);
- page groups behind 4 GiB of a file, whose offsets are truncated to 32 bits: `PageGroup.WrapsAtTheBoundary`,
  and `PageGroup.BuildPageMetaMap` with `PageGroup.TruncatedIsWrong`.

Some invariants are stated through a predicate per element that serves as the trigger of the quantifier
(`HandleEntry`, `Listing`, `FileListed` and the like); lemmas instantiate them by asserting that predicate.

## Model

| member | source | states |
|---|---|---|
| `Bytes.EmbeddingKeepsOrder` | photondb/src/page/data.rs:20-28 | byte strings in the order of the program embed into the order of the model, both ways, and equal keys stay equal |
| `Data.CompareKeys` | photondb/src/page/data.rs:20-28 | the three-way comparison is the order: raw key ascending, LSN descending, zero only for equal keys |
| `Pages.FindRank` | photondb/src/page/sorted_page.rs:193-216 | the binary search returns a match, or the true insertion point with everything smaller before it and everything larger behind it |
| `LeafChain.ChainFindIsNewest` | photondb/src/tree/mod.rs:328-361 | walking a leaf chain and stopping at the first page with a match finds the newest version of the whole chain at or below the LSN |
| `LeafChain.VisibleIs` | photondb/src/tree/mod.rs:328-361 | what a reader sees of a set of versions is the bytes of the newest put, and nothing otherwise |
| `LeafChain.ConsolidatedItems` | photondb/src/tree/page.rs:152-189 | a consolidated page has exactly the versions above the safe LSN and the newest older put of each key |
| `LeafChain.FullConsolidationKeepsReads` | photondb/src/tree/page.rs:152-189 | a full leaf consolidation, also one that cuts at a pending split key, changes no read at or above the safe LSN below the limit |
| `LeafChain.PartialConsolidationKeepsReadsIff` | photondb/src/tree/mod.rs:656-713 | a partial consolidation changes no read at or above the safe LSN if and only if no delete it drops hides a value of the pages below |
| `LeafChain.PartialConsolidationCanResurrect` | photondb/src/tree/page.rs:169-184 | a concrete chain where a partial consolidation brings a deleted value back |
| `InnerChain.DeltaRepresents` | photondb/src/tree/mod.rs:552-601 | the delta page of a reconciliation, with its range-end placeholder, makes the chain represent the old child list with the one child cut in two |
| `InnerChain.ConsolidationIsEntries` | photondb/src/tree/page.rs:222-242 | the page that an inner chain is consolidated to is exactly the child list that the chain represents |
| `InnerChain.ConsolidationRepresents` | photondb/src/tree/mod.rs:366-403 | `find_child` on the consolidated page returns the same child and, after inheriting the enclosing end, the same range as on the chain |
| `InnerChain.SplitLeftRepresents` | photondb/src/tree/mod.rs:417-466 | an inner page under a split delta represents the left half of its children |
| `InnerChain.SplitRightRepresents` | photondb/src/tree/mod.rs:417-466 | the new right page represents the right half of the children |
| `TreeInvariant.EpochTellsRange` | photondb/src/tree/mod.rs:225-271 | an operation that meets the epoch it was sent to works on a settled page whose range is the one it was sent to and holds its key |
| `TreeInvariant.ContentStep` | photondb/src/tree/mod.rs:140-192 | a step that replaces one table entry and changes neither epoch nor range keeps the whole invariant |
| `TreeInvariant.WriteStepData` | photondb/src/tree/mod.rs:140-192 | after a write every leaf answers like the multi-version map with exactly that version added |
| `TreeInvariant.ConsolidateLeafData` | photondb/src/tree/mod.rs:618-653 | a lossless leaf consolidation keeps every leaf's answers equal to the map's |
| `TreeInvariant.ConsolidateInnerInv` | photondb/src/tree/mod.rs:618-653 | the consolidation of an inner page keeps the invariant |
| `TreeReading.DescentFindsChild` | photondb/src/tree/mod.rs:225-271 | in a reachable state the lookup in an inner page always finds a child, with the range the invariant assigns to it |
| `TreeReading.VisitEnabled` | photondb/src/tree/mod.rs:225-271 | a descent is never stuck: every turn of its loop is possible in every reachable state |
| `TreeReading.VisitInv` | photondb/src/tree/mod.rs:225-271 | one turn of the descent keeps the invariant |
| `TreeReconcile.StaleMeansPending` | photondb/src/tree/mod.rs:526-601 | a stale view with the parent still in place has met the one pending split of that child, with the range the parent knows |
| `TreeReconcile.ReconcileInv` | photondb/src/tree/mod.rs:552-601 | publishing a split in the parent keeps the invariant |
| `TreeHalves.LeafCut` | photondb/src/page/sorted_page.rs:222-243 | the split point cuts a leaf into two non-empty halves with no raw key on both sides |
| `TreeHalves.HalvesContents` | photondb/src/tree/mod.rs:417-466 | no version is lost by a split, and each half keeps exactly the versions of its side |
| `TreeHalves.HalvesAnswer` | photondb/src/tree/mod.rs:417-466 | each half answers every read of its side as the whole page did |
| `TreeSplit.SplitPageInv` | photondb/src/tree/mod.rs:417-466 | a page split keeps the invariant |
| `TreeRootSplit.RootSplitSetup` | photondb/src/tree/mod.rs:469-523 | the root that is split has epoch 0 and chain length 1, as the code asserts |
| `TreeRootSplit.SplitRootInv` | photondb/src/tree/mod.rs:469-523 | a root split keeps the invariant |
| `TreeTheorems.StepKeeps` | photondb/src/tree/mod.rs:106-192 | every step of every kind keeps the structure, and every lossless step keeps what reads see |
| `TreeTheorems.EveryStateHasInvariant` | photondb/src/tree/mod.rs:86-104 | the invariant holds in every state of every run, for every interleaving |
| `TreeTheorems.LeavesPartitionKeys` | photondb/src/tree/mod.rs:225-271 | every key is owned by exactly one leaf |
| `TreeTheorems.KeysArePartitionedInEveryRun` | photondb/src/tree/mod.rs:209-271 | in every state of every run one assignment of key ranges to pages gives every key exactly one owning leaf, and every descent that passes the epoch test at a leaf is at the owner of its key |
| `TreeTheorems.ChildAtMostOneAhead` | photondb/src/tree/mod.rs:406-523 | a child has the epoch its parent knows, or exactly one more with the single pending split on top and its key inside the known range |
| `TreeTheorems.FoundLeafOwnsKey` | photondb/src/tree/mod.rs:209-271 | a descent that ends at a leaf ends at the leaf that owns its key |
| `TreeTheorems.GetReadsTheMap` | photondb/src/tree/mod.rs:106-119 | in every state of every lossless run the version that a `get` finds in the leaf is a put of some bytes exactly when the newest version in the map at or below the LSN is a put of those bytes, at any LSN at or above the safe one |
| `TreeTheorems.WriteHitsOwner` | photondb/src/tree/mod.rs:140-192 | a successful write adds its version on top of the owning leaf's chain and changes no other chain |
| `TreeTheorems.AddressesGrow` | photondb/src/page_store/page_txn.rs:286-336 | a step never changes a published page and moves a table entry only to a larger address |
| `TreeTheorems.ChainsGoDown` | photondb/src/tree/mod.rs:277-289 | every published page points to a smaller address, so a chain walk ends |
| `TreeTheorems.ViewsAreStable` | photondb/src/tree/mod.rs:195-206 | the chain under an address never changes |
| `TreeScanTheorems.Get` | photondb/src/tree/mod.rs:106-119 | the value returned is the bytes of the put with the largest LSN at or below the read LSN among all written versions of the key, and nothing when that version is a delete or there is none |
| `TreeScan.TierStays` | photondb/src/tree/mod.rs:106-192 | a page id other than the root never changes between leaf and inner page |
| `TreeScan.RidesOn` | photondb/src/tree/mod.rs:784-806 | a descent that was possible once stays covered by the invariant through every later step of other operations |
| `TreeScan.RestToLeaves` | photondb/src/tree/mod.rs:764-782 | after a seek all remaining children of the parent are leaves that can be gone to, and the first starts where the found leaf ends, even when the parent has changed since it was viewed |
| `TreeScan.TurnKeeps` | photondb/src/tree/mod.rs:784-806 | every turn of the tree iterator keeps what it relies on |
| `TreeScanTheorems.LeafShows` | photondb/src/tree/mod.rs:292-325 | the iterator of a leaf that passed the epoch test returns a pair exactly when its key is in the range the parent gave the leaf and the newest written version at the LSN is a put of its bytes |
| `TreeScanTheorems.ListPage` | photondb/src/tree/page.rs:41-61 | the loops of the page iterator list exactly the pairs whose newest version on the page's chain is a put of those bytes, ascending |
| `TreeScanTheorems.TurnShows` | photondb/src/tree/mod.rs:784-806 | a returned page shows the newest puts written by that moment between the key where the iterator stood and the key where it stands now |
| `TreeScanTheorems.PiecesAreDisjoint` | photondb/src/tree/mod.rs:784-806 | no key is shown by two pages of one scan, whatever splits happen between them |
| `TreeScanTheorems.ScanCoversOnce` | photondb/src/tree/mod.rs:784-806 | the pages of a finished scan show every key exactly once |
| `TreeScanTheorems.ScanReadsTheMap` | photondb/src/tree/mod.rs:746-806 | the pairs of a finished scan ascend without repetition, and a key comes out with some bytes exactly when its newest version at the LSN, when the page that covers it was found, was a put of those bytes |
| `TreeScanTheorems.SnapshotScan` | photondb/src/tree/mod.rs:746-806 | a finished scan at an LSN below all writes since its first turn returns a pair exactly when the newest version of the key at its first turn was a put of those bytes, under any interleaving |
| `Merge.MergeIsSorted` | photondb/src/page/iter.rs:225-268 | the merge of sorted pages is sorted, with equal keys in page order, newest first |
| `Merge.MergeInterleaves` | photondb/src/page/iter.rs:225-268 | the merge restricted to one page is that page: nothing is lost, repeated or reordered |
| `Merge.MergedItems` | photondb/src/page/iter.rs:225-268 | an item with its rank is in the merge exactly when it is in the page of that rank |
| `Merge.MergingIter.Next` | photondb/src/page/iter.rs:252-268 | returns the head of what is left of the merge and removes it, or nothing when nothing is left |
| `Merge.MergingIter.Rewind` | photondb/src/page/iter.rs:270-277 | starts the merge again from the beginning |
| `Merge.SeekSkips` | photondb/src/page/iter.rs:202-213 | moving every page to the target by itself is the same as dropping the items before the target from the merge |
| `Merge.MergingIter.Seek` | photondb/src/page/iter.rs:279-291 | what is left is the merge from the target on, and the result says whether one of the pages has the target |
| `Filters.LeafFilterConsolidates` | photondb/src/tree/page.rs:152-189 | the leaf iterator over a sorted merge writes exactly the versions a leaf consolidation has to keep, in order |
| `Filters.ScanFilterItems` | photondb/src/tree/page.rs:41-61 | a pair is in the scan exactly when the newest version of the key at the LSN is a put of exactly those bytes |
| `Filters.InnerFilterItems` | photondb/src/tree/page.rs:222-242 | an entry is kept exactly when it is the first one of its key with a child, placeholders skipped |
| `Consolidation.LeafMerge` | photondb/src/tree/mod.rs:292-325 | the merge of a leaf chain's pages is the set of its versions in key order |
| `Consolidation.InnerFilterConsolidates` | photondb/src/tree/page.rs:222-242 | the inner iterator over the merged pages produces the consolidated page of the chain |
| `Consolidation.LeafRangeIter.Next` | photondb/src/tree/page.rs:85-103 | passes the items below the range limit on and stops at the first one at or above it |
| `Consolidation.LeafIter.Next` | photondb/src/tree/page.rs:152-189 | returns the next version to keep and advances to the rest |
| `Consolidation.LeafIter.Drain` | photondb/src/tree/page.rs:152-189 | the calls of `Next` together return the whole filtered sequence |
| `Consolidation.ScanIter.Next` | photondb/src/tree/page.rs:41-61 | returns the next visible key with its value |
| `Consolidation.InnerIter.Next` | photondb/src/tree/page.rs:222-242 | returns the next entry of the consolidated inner page |
| `Consolidation.CollectLeaf` | photondb/src/tree/mod.rs:656-713 | collects the data pages and the first split key of a prefix of the chain that may be merged |
| `Consolidation.BuildLeaf` | photondb/src/tree/mod.rs:618-653 | the page it builds has every version above the safe LSN below the limit, and of the older ones exactly the newest of each key if it is a put, in order |
| `Consolidation.BuildInner` | photondb/src/tree/mod.rs:618-653 | the page it builds is the inner consolidation of the whole chain |
| `Consolidation.Scan` | photondb/src/tree/mod.rs:292-325 | a scan at an LSN ascends, has each key once, and has a pair exactly when the key is below the limit and the newest version of the chain at the LSN is a put of those bytes |
| `Consolidation.ScanIter.Seek` | photondb/src/tree/page.rs:33-38 | the scan goes on with the versions at or after the target that its LSN can see |
| `Consolidation.ScanFrom` | photondb/src/tree/mod.rs:764-768 | a scan with a seek has a pair exactly when its key is from the target on and below the limit and its newest version is a put of those bytes, ascending, each key once |
| `Consolidation.InnerIter.Seek` | photondb/src/tree/page.rs:251-256 | the entries from the target on are left, and the result says whether some page mentions the target, placeholders included |
| `Consolidation.InnerAfter` | photondb/src/tree/mod.rs:769-776 | seeking in the parent and stepping over a found target leaves what the specification of the remaining children says |
| `Consolidation.RestIsBehind` | photondb/src/tree/mod.rs:769-776 | on every chain that represents a child list the remaining children start right behind the child that holds the target: the placeholder in a reconcile delta never makes it skip or repeat one |
| `Consolidation.FindValue` | photondb/src/tree/mod.rs:328-361 | the loop with a binary search per page returns the bytes of the newest put of the whole chain at or below the LSN, and nothing when the newest version is a delete or there is none |
| `Consolidation.FindChildOf` | photondb/src/tree/mod.rs:366-403 | the loop with a binary search per page returns the child that the chain walk specifies |
| `PageStoreInv.PinnedGuardResolves` | photondb/src/page_store/page_txn.rs:141-211 | under the invariant a pinned guard finds every address it may have seen, in a buffer or in a listed file with the page active |
| `PageStoreSteps.PublishOverInv` | photondb/src/page_store/page_txn.rs:286-336 | the compare-exchange of an update or a replacement keeps the store invariant |
| `PageStoreSteps.CleanupInv` | photondb/src/page_store/jobs/cleanup.rs:24-66 | releasing a version, its buffers and its obsolete files keeps the store invariant |
| `PageStoreJobs.FlushInv` | photondb/src/page_store/jobs/flush.rs:136-178 | a flush and its version keep the store invariant |
| `PageStoreJobs.CompactStartInv` | photondb/src/page_store/jobs/reclaim.rs:226-283 | building the output of a compaction keeps the store invariant |
| `PageStoreJobs.CompactInstallInv` | photondb/src/page_store/jobs/reclaim.rs:167-202 | installing a compaction over versions flushed meanwhile keeps the store invariant |
| `PageStoreTheorems.EveryStateInv` | photondb/src/page_store/version.rs:88-146 | the store invariant holds in every state of every run, with any number of restarts |
| `PageStoreTheorems.NoMissingPage` | photondb/src/page_store/page_txn.rs:141-211 | in every run a guard can read every address that was reachable at any moment since it was pinned, so the missing-page panics cannot happen |
| `PageStoreTheorems.NoCleanupPanic` | photondb/src/page_store/jobs/cleanup.rs:24-66 | each cleanup releases exactly the next buffer and removes no file that a version still in use lists |
| `PageStoreDead.EveryStateExact` | photondb/src/page_store/jobs/flush.rs:136-178 | versions keep no page but those they have to keep, listed files record every deallocation, and the disk holds no file without use, in every run and up to groups that a racing compaction or a restart revived |
| `PageStoreDead.ActivePagesExact` | photondb/src/page_store/jobs/flush.rs:237-263 | in every run the active pages of a version, in groups that were not revived, are exactly the pages of flushed buffers that no flushed buffer deallocated |
| `PageStoreDead.FlushTakesOut` | photondb/src/page_store/jobs/flush.rs:136-178 | a flush makes exactly the pages of its buffer active that it does not deallocate, takes out exactly the pages it deallocates, and leaves no empty group |
| `PageStoreDead.FlushListsFiles` | photondb/src/page_store/jobs/flush.rs:276-312 | a flush lists its own file and exactly those that store a listed group or record a deallocation in one, and declares exactly the others obsolete |
| `PageStoreDead.DiskIsTidy` | photondb/src/page_store/jobs/cleanup.rs:24-66 | in every run each file on disk is listed by a version not yet cleaned up, or made obsolete by one, or is the output of the running compaction |
| `PageStoreDead.BitmapsAgree` | photondb/src/page_store/recover.rs:183-214 | the active pages that recovery finds in a listed group that was not revived are exactly those of the version before the stop |
| `PageStoreDead.CompactionRevivesIff` | photondb/src/page_store/jobs/reclaim.rs:167-202 | a compaction makes a dead page active exactly when it moves the group, the page was active in the version it started with, and a buffer flushed since then deallocated it |
| `PageStoreRevival.CompactionCanRevive` | photondb/src/page_store/jobs/reclaim.rs:167-202 | a run of sixteen steps after which the current version has a page as active that a flushed buffer deallocated |
| `PageStoreDead.RestartRevivesIff` | photondb/src/page_store/recover.rs:183-214 | a restart makes a dead page active exactly when its group is no longer listed, a listed file still stores the page, and no listed file records its deallocation |
| `PageStoreRecovery.RecoveryFindsLastEntry` | photondb/src/page_store/recover.rs:150-180 | the largest-address rule gives each page id the address set by its last update among the flushed buffers |
| `PageStoreRecovery.RecoveredChainIsReadable` | photondb/src/page_store/recover.rs:183-214 | every page of every recovered chain is stored in a listed file and deallocated by none |
| `PageStoreRecovery.RestartInv` | photondb/src/page_store/recover.rs:38-70 | the store that recovery builds after a stop at any moment, with buffers numbered from the recovered file id on, satisfies the whole store invariant again |
| `PageStoreRecovery.RestartReads` | photondb/src/page_store/recover.rs:150-214 | after a restart every page id has exactly the chain of its last flushed update, and each of its pages is active in a listed file that is there |
| `PageStoreJobs.InstallNumbers` | photondb/src/page_store/recover.rs:216-224 | a compaction keeps some listed file numbered at or above every flushed group, so numbers recovered from the listed files never reuse a group |
| `PageStoreTheorems.EntriesGrow` | photondb/src/page_store/page_txn.rs:286-336 | the entries a page id ever had strictly increase, and the last one is the current one |
| `PageStore.LessIsNumeric` | photondb/src/page_store/page_file/types.rs:362-365 | the order of addresses by group and offset is the order of the 64-bit addresses |
| `StoreJobs.ApplyDeallocPages` | photondb/src/page_store/jobs/flush.rs:237-263 | the loop takes exactly the listed pages out of the active pages of their groups |
| `StoreJobs.RetainIsDeactivate` | photondb/src/page_store/jobs/flush.rs:276-281 | the loop followed by dropping empty groups is the deactivation of a flush step |
| `StoreJobs.DrainObsoletedFiles` | photondb/src/page_store/jobs/flush.rs:276-312 | exactly the files with no group left, and no dealloc page of a group left, are obsolete |
| `StoreJobs.CollectDeallocPages` | photondb/src/page_store/jobs/flush.rs:314-349 | splits the dealloc records into pages of older groups and pages of the buffer itself, losing none |
| `StoreJobs.RecoverPageTable` | photondb/src/page_store/recover.rs:150-180 | each id ends with its largest address, and an id without an entry stays unset |
| `StoreJobs.RecoveryAfterAnyRun` | photondb/src/page_store/recover.rs:150-180 | after any run the recovery loop over the listed page tables gives every id its last flushed update |
| `Manifest.ApplyVersionEdits` | photondb/src/page_store/recover.rs:72-91 | the loop computes the replay of the edits |
| `Manifest.ManifestLog.NextFileId` | photondb/src/page_store/manifest.rs:73-89 | the id is larger than every id handed out before and every id that the manifest mentions |
| `Manifest.ManifestLog.RecordVersionEdit` | photondb/src/page_store/manifest.rs:91-161 | whether it appends or rolls, replaying the manifest gives the old file set with the edit applied; it rolls exactly when no file is open or the file is too large, which bounds the size |
| `Manifest.ReplayRecorded` | photondb/src/page_store/manifest.rs:91-161 | recording an edit, rolled or not, makes the replay the edited file set |
| `Manifest.ReplayGivesCurrentVersion` | photondb/src/page_store/recover.rs:216-224 | in every run the replay is the current version's file set and the recovered next id exceeds every file id and group id ever recorded |
| `LruCache.LruShard.constructor` | photondb/src/page_store/cache/lru.rs:235-258 | an empty shard satisfies the invariant |
| `LruCache.LruShard.MaintainPrioritySize` | photondb/src/page_store/cache/lru.rs:450-486 | ends with the high run within its capacity and no charged low entry, without changing the order of the ring; it demotes the oldest high entries and not one more than it takes; the cursors never reach the head and no counter underflows |
| `LruCache.LruShard.LinkLru` | photondb/src/page_store/cache/lru.rs:383-448 | a high entry joins behind all others as a recent one and directly before the entries flagged high as an old one; any other joins behind exactly the entries flagged bottom as a recent one and before all as an old one |
| `LruCache.LruShard.UnlinkLru` | photondb/src/page_store/cache/lru.rs:488-523 | the ring loses exactly the entry; a cursor on it steps back; counters stay exact |
| `LruCache.LruShard.LinkFile` | photondb/src/page_store/cache/lru.rs:547-562 | the file's ring gains the entry and every other file ring stays |
| `LruCache.LruShard.UnlinkFile` | photondb/src/page_store/cache/lru.rs:564-580 | the file's ring loses the entry, or ends with its last one |
| `LruCache.LruShard.ClearHandle` | photondb/src/page_store/cache/lru.rs:582-588 | frees a handle outside the ring and gives exactly its charge back |
| `LruCache.LruShard.EvictLru` | photondb/src/page_store/cache/lru.rs:525-545 | evicts a prefix of the ring, no longer than needed, and ends with room or an empty ring; refuses only a cold refill of a full cache, without effect |
| `LruCache.LruShard.Insert` | photondb/src/page_store/cache/lru.rs:260-301 | the new entry is in the table with one reference; what is evicted and replaced is exact; the cache is within capacity or the ring is empty; a refused cold refill gets a detached handle |
| `LruCache.LruShard.Release` | photondb/src/page_store/cache/lru.rs:303-334 | the last reference puts the entry to rest, a recent high page at the very end and the others where their priority and token say, or frees it, exactly by table membership, usage and token |
| `LruCache.LruShard.RecentOutlives` | photondb/src/page_store/cache/lru.rs:525-545 | after a high page is returned as recent, any number of evictions takes the entries that rested before it, oldest first, and the page stays until they are gone |
| `LruCache.LruShard.Lookup` | photondb/src/page_store/cache/lru.rs:336-349 | a hit takes an idle entry out of the ring and adds one reference; a miss changes nothing |
| `LruCache.LruShard.Erase` | photondb/src/page_store/cache/lru.rs:351-357 | the key leaves the table; an idle handle is freed, a referenced one lives on |
| `LruCache.LruShard.EraseFilePages` | photondb/src/page_store/cache/lru.rs:359-372 | exactly the resting pages of the file are gone; every other entry stays |
| `LruRuns.UnlinkAt` | photondb/src/page_store/cache/lru.rs:505-510 | two pointer writes take a node out of a ring and leave a ring of the others |
| `LruRuns.LinkAt` | photondb/src/page_store/cache/lru.rs:400-401 | two pointer writes put a node between two neighbours of a ring |
| `LruRuns.FileLinked` | photondb/src/page_store/cache/lru.rs:547-562 | linking before the head of a file's ring keeps all file rings exact |
| `LruRuns.FileUnlinked` | photondb/src/page_store/cache/lru.rs:564-580 | unlinking from a file's ring keeps all file rings exact |
| `NotifySteps.OneCasKeeps` | photondb/src/util/notify.rs:234-253 | the lock-free store of a permit keeps the invariant, whoever holds the lock |
| `NotifySteps.LockedPopKeeps` | photondb/src/util/notify.rs:346-369 | popping and notifying the oldest waiter keeps the invariant |
| `NotifySteps.DropRemoveKeeps` | photondb/src/util/notify.rs:583-605 | removing a dropped waiter keeps the invariant |
| `NotifyTheorems.EveryState` | photondb/src/util/notify.rs:234-373 | the invariant and the balance of notifications hold in every state of every run |
| `NotifyTheorems.WaitingMeansListed` | photondb/src/util/notify.rs:234-373 | whenever the lock is free the word is WAITING exactly when the list is not empty, a permit and a listed waiter never coexist, and every notification is accounted for |
| `NotifyTheorems.NoAssertionFails` | photondb/src/util/notify.rs:328-373 | no assertion or unwrap of the code can fail in any run |
| `NotifyTheorems.NotifyWaitersReachesAll` | photondb/src/util/notify.rs:275-317 | a future created before a call of `notify_waiters` has left the list and is never past the test of the count, and every poll of it after the call returns ready |
| `NotifyTheorems.DropPassesOn` | photondb/src/util/notify.rs:583-624 | a notification given to a future that is dropped unread is with another waiter, stored, or merged into a stored one |
| `LinkedList.WaitList.PushFront` | photondb/src/util/linked_list.rs:147-166 | the list is the new node followed by the old list |
| `LinkedList.WaitList.PopBack` | photondb/src/util/linked_list.rs:170-186 | returns the last node, unlinked, and leaves the others; nothing on an empty list |
| `LinkedList.WaitList.IsEmpty` | photondb/src/util/linked_list.rs:189-196 | true exactly when the list is empty, and then the tail is null |
| `LinkedList.WaitList.Remove` | photondb/src/util/linked_list.rs:204-236 | takes out a member, and leaves the list alone for a node that is in no list |
| `LinkedList.NotifyOldest` | photondb/src/util/notify.rs:352-367 | the oldest waiter leaves the list and is notified; says whether it was the last |
| `LinkedList.NotifyAll` | photondb/src/util/notify.rs:293-304 | every waiter is notified once, oldest first, with its links cleared, and the list ends empty |
| `WriteBuffer.LoadApply` | photondb/src/page_store/write_buffer.rs:562-630 | unpacking a packed state gives it back |
| `WriteBuffer.ApplyLoad` | photondb/src/page_store/write_buffer.rs:562-630 | packing an unpacked word gives it back, so the packing is a bijection |
| `WriteBuffer.RecordHoldsPage` | photondb/src/page_store/write_buffer.rs:748-762 | a record has room for its page if and only if the size is at most 2^32 - 24, and is then aligned |
| `WriteBuffer.SafeCapacities` | photondb/src/page_store/write_buffer.rs:606-621 | allocation stays in bounds for every state and request if and only if the capacity is below 2^31 |
| `WriteBuffer.LargestCapacityOverlaps` | photondb/src/page_store/write_buffer.rs:606-621 | at capacity 2^31 two requests on an empty buffer are both granted, the second outside the buffer |
| `WriteBufferTheorems.EveryState` | photondb/src/page_store/write_buffer.rs:425-452 | the invariant holds in every interleaving of allocations, header writes, seals and releases |
| `WriteBufferTheorems.RecordInBounds` | photondb/src/page_store/write_buffer.rs:425-452 | every record is aligned, has room for its page and lies inside the buffer |
| `WriteBufferTheorems.RecordsAreDisjoint` | photondb/src/page_store/write_buffer.rs:425-452 | every record ends before the next one starts, and the last one inside the buffer |
| `WriteBufferTheorems.OffsetsAligned` | photondb/src/page_store/write_buffer.rs:606-621 | every record starts at a multiple of 8 |
| `WriteBufferTheorems.HeaderAssertion` | photondb/src/page_store/write_buffer.rs:398-416 | the bounds assertion on a header holds if and only if the record is not an empty one that ends at the end of the buffer |
| `WriteBufferTheorems.HeaderAssertionFails` | photondb/src/page_store/write_buffer.rs:398-416 | a run in which an empty page that ends at the capacity is allocated and its header fails the assertion |
| `WriteBufferTheorems.SealedIsFinal` | photondb/src/page_store/write_buffer.rs:260-294 | a sealed buffer stays sealed and gets no record and no writer any more |
| `WriteBufferTheorems.FlushedExactlyOnce` | photondb/src/page_store/write_buffer.rs:231-294 | the number of `Flush` results is one once the buffer is sealed and drained, and zero before |
| `WriteBufferTheorems.RefusalStands` | photondb/src/page_store/write_buffer.rs:425-452 | a refusal decided on a word read earlier is still right |
| `WriteBufferTheorems.FlushableIsReadable` | photondb/src/page_store/write_buffer.rs:302-307 | every record of a flushable buffer is initialized with the size it was allocated for |
| `WriteBufferTheorems.RecordIterator.Next` | photondb/src/page_store/write_buffer.rs:703-724 | passes exactly the tombstones and returns the next page or dealloc record with its header, 16 bytes behind the start of the record in the address space of its group |
| `WriteBufferTheorems.CollectRecords` | photondb/src/page_store/write_buffer.rs:671-724 | returns exactly the records flagged as page or as deallocation, each with its header and address, by ascending address, as many as there are records that are no tombstones |
| `Permits.PermitsAreConserved` | photondb/src/page_store/buffer_set.rs:479-565 | available and held permits always add up to the configured number, counting the one acquired for the first buffer |
| `Permits.UnflushedBuffersAreBounded` | photondb/src/page_store/buffer_set.rs:333-349 | buffers that are not saved yet are at most the held permits, which are at most the configured number, and all but the newest are sealed |
| `Permits.BlockedIsRemembered` | photondb/src/page_store/buffer_set.rs:519-588 | a task blocked in `acquire` or in a `NoWaiter` wait implies that the counter is 0, a wake-up is due, or it can wake up |
| `Permits.WaiterCanBeStranded` | photondb/src/page_store/buffer_set.rs:519-539 | a run in which a `HasPermits` wait sleeps on although a permit is there and nobody will notify |
| `Permits.StrandedIff` | photondb/src/page_store/buffer_set.rs:519-539 | a step strands such a waiter if and only if it is a release from counter 1 while the waiter is blocked and no notification is due |
| `PageTable.PathInBounds` | photondb/src/page_store/page_table.rs:108-118 | every id stays inside the arrays of its level |
| `PageTable.NoAlias` | photondb/src/page_store/page_table.rs:198-239 | distinct ids never share an entry |
| `PageTable.Slots.Store` | photondb/src/page_store/page_table.rs:108-118 | a store changes its own entry of the flat array and no other |
| `PageTable.Table.Alloc` | photondb/src/page_store/page_table.rs:120-143 | hands out the first free id, or the next one, never one that is held; nothing exactly when the ids are used up or the largest id heads the free list, where only a recovered mapping can put it |
| `PageTable.Table.Dealloc` | photondb/src/page_store/page_table.rs:145-158 | the id is the first of the free list, which still visits exactly the free ids |
| `PageTable.Table.Cas` | photondb/src/page_store/page_table.rs:67-71 | the compare-exchange of a held entry changes it exactly when the expected value is there and leaves the free list alone |
| `PageTable.Builder.Set` | photondb/src/page_store/page_table.rs:26-29 | one mapping changes, and the largest id is tracked |
| `PageTable.Builder.Build` | photondb/src/page_store/page_table.rs:31-47 | keeps every mapping and threads exactly the unused ids, smallest first |
| `SortedPage.IntRoundTrip` | photondb/src/page/codec.rs:30-39 | little-endian integers read back |
| `SortedPage.BytesRoundTrip` | photondb/src/page/codec.rs:30-39 | bytes are the digits of the number they decode to, the lowest first |
| `SortedPage.LeafRoundTrip` | photondb/src/page/sorted_page.rs:449-509 | a leaf item decodes to itself; a put takes all following bytes, a delete none |
| `SortedPage.LeafBytesMean` | photondb/src/page/sorted_page.rs:480-509 | what any bytes mean as a leaf item: little-endian key length, key, LSN, and a kind byte of which 0 is a put of all that follows, 1 is a delete and anything else no item |
| `SortedPage.InnerBytesMean` | photondb/src/page/sorted_page.rs:511-528 | what any bytes mean as an inner item: key length, key, page id and epoch |
| `SortedPage.StoredItems` | photondb/src/page/sorted_page.rs:480-528 | the stored bytes of a put, a delete and an inner item |
| `SortedPage.StoredPage` | photondb/src/page/sorted_page.rs:65-77 | the stored bytes of a page of two items: the offsets, then the items |
| `SortedPage.InnerRoundTrip` | photondb/src/page/sorted_page.rs:511-528 | an inner item decodes to itself, whatever follows it |
| `SortedPage.PageRoundTrip` | photondb/src/page/sorted_page.rs:147-190 | a page in a buffer of exactly its size has as many items as were added, each with its bytes |
| `SortedPage.ItemRoundTrip` | photondb/src/page/sorted_page.rs:245-256 | in any larger buffer all items but the last read back, and the last one also gets the rest of the buffer |
| `SortedPage.LeafPageRoundTrip` | photondb/src/page/sorted_page.rs:65-77 | a leaf page reads back if and only if the buffer has the exact size or the last item is a delete |
| `SortedPage.PaddedPutIsWrong` | photondb/src/page/sorted_page.rs:65-77 | one put in a buffer with one byte too many reads back with that byte added to its value |
| `SortedPage.Encoder.PutSlice` | photondb/src/page/codec.rs:74-77 | writes the bytes at the cursor and nothing else |
| `SortedPage.SortedPageBuf.Add` | photondb/src/page/sorted_page.rs:125-130 | one more offset and one more item are in place |
| `SortedPage.ContentSize` | photondb/src/page/sorted_page.rs:42-53 | the first pass computes the exact size |
| `SortedPage.BuildPage` | photondb/src/page/sorted_page.rs:65-77 | the content built item by item is the encoding of the page |
| `PageFile.WordsRoundTrip` | photondb/src/page_store/page_file/file_builder.rs:138-168 | a block of words reads back |
| `PageFile.GroupReads` | photondb/src/page_store/page_file/read_meta.rs:75-97 | a group whose blocks are in the file and decode is read back with its handles, page infos and page table |
| `PageFile.PageIndexesRead` | photondb/src/page_store/page_file/read_meta.rs:112-129 | the page index block reads back |
| `PageFile.FileRoundTrip` | photondb/src/page_store/page_file/read_meta.rs:30-72 | the metadata of a file reads back exactly: place of every group, offset, meta word and next address of every page, page tables, dealloc pages |
| `PageFile.StoredFile` | photondb/src/page_store/page_file/map_file_builder.rs:104-175 | the stored words of a file with one group and one page: page, page table, data index, meta index, group index, dealloc pages, footer |
| `PageFile.GroupLayout` | photondb/src/page_store/page_file/file_builder.rs:83-104 | the metadata of pages added in address order has ascending offsets that start at the base and end at the page table |
| `PageFile.PageContentsRead` | photondb/src/page_store/page_file/types.rs:186-195 | with the handles a group computes from the metadata every page of the file reads as the bytes it was stored with |
| `FileBuilder.SortedSetIs` | photondb/src/page_store/page_file/map_file_builder.rs:116-118 | the dealloc pages of a file are those added, ascending, each once |
| `FileBuilder.Builder.AddPage` | photondb/src/page_store/page_file/file_builder.rs:35-50 | what is in the file, and what is remembered for its indexes, is what the layout says for the groups so far and one page more |
| `FileBuilder.Builder.FinishGroup` | photondb/src/page_store/page_file/map_file_builder.rs:212-232 | page table, data index and meta index are in the file, and the group joins the finished ones |
| `FileBuilder.Builder.AddDeallocPages` | photondb/src/page_store/page_file/map_file_builder.rs:116-118 | the dealloc pages grow by those given, as an ordered set |
| `FileBuilder.Builder.Finish` | photondb/src/page_store/page_file/map_file_builder.rs:120-175 | the file is the layout of the finished groups and the dealloc pages, with nothing left in the buffer |
| `FileBuilder.WriteFile` | photondb/src/page_store/page_file/map_file_builder.rs:104-232 | for any groups, batch size and alignment, buffered or direct, the builder writes exactly the bytes of the layout |
| `FileBuilder.WrittenMetaReads` | photondb/src/page_store/page_file/read_meta.rs:30-72 | the metadata of every written file reads back: groups, page tables, and dealloc pages in order |
| `FileBuilder.WrittenPageReads` | photondb/src/page_store/page_file/types.rs:186-195 | every page of every written file reads back as the bytes that were added, followed by its checksum |
| `BufferedWriter.Writer.WriteBlock` | photondb/src/page_store/page_file/file_builder.rs:351-371 | appends the block and its checksum and returns where it starts |
| `BufferedWriter.Writer.FillBuf` | photondb/src/page_store/page_file/file_builder.rs:373-388 | what was written is the file followed by the buffer, across any number of flushes |
| `BufferedWriter.Writer.FlushAndSync` | photondb/src/page_store/page_file/file_builder.rs:390-415 | the file is the exact concatenation of the blocks, buffered or direct |
| `PageGroup.FixedBitmap.Set` | photondb/src/util/bitmap.rs:26-34 | adds one index, says whether it is new, and keeps the count exact |
| `PageGroup.FixedBitmap.Clear` | photondb/src/util/bitmap.rs:38-46 | removes one index, says whether it was there, and keeps the count exact |
| `PageGroup.FixedBitmap.Test` | photondb/src/util/bitmap.rs:49-52 | true exactly for the indexes that are set |
| `PageGroup.FixedBitmap.Free` | photondb/src/util/bitmap.rs:70-79 | counts the unset bits without underflow; none is left exactly when every bit is set |
| `PageGroup.BuildPageMetaMap` | photondb/src/page_store/page_file/types.rs:231-272 | one entry per page under the low half of its address, with its index, offset and size up to the next page or the page table; exact below 4 GiB, and the panic exactly when the truncated offsets go down |
| `PageGroup.FixSizes` | photondb/src/page_store/page_file/types.rs:236-269 | the loop that fixes each size at the next page gives every page its size, or fails exactly when an offset is below the one before |
| `PageGroup.WrapsAtTheBoundary` | photondb/src/page_store/page_file/types.rs:239-262 | a layout with a page across 4 GiB for which the subtraction of the truncated offsets panics |
| `PageGroup.TruncatedIsWrong` | photondb/src/page_store/page_file/types.rs:239-266 | for every group behind 4 GiB the truncated metadata is not the metadata of its pages |
| `PageGroup.BelowFourGiB` | photondb/src/page_store/page_file/types.rs:239-266 | in a file below 4 GiB nothing is truncated and nothing wraps |
| `PageGroup.Group.constructor` | photondb/src/page_store/page_file/types.rs:81-89 | a new group has the total size of its pages as active size |
| `PageGroup.Group.DeactivatePage` | photondb/src/page_store/page_file/types.rs:96-107 | deactivates a page known by the low half of its address once; the active size stays the sum of the active pages and never underflows |
| `PageGroup.Group.GetPageHandle` | photondb/src/page_store/page_file/types.rs:111-118 | the handle of an active page, found by the low half of its address, and nothing for an unknown or deallocated one |

## Left out

- The retry loops of `get`, `write` and the structure changes are modelled by their compare-exchanges and loads as steps that may fail and be tried again; that a write ends is not claimed, since a split without a separator returns `Ok` and the caller tries again.
- Raw keys are elements of a total order; `Bytes.EmbeddingKeepsOrder` says why this loses nothing. Page sizes and the thresholds that decide when to split or consolidate are left open: a step may happen whenever its data allow it.
- LSNs of one raw key are taken to be written in increasing order, as the table layer does; reads are claimed at or above the safe LSN only.
- The 48-bit epoch and the byte-sized chain length are a natural number and a saturating counter.
- The tree model has every page of a transaction appear at its compare-exchange; pages of failed attempts are not modelled, and the page store models aborted pages as never published.
- `reclaim` thresholds, victim strategies, statistics and shutdown paths: no further properties.
- TreeScanTheorems.ScanReadsTheMap: is about finished scans; that a scan ends is not claimed, since writers may split ahead of it. An iterator that failed with an I/O error is not continued.
- PageStoreDead.BitmapsAgree: leaves out revived groups, because there the code does bring dead pages back: a compaction takes the active pages from the version it started with, and recovery finds groups that were dropped as empty. `PageStoreRecovery.RestartReads` covers what can be read in every group.
- Manifest records are appended atomically; torn last records, encoding of edits and the `CURRENT` file switch are not modelled.
- Compression, checksums and the contents of pages are opaque bytes; the flag bytes of the footer are not checked against the known kinds, and the page size inside the page info is not compared after a file round trip.
- PageFile.FileRoundTrip: is on sequences of bytes; the loops of the reader are functions over the remaining bytes here, so their cursors are not modelled. That the bytes are those the builder writes is `FileBuilder.WriteFile`.
- FileBuilder.WriteFile: takes the pages of a group in address order, as flush and compaction add them; statistics and the block cache are left out.
- LruCache.LruShard.MaintainPrioritySize: has 0 as the capacity of the low run, because the store configures the low ratio 0.
- LruCache.LruShard.LinkLru: leaves out the branch for a positive low-priority ratio, because the store configures the ratio 0; hash shards, statistics and values are left out too.
- LruCache.LruShard.Insert: erases the replaced entry before the new one is stored, where the code stores first; the states before and after the call are the same.
- PageTable.Table.Alloc: `alloc` and `dealloc` are single steps; the ABA argument rests on epoch-based reclamation, which is not modelled.
- PageGroup.FixedBitmap.Set: words are sequences of 64 bits; the shifts and masks on machine words are not modelled.
- NotifyTheorems.EveryState: counts of `notify_waiters` calls are unbounded; wakers are not modelled beyond the waiter they belong to.
- `HasPermits` waits have no wake-up guarantee; `Permits.WaiterCanBeStranded` and `Permits.StrandedIff` say exactly when they miss one.
- Memory orderings, epoch reclamation, `Arc` and `Box` lifetimes, the clock cache, `Latch`, page header bit packing, the environment layer and the table wrappers: not part of this model.
