# Verified model of the trie database's metadata, lookup and copy code

This project models the on-disk core of the Monad trie database (`category/mpt`, with two pieces of
`category/async` and `category/core`) in Dafny and proves what it promises.

## What is modelled

**The crash-safe metadata context.** The database keeps two copies of its metadata header, and for each
copy a ring of root offsets, one per version, stored in a list of chunks. Three operations restructure the
rings: *activate* gives half of the primary ring's chunks to a secondary timeline, *deactivate* takes them
back, *promote* swaps the roles. Every store is a step (`Disk.Write`), a process crash keeps a prefix of the
stores, and opening the database runs dirty recovery and then replays a stamped operation. Ring entries belong
to (copy, chunk, entry) cells, not to rings, because one chunk serves different rings over time.

- `Disk`, `Programs`: headers, cells, stores, and each operation and the recovery as the stores they make.
- `Arithmetic`, `RingData`, `Phases`, `PhaseData`: ring positions, and what a body does to headers and entries.
- `CrashSafety`, `Outcomes`, `CrashTheorems`, `HistoryLengths`, `ActivateCrash`, `TornStamp`, `TornActivate`,
  `Lifecycle`, `Setters`: the results over all crash points and all runs.
- `Agreement`, `IdleBounds`: the exact conditions when the two copies may disagree. `Reachability`: what every run of
  operations, calls and setters keeps, each killed anywhere.
- `RingCalls`, `ClientCalls`, `ClientHistory`: append, update and fast forward as stores into both copies, what is left
  of them when they die, and the history they make between activation and deactivation.
- `MetadataContext`: the same operations as a class that stores into its copies in place, one store at a time,
  reading headers and entries while it changes them; each method makes exactly the stores of its program.
- `RootOffsets`, `RootOffsetsRing`: the root-offsets ring and the calls on both copies, as functions with
  their laws and as classes that work on arrays.
- `Migration`, `Reopening`, `MigrationCrash`: the byte moves from layout MONAD007 to MONAD008, opening a pool
  that may need them as the list of byte stores it makes, and dying in it any number of times. `MigratedPool`:
  splitting the ring of a pool that was migrated.

**Trie lookup and copying.** `Trie` defines tries, their serialized form and plain lookup. `Lookup` has the
four lookup routines over memory, cache and disk. `World`, `AsyncFind`, `AsyncSafety` and `AsyncCache` are the
asynchronous lookup as a state machine in which any number of requests, read completions, cache evictions and steps
of the writer (append, expire, recycle) interleave. `CopyTrie` is the copying of a subtrie under another prefix.

**Two smaller cores.** `BranchEncoding` has the two encoders of a branch node; `Interleave` the loop that
spreads chunks over devices.

## Conventions

- A run is `RunTo(op, o, k, ks)`: operation `op` on disk `o` dies after `k` stores, and then one open after
  another dies after the numbers of stores in `ks`. `Recovered(d)` is the disk after an open that completes.
  `Quiescent(op, o, total)`: clean, no pending intent, chunk lists and live windows well formed, and both copies
  agree, the history length apart. An open leaves the first two, and the public calls assert that nothing is pending
  and count the chunks of copy 0; nothing asserts that the copies agree. `Callable(op, o, total)` leaves that out:
  each copy is well formed by itself, and only the chunk lists and the roles are the same in both, which they are on
  every reachable disk (`EveryReachable`).
- `SameVersions(d, e)`: no query about timelines, versions, offsets, bounds, capacities or auto-expire values
  tells the two disks apart; `SameAnswers(d, e)`: nor do the history length and the consensus markers. All
  queries read copy 0. `SameLengths(o)`: both copies have the same history length.
- A migration run is `AfterDeaths(d, n, ks)`: one open after another dies after the numbers of byte stores in
  `ks`. Bytes of one copy or move are stored lowest address first.
- Capacities, positions and remainders are defined by repeated addition and subtraction; `CapIsProduct`,
  `WrapIsRemainder` and `TimesIsProduct` tie them to multiplication.
- Assertions of the code that stop the process are `requires` of the operation when they are obligations of
  the caller, and outcomes (`Aborted`, `Abort`) when they depend on stored data.

## Findings

- *Activating a migrated pool destroys it.* Activation takes a slot of the secondary chunk list that is not null for
  one already handed over (`category/mpt/db_metadata_context.cpp:1149-1181`). A new pool fills the list with nulls
  (line 401), but the migration zeroes it (lines 278-285; `MigratedHeader`), and 0 is the chunk of the metadata: the
  secondary ring is mapped onto the copy that is being worked on, and the `memset` at line 1195 turns it into 0xff.
  `SplitRightIff` says when the split is right, `SplitWipes` what is left of each copy, `MigratedPoolLost` that no
  later open loads the pool.
- *The copies may disagree, and the first store of an operation decides for copy 1.* Nothing asserts that the headers
  agree, and a call or setter that dies between its two scopes leaves them apart. An operation that dies with its
  first store then makes queries read what copy 1 held (`FirstStore`), so agreement of everything a query shows is
  part of every exact condition (`AllOrNothingIff`, `DeactivateAtomicExactly`, `ActivateAtomicExactly`), and nothing
  else about the headers is. On a new pool one version is appended and erased, an operation dies with its first store,
  and the empty database reports version 0 (`EmptyPoolReportsVersion`).
- *A call that dies in copy 0 leaves old bounds over new entries,* because the open restores the header and not the
  ring. `AppendAtomicIff`, `UpdateAtomicIff` and `FastForwardAtomicIff` say exactly when that shows; a fast forward
  that resets the ring loses every version if it dies after the `memset` (`ForwardKilled`). An append that dies
  between its scopes leaves copy 1 one version behind through any number of further appends (`AppendSplitsIff`,
  `BehindForGood`).
- *Activate blanks entries it may still need.* The comment at `category/mpt/db_metadata_context.cpp:1123-1126`
  says the sources of the ring copy are never written, but the `memset` at line 1195 blanks them while copy 0
  can still be rolled back. `ActivateOneCrash` says for each crash point exactly when the crash is survived,
  `ActivateCrashSafeIff` says when all of them are, and `ActivateLosesVersion` has a disk that loses a version.
- *A crash exactly between the two intent stamps, and a second one during replay,* rolls the intent back with
  ring entries already overwritten. For deactivate the primary timeline is always safe; `DeactivateAtomicIff`
  gives the exact condition on agreeing copies and `DeactivateAtomicExactly` on any, `DeactivateLosesSecondary` a
  disk. For activate `ActivateAtomicIff` and `ActivateAtomicExactly` do; there the same pair of crashes can also skip
  the cap of the history length for good, on every new pool (`NewPoolNotAtomic`).
- *The history length can end above the capacity.* Its cap is tested on copy 0 and stored in two scopes (line
  1210). A crash exactly between them leaves copy 1 behind for good (`LengthsAgreeIff`, `AllRunsAgreeIff`), and the
  next operation that dies with its first store brings the old length back (`LengthAboveCapacity`), on every new pool
  (`NewPoolLength`). Below a capacity of 300 the cap fails its own assertion, and then every open does
  (`OpensIff`).
- *`update_root_offset` never resets copy 1.* Erasing the newest version when no other is readable resets copy 0
  only, because the second test reads copy 0 after it was reset (`StepEqualIff`; a new pool: `NewRingSplits`).
- *`push` overwrites the oldest version of a full window* (`PushFullIff`, `NewRingOverwrites`); the window is the
  caller's obligation.
- *`clear_root_offsets_up_to_and_including` does not end* on a ring that is empty but not reset
  (`ClearNeverEnds`), for instance a new one that was moved forward (`NewRingNeverCleared`).
- *`rewind_to_version` below the lower bound* makes whatever the target's slot still holds readable
  (`RewindView`); its one caller asserts a valid version.
- *The MONAD007 migration is right up to 64981 chunks* and wrong from 64982 on (`RelocatedIff`). Repeating it on
  a half-migrated copy is harmless up to 65501 chunks (`ReplayIdempotentIff`).
- *Healing copies the clean flag before the rest* (lines 183-196). One crash in a migration is always repaired
  (`OneCrash`). A second one, after 16 bytes of healing copy 1, leaves a copy 1 that passes for clean and is
  not, unless the remaining bytes happen to agree (`TwoCrashesIff`, `AnyCrashesIff`; `TornCopyPasses` and
  `TornCopySpreads` show it on every pool whose byte 432 is not zero).

## Model

| member | source | states |
|---|---|---|
| `CrashSafety.RunShape` | category/mpt/db_metadata_context.cpp:325-341 | At every store of every run the two copies are never dirty together, and what dirty recovery would reinstate is the header before or the header after the operation, with copy 0 leading and an unfinished pair still carrying the intent. |
| `CrashSafety.RecoverySplit` | category/mpt/db_metadata_context.cpp:829-899 | A crash during an open leaves either what the dirty restore would reinstate anyway, or the stamped operation's body under way on the restored disk. |
| `Outcomes.RecoveryExact` | category/mpt/db_metadata_context.cpp:829-899 | Every completed open lowers both flags and clears the intent on both copies; all queries answer as before the operation (if rolled back) or as after it, if and only if the entries needed are intact and the history length copy 0 settles on is the one expected; what both lengths settle on. |
| `CrashTheorems.AnyNumberOfCrashes` | category/mpt/db_metadata_context.cpp:1265-1486 | Deactivate and promote, with any number of crashes anywhere, replay included: a first crash before the fourth store leaves every query about versions as it was, one after the fourth store leads to the complete operation; and every other query too, if the copies agreed on the history length. |
| `CrashTheorems.AnyNumberOfCrashesIff` | category/mpt/db_metadata_context.cpp:1265-1486 | On copies assumed to agree in everything but the history length: all these runs are all-or-nothing for every query if and only if they agreed on that too. `Agreement.AllOrNothingIff` drops the assumption. |
| `Agreement.FirstStore` | category/mpt/db_metadata_context.cpp:1002-1022 | On every clean disk without intent, an operation that dies with its first store makes copy 0 what copy 1 was, over the same entries. |
| `Agreement.AgreementNeeded` | category/mpt/db_metadata_context.cpp:1401-1486 | So on every such disk all-or-nothing over all runs needs copy 1 to answer every query as copy 0 does. |
| `Agreement.AllOrNothingIff` | category/mpt/db_metadata_context.cpp:1401-1486 | Deactivate and promote on copies of which only the chunk lists and roles are assumed to agree: all runs are all-or-nothing for every query if and only if copy 1 answers every query as copy 0 does. |
| `Agreement.CompleteMirror` | category/mpt/db_metadata_context.cpp:1033-1486 | Copy 0 goes through a complete operation as if copy 1 were its mirror image, whatever copy 1 holds. |
| `CrashTheorems.DeactivatePromoteSafe` | category/mpt/db_metadata_context.cpp:1265-1486 | In every such run each retained primary version reads its old offset; after a rollback of promote, and otherwise in all cases, queries answer as before or as complete, the role index is the recorded target, and copies that agreed on the history length still do. |
| `TornStamp.DeactivateAtomicIff` | category/mpt/db_metadata_context.cpp:1002-1022 | On copies assumed to agree in everything but the history length: deactivate is atomic for every query over all crash points and all further crashes if and only if no live secondary entry can be lost or covered and the copies agree on the history length. |
| `Agreement.DeactivateAtomicExactly` | category/mpt/db_metadata_context.cpp:1401-1447 | On copies of which only the chunk lists and roles are assumed to agree: if and only if no live secondary entry can be lost or covered and copy 1 answers every query as copy 0 does. |
| `TornStamp.NotAlwaysAtomic` | category/mpt/db_metadata_context.cpp:1002-1022 | Whenever that condition fails, two crashes leave neither the state before nor the state after. |
| `TornStamp.DeactivateLosesSecondary` | category/mpt/db_metadata_context.cpp:1265-1399 | A concrete disk and crash points with that outcome. |
| `TornActivate.ActivateAtomicIff` | category/mpt/db_metadata_context.cpp:1033-1213 | On copies assumed to agree in everything but the history length: activate is atomic for every query over all crash points and all further crashes if and only if no readable version is stored where it writes, it has no history length to cap, and the copies agree on that length. |
| `IdleBounds.ActivateAtomicExactly` | category/mpt/db_metadata_context.cpp:1215-1263 | On copies of which only the chunk lists and roles are assumed to agree: if and only if no readable version is stored where it writes, it has no history length to cap, and copy 1 answers every query as copy 0 does; the bounds left in the idle ring do not matter. |
| `IdleBounds.RunTracks` | category/mpt/db_metadata_context.cpp:1033-1213 | Two disks that differ only in the bounds of the idle ring stay so, store by store, through every run, and are equal there once the ring is live. |
| `TornActivate.NotAlwaysHarmless` | category/mpt/db_metadata_context.cpp:1123-1196 | Whenever a readable version is stored where it writes, two crashes leave neither the state before nor the state after. |
| `TornActivate.SkipsCap` | category/mpt/db_metadata_context.cpp:1208-1212 | Two crashes complete an activation that should have capped the history length and has not. |
| `TornActivate.NewPoolNotAtomic` | category/mpt/db_metadata_context.cpp:421-434 | This happens to every new pool whose half ring holds the minimum history. |
| `HistoryLengths.LengthsAgreeIff` | category/mpt/db_metadata_context.cpp:1208-1212 | One crash at any store: copy 0 reports the length before the call or the one a complete operation leaves, and the copies agree on it afterwards if and only if no cap was needed or the crash did not fall exactly between the two stores of the cap. |
| `HistoryLengths.AnyRunLengths` | category/mpt/db_metadata_context.cpp:1208-1212 | Over every run copy 0 reports the length found or the cap; the copies agree afterwards if and only if dirty recovery would reinstate equal lengths or the replay stores the cap on both, and always when no cap was needed. |
| `HistoryLengths.AllRunsAgreeIff` | category/mpt/db_metadata_context.cpp:1208-1212 | The copies agree on the length after all runs, with any number of crashes, if and only if no cap is needed or the half ring is below the minimum history, so that every replay caps again. |
| `HistoryLengths.RollsBackLength` | category/mpt/db_metadata_context.cpp:1002-1022 | An operation on copies that disagree, dying with its first store, replaces the reported length by the one of copy 1 and changes nothing else. |
| `HistoryLengths.LengthAboveCapacity` | category/mpt/db_metadata_context.cpp:1208-1212 | Activation dying between the two stores of its cap, then promotion dying with its first store: the reported length is above the capacity of the primary ring. |
| `HistoryLengths.NewPoolLength` | category/mpt/db_metadata_context.cpp:421-434 | This run exists on every new pool whose half ring holds the minimum history. |
| `ActivateCrash.ActivateOneCrash` | category/mpt/db_metadata_context.cpp:1033-1213 | One crash at any store of activate, on copies that agree on the history length: before the fourth store nothing has happened; later, recovery answers every query as the completed activation if and only if no version to be kept was among the entries blanked so far inside copy 0's dirty scope. |
| `ActivateCrash.ActivateCrashSafeIff` | category/mpt/db_metadata_context.cpp:1123-1196 | Every crash point is survived if and only if, before the call, no version to be kept is stored in the half that is given away. |
| `ActivateCrash.ActivateLosesVersion` | category/mpt/db_metadata_context.cpp:1193-1195 | A concrete disk and crash point at which a version is lost. |
| `Lifecycle.ActivateAnswers` | category/mpt/db_metadata_context.cpp:1080-1213 | Activation keeps every version from the larger of the lower bound and next version less new capacity at its offset, reports that one as the lower bound, exposes nothing older, opens an empty secondary timeline, and caps the history length at the new capacity or the minimum. |
| `Lifecycle.DeactivateAnswers` | category/mpt/db_metadata_context.cpp:1335-1394 | Deactivation keeps all live versions at their offsets and closes the secondary timeline. |
| `Lifecycle.PromoteAnswers` | category/mpt/db_metadata_context.cpp:1449-1486 | After promotion each timeline answers what the other did: history, bounds and auto-expire value follow the ring. |
| `Lifecycle.CompleteRest` | category/mpt/db_metadata_context.cpp:1193-1486 | The rest of what queries show after a complete operation: consensus markers unchanged on both copies, auto-expire values with their rings, the history length changed by activation only, each timeline with the capacity of its chunks, the secondary active or not. |
| `Lifecycle.FreshSound` | category/mpt/db_metadata_context.cpp:389-430 | A fresh pool has well-formed, agreeing, clean copies. |
| `Lifecycle.EveryRun` | category/mpt/db_metadata_context.cpp:1033-1486 | In every run of operations from a fresh pool, each crashed any number of times: the primary holds all chunks or each ring half, the id lists are disjoint and together exactly 1..N, slots past each length are null, and capacities stay powers of two. |
| `Reachability.EveryReachable` | category/mpt/db_metadata_context.cpp:539-673 | In every run from a fresh pool of operations, appends, updates, fast forwards and setters, each killed anywhere and followed by any number of opens killed anywhere: nothing is dirty or pending after the open that completes, both copies have the same chunk lists and roles, and the chunks are partitioned as before. |
| `Reachability.RunFollows` | category/mpt/db_metadata_context.cpp:1033-1486 | What any run does to chunk lists, roles, intents and flags, on any disk, a run on the disk without versions and markers does too. |
| `Reachability.ReachableCallable` | category/mpt/db_metadata_context.cpp:1215-1233 | On every reachable disk whose live bounds are windows, an operation that passes its assertions meets the conditions under which the results for disagreeing copies hold. |
| `Lifecycle.UninterruptedEvent` | category/mpt/db_metadata_context.cpp:1215-1263 | An operation that is not interrupted, followed by an open, is the complete operation. |
| `Setters.MarkersNeverMix` | category/mpt/db_metadata_context.cpp:562-584 | In every run of setters, operations and opens, each killed anywhere, the voted (or proposed) version and block id read after recovery come from one single call or were there initially; the copies are never dirty together. |
| `Setters.SetterSets` | category/mpt/db_metadata_context.cpp:562-584 | On every clean disk a completed call makes both copies hold the pair it was given and leaves the other marker, all other fields and the entries alone. |
| `Setters.KilledSetter` | category/mpt/db_metadata_context.cpp:562-584 | Killed once the four stores to copy 0 are made, the next open reports the new pair, also when it replays an operation; killed earlier it reports the pair of copy 1, or of copy 0 if nothing was stored. |
| `Setters.SetterSticks` | category/mpt/db_metadata_context.cpp:562-584 | A completed call is what queries report through every later run without another call of that setter. |
| `Reachability.SetterSets` | category/mpt/db_metadata_context.cpp:539-620 | The same for every setter: finalized, verified, voted, proposed, auto-expire and history length; an auto-expire value goes to its own timeline and the other timeline keeps its value. |
| `Reachability.SetterKilled` | category/mpt/db_metadata_context.cpp:539-620 | Each of them killed anywhere: the next open reports the new value if and only if the stores to copy 0 were complete; otherwise it has the header of copy 1, or of copy 0 if nothing was stored. |
| `ClientHistory.ActivateUseDeactivate` | category/mpt/db_metadata_context.cpp:1335-1394 | Activate, then any appends, updates, erases (of the last readable version too, which starts over) and moves forward on the primary within the window, then deactivate, on copies that may differ in all but their chunk lists: the chunk list is back in order, the secondary is empty, and every query answers from the map that the calls describe, starting from the versions activation kept. |
| `ClientHistory.StepsDescribed` | category/mpt/db_metadata_context.cpp:622-673 | The history the calls make is, as a map, the one they describe: appends count versions up, an update replaces or removes one, a move forward keeps all or drops all. |
| `ClientHistory.EraseDescribed` | category/mpt/db_metadata_context.cpp:633-648 | Erasing a live version removes it and nothing else, and resets the ring if and only if it was the newest and no other was readable. |
| `ClientCalls.CallStep` | category/mpt/db_metadata_context.cpp:622-673 | On every clean disk, agreeing or not, the stores of an append, update or fast forward do to the primary ring of each copy what the call does to the rings, and keep everything else. |
| `ClientCalls.UsedSteps` | category/mpt/db_metadata_context.cpp:622-673 | The same for any number of calls. |
| `RingCalls.StoresPerform` | category/mpt/db_metadata_context.hpp:128-184 | The single stores of push, assign and reset, performed in order on each copy, amount to the call. |
| `ClientCalls.AppendAtomicIff` | category/mpt/db_metadata_context.cpp:622-631 | An append on agreeing copies, killed anywhere, is all-or-nothing for every query if and only if the window has room or the entry it overwrites is the same. |
| `ClientCalls.UpdateAtomicIff` | category/mpt/db_metadata_context.cpp:633-648 | An update of a live version is, if and only if it changes nothing or neither bound. |
| `ClientCalls.FastForwardAtomicIff` | category/mpt/db_metadata_context.cpp:650-673 | A fast forward is, if and only if it drops no readable version. |
| `ClientCalls.ForwardKilled` | category/mpt/db_metadata_context.hpp:173-184 | A fast forward that resets the ring, killed after the `memset` of copy 0: the old bounds are back and every query returns the invalid offset. |
| `ClientCalls.AppendSplitsIff` | category/mpt/db_metadata_context.cpp:622-631 | On copies with equal headers and entries: after an append killed anywhere and an open the headers differ if and only if it died exactly between its two scopes; then copy 1 is one version behind. |
| `ClientCalls.BehindForGood` | category/mpt/db_metadata_context.cpp:622-631 | And stays one version behind after any number of further appends. |
| `ClientCalls.EmptyPoolReportsVersion` | category/mpt/db_metadata_context.cpp:633-648 | A new pool on which one version was appended and erased reports none; after an operation that dies with its first store it reports version 0. |
| `ClientHistory.CompleteSync` | category/mpt/db_metadata_context.cpp:1045-1206 | Copies with equal entries still have equal entries after a complete operation. |
| `MetadataContext.OpensIff` | category/mpt/db_metadata_context.cpp:605-618 | At every point of every run none of the assertions of recovery, replay and the cap fails, if and only if a length that needs capping can be capped at the minimum or above. |
| `MetadataContext.NewPoolOpensIff` | category/mpt/db_metadata_context.cpp:421-434 | For a new pool: if and only if its half ring holds the minimum history. |
| `MetadataContext.ShrinkApart` | category/mpt/db_metadata_context.cpp:1123-1142 | While the ring is halved, no entry is written to a position another is still to be read from. |
| `MetadataContext.GrowApart` | category/mpt/db_metadata_context.cpp:1335-1382 | The same while it is doubled. |
| `MetadataContext.DbMetadataContext.CopyEntries` | category/mpt/db_metadata_context.cpp:1127-1142 | The in-place copy loop stores for each moved version the entry found before the loop. |
| `MetadataContext.DbMetadataContext.MoveIds` | category/mpt/db_metadata_context.cpp:1166-1181 | The hand-over loop makes the stores of the program, skipping slots that already hold a chunk. |
| `MetadataContext.DbMetadataContext.FillSpan` | category/mpt/db_metadata_context.cpp:1193-1195 | The fill stores the invalid offset into the given positions and changes no other entry. |
| `MetadataContext.DbMetadataContext.ActivateCopy` | category/mpt/db_metadata_context.cpp:1043-1207 | The activation body on one copy makes its program's stores and leaves the other copy alone. |
| `MetadataContext.DbMetadataContext.DeactivateCopy` | category/mpt/db_metadata_context.cpp:1274-1398 | The same for the deactivation body. |
| `MetadataContext.DbMetadataContext.PromoteCopy` | category/mpt/db_metadata_context.cpp:1449-1458 | The same for promotion: the absolute target under the dirty flag. |
| `MetadataContext.DbMetadataContext.SetPending` | category/mpt/db_metadata_context.cpp:1002-1022 | Both copies are stamped, one dirty scope each, and nothing else changes. |
| `MetadataContext.DbMetadataContext.ClearPending` | category/mpt/db_metadata_context.cpp:1024-1031 | Both intents are cleared, one dirty scope each. |
| `MetadataContext.DbMetadataContext.ActivateBody` | category/mpt/db_metadata_context.cpp:1033-1213 | Both copies are split and the history length is capped, by exactly the program's stores. |
| `MetadataContext.DbMetadataContext.DeactivateBody` | category/mpt/db_metadata_context.cpp:1265-1399 | Both copies are merged by exactly the program's stores. |
| `MetadataContext.DbMetadataContext.ActivateSecondary` | category/mpt/db_metadata_context.cpp:1215-1263 | The public call makes the stores of `Operation(Activate)` and ends in `Complete(Activate)`. |
| `MetadataContext.DbMetadataContext.DeactivateSecondary` | category/mpt/db_metadata_context.cpp:1401-1447 | The same for deactivate. |
| `MetadataContext.DbMetadataContext.PromoteSecondary` | category/mpt/db_metadata_context.cpp:1460-1486 | The same for promote. |
| `MetadataContext.DbMetadataContext.SetLatest` | category/mpt/db_metadata_context.cpp:562-584 | Version and block id are stored into both copies, one dirty scope each; both copies then hold the pair and nothing else has changed. |
| `MetadataContext.DbMetadataContext.UpdateHistoryLength` | category/mpt/db_metadata_context.cpp:605-618 | A positive length within the capacity of both copies' rings is stored into both copies, one dirty scope each, and nothing else changes. |
| `MetadataContext.DbMetadataContext.RestoreDirty` | category/mpt/db_metadata_context.cpp:325-341 | A dirty copy is overwritten with the other, word by word under its dirty flag. |
| `MetadataContext.DbMetadataContext.ReplayPending` | category/mpt/db_metadata_context.cpp:829-899 | Replay runs the stamped body on both copies and clears the intent, or does nothing. |
| `MetadataContext.DbMetadataContext.Recover` | category/mpt/db_metadata_context.cpp:325-341 | Opening makes the stores of `Recovery` and ends in `Recovered`. |
| `RootOffsets.PushView` | category/mpt/db_metadata_context.hpp:128-141 | Under the window obligation a push adds exactly one entry to the map, and the lower bound is then the least readable version. |
| `RootOffsets.PushFullIff` | category/mpt/db_metadata_context.hpp:128-141 | On a full window a push keeps the law if and only if the oldest entry held the same offset; otherwise it overwrites it. |
| `RootOffsets.NewRingOverwrites` | category/mpt/db_metadata_context.hpp:128-141 | One append more than a new ring has room for: version 0 reads the new offset. |
| `RootOffsets.AssignView` | category/mpt/db_metadata_context.hpp:143-151 | Assigning a live version changes that entry of the map only, and the lower bound is then the least readable version. |
| `RootOffsets.AssignBelow` | category/mpt/db_metadata_context.hpp:80-98 | Assigning a version below the lower bound lowers it to exactly that version, and what the slots in between still hold becomes readable. |
| `RootOffsets.EraseView` | category/mpt/db_metadata_context.hpp:143-151 | Erasing a version removes exactly that entry; the lower bound is then the least version still readable, or the newest if none is. |
| `RootOffsets.RewindView` | category/mpt/db_metadata_context.hpp:186-199 | Rewinding to a live version keeps exactly the versions up to it; below the lower bound exactly the target is readable, if its slot is neither blank nor shared with an erased version; the lower bound is then the least readable version, or the target if none is. |
| `RootOffsets.FastForwardView` | category/mpt/db_metadata_context.cpp:650-673 | After a fast forward, exactly the versions at or above the new version less capacity stay readable when the gap is below the capacity, otherwise none; no version reads through an aliased slot; where both bounds are. |
| `RootOffsets.ClearUpToView` | category/mpt/db_metadata_context.cpp:675-683 | The clearing loop ends on a ring with a live window, leaves nothing up to the bound readable and keeps everything later. |
| `RootOffsets.ClearUpToBounds` | category/mpt/db_metadata_context.cpp:675-683 | Both bounds end at zero if and only if the newest version was to be cleared; otherwise the lower one is the least version still readable, or the newest if none is. |
| `RootOffsets.ClearNeverEnds` | category/mpt/db_metadata_context.cpp:675-683 | On a ring that is empty but not reset every iteration leaves the loop condition true. |
| `RootOffsets.NewRingNeverCleared` | category/mpt/db_metadata_context.cpp:650-683 | A new ring moved forward before its first version is such a ring. |
| `RootOffsets.ClearBothIff` | category/mpt/db_metadata_context.cpp:675-683 | Clearing equal copies leaves them equal if and only if the newest version was not to be cleared; either way copy 1 has lost exactly the versions up to the bound, and its lower bound is the least version it still reads, or the newest. |
| `RootOffsets.StepEqualIff` | category/mpt/db_metadata_context.cpp:633-648 | Equal copies stay equal after a call if and only if the call does not erase the newest version while every other live slot is blank. |
| `RootOffsets.OthersBlankIff` | category/mpt/db_metadata_context.cpp:633-648 | On a proper window that condition says that at most the erased version was readable. |
| `RootOffsets.NewRingSplits` | category/mpt/db_metadata_context.cpp:622-648 | One version appended to a new pool and erased again: copy 0 is empty, copy 1 still has a next version. |
| `RootOffsets.CopiesAgree` | category/mpt/db_metadata_context.cpp:622-673 | Over every run of append, fast-forward and update without such an erase the copies stay equal. |
| `RootOffsetsRing.Ring.UpdateVersionLowerBound` | category/mpt/db_metadata_context.hpp:80-98 | The scanning loop finds the first readable version from the hint on, or the newest. |
| `RootOffsetsRing.Ring.Push` | category/mpt/db_metadata_context.hpp:128-141 | The method does what `RootOffsets.Push` says. |
| `RootOffsetsRing.Ring.Assign` | category/mpt/db_metadata_context.hpp:143-151 | The method does what `RootOffsets.Assign` says. |
| `RootOffsetsRing.Ring.ResetAll` | category/mpt/db_metadata_context.hpp:173-184 | All live entries are blank and both bounds are the given version. |
| `RootOffsetsRing.Ring.RewindToVersion` | category/mpt/db_metadata_context.hpp:186-199 | The erasing loop and the cut do what `RootOffsets.Rewind` says. |
| `RootOffsetsRing.Ring.FastForward` | category/mpt/db_metadata_context.cpp:650-673 | One copy's part of fast forward. |
| `RootOffsetsRing.Ring.Get` | category/mpt/db_metadata_context.cpp:742-757 | A query returns the entry of a version in the window, otherwise the invalid offset. |
| `RootOffsetsRing.RingPair.AppendRootOffset` | category/mpt/db_metadata_context.cpp:622-631 | Both copies are pushed to. |
| `RootOffsetsRing.RingPair.UpdateRootOffset` | category/mpt/db_metadata_context.cpp:633-648 | Both copies are assigned; the reset test reads copy 0 both times. |
| `RootOffsetsRing.RingPair.FastForwardNextVersion` | category/mpt/db_metadata_context.cpp:650-673 | Both copies are moved forward. |
| `RootOffsetsRing.RingPair.ClearRootOffsetsUpToAndIncluding` | category/mpt/db_metadata_context.cpp:675-683 | The loop over the lower bound ends and leaves both copies as `RootOffsets.ClearBoth` says. |
| `Migration.RelocatedIff` | category/mpt/db_metadata_context.cpp:66-70 | The byte moves leave every relocated field equal to its old bytes in every memory if and only if there are at most 64981 chunks. |
| `Migration.NotRelocatedBeyond` | category/mpt/db_metadata_context.cpp:221-227 | For every larger count there is a memory in which a field is wrong. |
| `Migration.MigrateAt` | category/mpt/db_metadata_context.cpp:206-295 | Where each byte really comes from, for any number of chunks, overlapping or not. |
| `Migration.MigrateCopy` | category/mpt/db_metadata_context.cpp:197-296 | The in-place migration computes that, and makes exactly the byte stores of `MigrateStores`. |
| `Migration.MigrateRun` | category/mpt/db_metadata_context.cpp:197-296 | Those byte stores, made in order, lead to the migrated copy. |
| `Migration.MigrateTorn` | category/mpt/db_metadata_context.cpp:197-296 | After every proper prefix of them the copy is marked dirty, has one of the two magics, and is unchanged at the start of the header and beyond the new layout. |
| `Migration.MemMove` | category/mpt/db_metadata_context.cpp:221-227 | The in-place move equals a move through a buffer, and is the run of the byte stores it lists. |
| `MigrationCrash.OneCrash` | category/mpt/db_metadata_context.cpp:158-303 | One death after any byte store of the migration, then reopening: both copies end as the uninterrupted migration leaves them. |
| `MigrationCrash.OneDeath` | category/mpt/db_metadata_context.cpp:181-303 | From any state a run can be in, one more death after any byte store leaves such a state, unless it spoils a healing; then the next open does not end with both copies migrated. |
| `MigrationCrash.TwoCrashesIff` | category/mpt/db_metadata_context.cpp:181-196 | Two deaths, any number of chunks: the migration is completed if and only if the second one does not fall after byte 16 of a healing whose remaining bytes matter, for copy 0 the bytes migration reads, for copy 1 all. |
| `MigrationCrash.AnyCrashesIff` | category/mpt/db_metadata_context.cpp:158-341 | Any number of deaths, up to 65501 chunks: the last open succeeds with copy 0 migrated, and copy 1 too if and only if no death spoiled its healing. |
| `MigrationCrash.TornCopyPasses` | category/mpt/db_metadata_context.cpp:181-196 | Two deaths after which every open takes a copy 1 with 16 new bytes for a clean one. |
| `MigrationCrash.TornCopySpreads` | category/mpt/db_metadata_context.cpp:325-341 | One more death with copy 0 dirty, and the torn bytes are on both copies. |
| `MigrationCrash.FirstCopySpoiled` | category/mpt/db_metadata_context.cpp:215-227 | Beyond 65501 chunks copy 0 is not safe either. |
| `MigrationCrash.ReplayIdempotentIff` | category/mpt/db_metadata_context.cpp:153-157 | Migrating a copy left in the middle once more gives the same bytes in every memory if and only if there are at most 65501 chunks. |
| `Reopening.ReopenInPlace` | category/mpt/db_metadata_context.cpp:126-341 | The constructor's magic check, healing, migration and dirty restore on the two mapped copies do what `Reopen` says, by exactly the byte stores of `ReopenStores`, or, when an assertion stops them, by exactly those of `ReopenStopped`. |
| `Reopening.ReopenRun` | category/mpt/db_metadata_context.cpp:126-341 | Those byte stores, made in order, lead to that outcome. |
| `Reopening.RestoreFrom` | category/mpt/detail/db_metadata.hpp:615-640 | Copying one copy over the other in place copies the metadata region, by exactly the byte stores of `DbCopyStores`. |
| `Reopening.DbCopyHolds` | category/mpt/detail/db_metadata.hpp:615-640 | Until the last of them the target is marked dirty, keeps the current magic, and is unchanged beyond the region. |
| `MigratedPool.MigratedHeader` | category/mpt/db_metadata_context.cpp:278-285 | The header that the migrated bytes decode to: the chunk list of ring a as before, ring b without chunks but with every slot naming the metadata chunk, ring a primary, nothing active or pending. |
| `MigratedPool.SplitRightIff` | category/mpt/db_metadata_context.cpp:1149-1181 | For a header with 2n distinct chunks, none of them the metadata: after the body the lists are its two halves if and only if each slot of the secondary list was null or held the chunk meant for it, and then no blanked entry is in the metadata chunk. |
| `MigratedPool.BlanksMetadataIff` | category/mpt/db_metadata_context.cpp:1193-1195 | Some blanked entry is in the metadata chunk if and only if one of the first n slots names it. |
| `MigratedPool.BlanksMetadata` | category/mpt/db_metadata_context.cpp:1193-1195 | On a zero-filled list every entry it blanks is in the metadata chunk. |
| `MigratedPool.SplitWipes` | category/mpt/db_metadata_context.cpp:1193-1207 | On a zero-filled list the body leaves every byte of the copy at 0xff, except the bounds, lengths, active flag and dirty flag it commits. |
| `MigratedPool.WipedLists` | category/mpt/db_metadata_context.cpp:1193-1207 | Neither list of that copy names a chunk any more. |
| `MigratedPool.MigratedPoolLost` | category/mpt/db_metadata_context.cpp:366-381 | Once a migrated pool has been activated, whatever is stored afterwards outside the first byte, no open loads it: it is refused, or taken for a new pool if it holds no data. |
| `MigratedPool.RestoredMidway` | category/mpt/db_metadata_context.cpp:126-141 | Dying inside the blanking of copy 0: the next open restores the header from copy 1, with the intent, so the same activation is replayed. |
| `Trie.FindSpells` | category/mpt/find.cpp:29-81 | Lookup succeeds at exactly the node whose paths and branches spell the key. |
| `Trie.FindMeans` | category/mpt/find.cpp:29-81 | Every outcome of lookup, code, node and index, in terms of spelling: the key ends at a node or inside its path, or a part of it leads to a place where its next nibble fits neither the path nor a branch; lookup returns that outcome if and only if it is so. |
| `Lookup.Memory.FindBlocking` | category/mpt/find.cpp:29-81 | The blocking loop returns the outcome, node and index of plain lookup, however children are split between memory and disk; it reports the version gone if and only if it is and some child passed is not in memory; if all are nothing is read, and afterwards all are. |
| `Lookup.Memory.FindNotifyFiber` | category/mpt/find_notify_fiber.cpp:184-247 | The recursive fiber lookup returns the same; it asks for the I/O thread if and only if it is on another one and some child passed is not in memory, with a cursor from which the rest of the key gives the same outcome; otherwise all children passed are in memory afterwards. |
| `Lookup.Memory.FindOwningNotifyFiber` | category/mpt/find_notify_fiber.cpp:251-358 | The same over the node cache: the I/O thread is asked for if and only if the call is on another one and some child passed is not cached; if all are nothing is read, and otherwise all are afterwards. |
| `Lookup.Memory.FindRequestSender` | category/mpt/find_request_sender.hpp:203-293 | The sender's loop returns the same code, and the same node on success; exactly when it reports the version gone or asks for the I/O thread; otherwise every child passed is cached afterwards. |
| `Lookup.FlatDetermines` | category/mpt/find_notify_fiber.cpp:144-148 | A node on disk determines its whole subtrie, so a cached node may stand for any node with its offset. |
| `World.ExpireIsWriterStep` | category/mpt/db_metadata_context.cpp:675-683 | Expiring a version is a step the reader tolerates. |
| `World.RecycleIsWriterStep` | category/mpt/update_aux.cpp:77-94 | Recycling an offset no valid version reaches, under a fresh virtual offset, is one too. |
| `World.WriteNodeIsWriterStep` | category/mpt/update_aux.cpp:77-94 | So is writing a node to an offset not written under its virtual offset. |
| `World.PublishIsWriterStep` | category/mpt/db_metadata_context.cpp:622-631 | So is publishing a version whose trie is on disk. |
| `AsyncSafety.EveryInterleaving` | category/mpt/find_notify_fiber.cpp:131-181 | In every interleaving: at most one outstanding read per virtual offset, none of a cached one, the cache holds what was written there, every promise is set at most once and exactly once when done, and every answer is right. |
| `AsyncSafety.AnswerIsFind` | category/mpt/find_notify_fiber.cpp:251-358 | Whatever happens after a lookup starts, its definite answer is that of plain lookup from the start node, the version is reported gone only if it is, and the I/O thread is asked for only off it. |
| `AsyncSafety.LoadIsRoot` | category/mpt/find_notify_fiber.cpp:360-403 | Whatever happens after a root is asked for, a successful load returns the root of that version's trie, a version is reported gone only if it is, and the I/O thread is asked for only off it. |
| `AsyncCache.CachedFind` | category/mpt/find_notify_fiber.cpp:304-323 | A lookup whose children on the way are all cached when it starts never waits for a read and never asks for the I/O thread, on any thread, in every run without evictions, writer steps included: it gives the answer of plain lookup, or its version is gone. |
| `AsyncCache.CachedLoad` | category/mpt/find_notify_fiber.cpp:374-385 | The same for loading a root that is cached. |
| `AsyncSafety.NeverStuck` | category/mpt/find_notify_fiber.cpp:131-181 | As long as some promise is not set, some lookup step can be taken. |
| `AsyncSafety.BoundedWork` | category/mpt/find_notify_fiber.cpp:251-403 | However evictions and writer steps are mixed in, the requests there are take boundedly many lookup steps. |
| `AsyncSafety.QuietMeansAnswered` | category/mpt/find_notify_fiber.cpp:131-158 | When no lookup step is left, every promise has been set exactly once. |
| `AsyncSafety.CompleteKeeps` | category/mpt/find_notify_fiber.cpp:131-158 | A read completion keeps the invariant; its offset was not cached, so the assertion there holds; it is cached afterwards if and only if the node is still in its place; and no request waits for it any more. |
| `AsyncSafety.TranslateThenCheck` | category/mpt/find_notify_fiber.cpp:295-303 | With translation first and the validity check after it, the virtual offset is that of the node wanted. |
| `AsyncSafety.CheckThenTranslateFails` | category/mpt/find_notify_fiber.cpp:295-303 | With the opposite order the writer can slip another node in between. |
| `CopyTrie.CopyTrieImpl` | category/mpt/copy_trie.cpp:112-267 | The copy aborts exactly when an assertion fails; otherwise under the destination prefix the result reads as the source under its prefix, elsewhere as before, except that the key of the root itself may take the source root's value; which nodes there are, with which value and version, key by key: the copied node has the new version where it replaces a node or the destination was empty and else its own, the node it is hung below has the new version, all others keep theirs; everything below the root is on disk, with the right least versions. |
| `CopyTrie.Descend` | category/mpt/copy_trie.cpp:159-234 | The descent loop stops exactly where plain lookup of the prefix stops and remembers the branches taken. |
| `CopyTrie.GraftHere` | category/mpt/copy_trie.cpp:156-244 | Replacing, splitting or extending the node where the descent ends grafts the source there, with the versions and values of the copied node and of the node above it. |
| `CopyTrie.SplitGrafts` | category/mpt/copy_trie.cpp:76-110 | Splitting a node path changes nodes only below the prefix, and at the new node's own key, which has the given value and version. |
| `CopyTrie.AddGrafts` | category/mpt/copy_trie.cpp:36-74 | The same for adding a branch. |
| `CopyTrie.ParentGrafts` | category/mpt/copy_trie.cpp:254-264 | A graft below a child is a graft below its parent. |
| `CopyTrie.RewriteAncestors` | category/mpt/copy_trie.cpp:245-264 | The bottom-up loop writes children before the parents that record their offsets, and the graft reaches the root. |
| `CopyTrie.CreateNodeAddNewBranch` | category/mpt/copy_trie.cpp:36-74 | The loop over the sixteen branches builds the node with one more child, which is written first. |
| `CopyTrie.CreateNodeWithTwoChildren` | category/mpt/copy_trie.cpp:76-110 | Both children are written and recorded. |
| `CopyTrie.CalcMinVersionRight` | category/mpt/node.cpp:662-669 | The minimum over the recorded values is the least version of any node of the subtrie. |
| `CopyTrie.SubtrieMinVersion` | category/mpt/node.cpp:662-669 | The loop computes that minimum. |
| `BranchEncoding.EncodeChildren` | category/mpt/compute.cpp:71-97 | The encoder of a child list writes the sixteen items of the references, gaps filled. |
| `BranchEncoding.EncodeNode` | category/mpt/compute.cpp:99-123 | The encoder of a node writes the sixteen items of its child data. |
| `BranchEncoding.PayloadBytes` | category/mpt/compute.cpp:71-123 | The bytes of those items: at the offset that is the sum of the sizes before it, a branch has its reference as it is below 32 bytes, 0xa0 and the reference at 32 bytes, and 0x80 without a child; behind the sixteenth there is 0x80. |
| `BranchEncoding.ListBytes` | category/core/rlp/encode.hpp:115-137 | The bytes in front of the payload: 0xc0 plus the length up to 55, 0xf8 and the length up to 255, otherwise 0xf9 and the length in two bytes. |
| `BranchEncoding.BigEndianReads` | category/core/rlp/encode.hpp:115-127 | A length is written in base 256 without leading zeros, and reads back as itself. |
| `BranchEncoding.RefsOfMeaning` | category/mpt/compute.cpp:71-97 | The references are those of the valid children, each under its branch, and no others. |
| `BranchEncoding.MakeNode` | category/mpt/node.cpp:546-607 | The node made of the children gives each branch its reference, and the 16-bit offsets do not wrap. |
| `BranchEncoding.DenseAt` | category/mpt/node.cpp:231-243 | The rank of a branch in the mask is the place of its child among the valid ones. |
| `BranchEncoding.PayloadFits` | category/mpt/compute.hpp:124-132 | The payload has at most 529 bytes and the list at most 532, and 532 is reached. |
| `BranchEncoding.EncodeList` | category/core/rlp/encode.hpp:115-137 | The list header and payload, with the length stored eight bytes at a time. |
| `BranchEncoding.CreateNodeWithChildren` | category/mpt/compute.hpp:136-178 | Encoding the children and encoding the node made of them give the same bytes: the RLP list of the sixteen items and the empty value. |
| `BranchEncoding.ComputeBranchReference` | category/mpt/compute.hpp:240-259 | The bytes a branch reference is computed from, within the buffer. |
| `Interleave.InterleaveEvenly` | category/async/storage_pool.cpp:603-628 | The loop ends after exactly total + 1 rounds; every device contributes its own number of chunks, in order, none twice and none left out; after each round every device has contributed its share, and inside a round the devices ascend, each at most once. |
| `Interleave.ShareIsQuotient` | category/async/storage_pool.cpp:612-628 | The share after p rounds is p times the device's chunks over the total, rounded up, less one. |
| `Interleave.ShareBounds` | category/async/storage_pool.cpp:612-628 | Up to round total one chunk is always held back, at round total exactly one, in the next round none. |
| `Interleave.InOrderMeaning` | category/async/storage_pool.cpp:616-620 | The number of a chunk on its device is the first sequential number plus how many the device contributed before it. |

## Left out

- Page-level durability on power failure, `msync` and `mmap`: a crash keeps all stores made so far.
- Ring entries of copy 1 after a crash: a restored copy 1 is skipped by replay, so results about versions are claimed for copy 0, which all queries read.
- Free, fast and slow chunk lists, free-capacity accounting and the wip offsets.
- Lifecycle.EveryRun: runs start from new pools; what activation does to a migrated one is in `MigratedPool`. Calls and setters between the operations are in `EveryReachable`, which then claims less about the versions.
- Reachability.EveryReachable: `rewind_to_version` and the clearing loop are not among the events; the second is a run of updates.
- ClientHistory.ActivateUseDeactivate: updates of versions below the lower bound are not among the calls; what one does to a ring is in `AssignBelow`.
- Truncated pools and the initialisation of the chunk lists of a new pool.
- Reopening.ReopenInPlace: bytes of a `memcpy` or `memmove` are stored lowest address first, where a library may choose another order.
- AsyncSafety.EveryInterleaving: virtual offsets are never given out twice and expired versions never come back; the 20-bit insertion count and rewinding are not modelled, and the continuations of one completion may interleave, which the I/O thread does not do.
- CopyTrie.CopyTrieImpl: nodes are values, so update in place, sharing of in-memory children between source and destination and their release are not captured.
- The sender's own table of in-flight reads: its key is the virtual offset and the parent node, and its insertion into the cache does not assert that the node is not cached, so two parents of one node can read it at the same time; the table in the state machine is the one of the fiber lookup.
- Merkle data of nodes rebuilt by a copy, `min_offsets` and compaction.
- Interleave.InterleaveEvenly: credits are real numbers, not rounded doubles, and the reserved capacity is exactly the total.
- Keccak, compact encoding and the reference of an encoded node; nibble packing (keys are sequences of nibbles).
- I/O rings, queueing of reads, fibers, worker threads and command-line tools: system calls and user interface.
