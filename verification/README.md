# Verified models of five stateful components

This project models five parts of Traffic Server that keep state across many calls or many threads, and
proves what they keep. `dafny verify dfyconfig.toml` checks all of it.

| component | files | what is proved |
| --- | --- | --- |
| configuration versioning (`mgmt/Rollback.cc`, `mgmt/FileManager.cc`) | `Rollback.dfy`, `FileManager.dfy` | failure atomicity of one update, which backups are kept, all-or-nothing restore, snapshot round trip |
| write-reservation buffer (`proxy/AbstractBuffer.cc`) | `AbstractBuffer.dfy` | tiling of reservations, no lost flush, one flush and one destroy per generation |
| published configuration objects (`mgmt/ProxyConfig.cc`) | `ConfigProcessor.dfy` | reference accounting, no held object deleted |
| cache-control rules (`proxy/CacheControl.cc`, `proxy/ControlMatcher.cc`) | `CacheControl.dfy` | scattered tables answer like a linear first-match scan |
| ICP (`proxy/ICP.cc`, `proxy/ICPConfig.cc`) | `IcpProtocol.dfy`, `IcpReplies.dfy`, `IcpRequest.dfy`, `IcpQueue.dfy`, `IcpMessage.dfy`, `IcpPeers.dfy`, `IcpConfiguration.dfy` | reconfiguration in quiet, one callback per request, reply counting with multicast groups, round robin, request queue, wire format, peer lists |

Sequential code is a class (or a method with a loop) whose methods are proved equal to functions on
values; the properties are lemmas about those functions. Code that runs in many threads at once is a
transition system: events, an `Enabled` guard and a `Do` function, an invariant that every event keeps, and
theorems over every run. System calls, sends, timers and missed locks are inputs that may fail in every
combination.

Some promises do not hold of the code as it stands. Each has a lemma with a witness and the exact
condition under which the promise does hold:

- A failed update unlinks the file named after the current version (`FailureKeepsActive`). When the directory
  could not be opened at start-up that version is 0, which names the active file (`OpenWithoutScan`); every
  update then fails, even without any fault, and removes the active file (`UpdateRemovesActive`), and so does a
  restore (`VersionZeroFailsRestore`).
- The version count runs ahead of the queue when a backup is promoted at start-up, and when the active
  file is missing during an update; a failed clean-up leaves a file that is not in the queue
  (`OpenEstablishes`, `LostActive`, `UpdateFailure`, `RunKeepsWf`). With one backup kept, the assertion that there is
  a backup to prune fails at the first update after a promotion (`FirstPruneAfterPromotion`, `PruneAssertsIff`).
- `revertToVersion_ml` answers OK when its update has failed, so an aborted restore can leave a file rolled
  (`FailedRestore`); and a file that had no active copy makes the abort fatal (`UndoNeedsActive`).
- `copyFile` takes a short `write` for success (`SnapshotRoundTrip`).
- `flush_complete` tests the reader count of a word that it reads again after its swap. The last reader can
  check in between the two, and then both destroy the buffer (`LastReaderRaces`). The late destroyer can set
  back the offset of the next generation, so that two writers get the same bytes (`ReservationsOverlap`), end
  a generation that waits for its flush (`FlushIsLost`), and fail its own assertion (`AssertionFails`). None
  of this happens if every such test agrees with the word that the swap installed
  (`ReservationsTile`, `NoLostFlush`, `AssertionsNeverFail`), and a test that disagrees is always a second
  destroy, with a failed assertion at most three steps away (`DestroyedOnceIffTestsAgree`,
  `DisagreementFailsAssertion`).
- `ConfigProcessor::get` reads an object and counts its reference in two steps. The last other reference can
  be given up in between (`ReaderRacesRelease`, `EarlyReleaseFails`); no assertion fails if and only if this
  does not happen (`AssertionsHoldIffTimely`), for which a release delay that outlasts every `get` is enough
  (`GraceSuffices`).
- `ttl-in-cache` overwrites a never-cache answer whatever the line numbers (`TtlOverridesEarlierLine`). Beside
  such a line the answer is that of the first match if and only if the first match is the ttl line itself, or
  its table is asked after that of the ttl line (`NeverCacheIsFirstMatchIff`); `NeverCacheAnswer` says what the
  answer is otherwise.
- A peer whose id does not fit in the 64-bit reply map is counted but has no bit, and then misses never end
  the wait (`CrowdedNeverEnds`). Members of enough different groups bring that about; it cannot happen without
  groups, and in general it happens if and only if peers and groups are more than 64 (`IdsFitIff`,
  `GroupFreeMissesEnd`).
- When the query to a multicast group cannot be sent, the number of its members is taken back but their bits
  stay, and a miss of a member can end the wait for somebody else (`LeftOverBitEndsTheWait`). Misses end the wait
  exactly at the last expected answer if and only if all expected ids fit and no bits are left over
  (`MissesAreExactIff`).
- The round-robin counters are signed and only ever incremented. After 2^31 uses they are negative, and so is
  the index then, unless the counter is a multiple of the number of peers (`CounterTurnsNegative`,
  `IndexInRange`). The loops stay in their lists, and find a parent, if and only if the counter covers the
  turns to come (`AllTurnsInRange`, `LeadingAll`, `PickFindsIffCovers`).
- A reply that finds its request cancelled deletes it without counting down, after which the configuration
  is never rebuilt (`DropIsReached`, `DroppedBlocksReconfiguration`, `RebuildsIffQuiet`); the addition of an
  unknown peer keeps the configuration lock (`KeptLockIsReached`, `KeptLockStays`, `LockIsFreeIffNotKept`) and
  fails for the address and port of a listed peer (`UnknownIsAdded`).
- A reply can reach a request that has completed, and been deleted, between its look-up and its lock
  (`LateReply`); and so can the retry of a request that has missed a lock on its way to completion, when a reply
  wakes it first (`LateRetry`). Every reply and every retry finds its request alive if and only if nothing
  deletes a request between the two steps of a reply, or between the miss and the retry (`PromptIffTimely`).
- The object size of a HIT_OBJ message is read one byte early (`ObjSizeIsShifted`), although `proxy/ICP.h:167`
  says that it follows the zero of the URL.

## Model

| member | source | states |
|---|---|---|
| RollbackStore.UpdateSuccess | mgmt/Rollback.cc:421-537 | a successful update makes the new bytes active, keeps the old ones readable under the old number, strictly raises the version, and keeps every backup but the one pruned |
| RollbackStore.UpdateFailure | mgmt/Rollback.cc:446-563 | whichever call fails before completion, active bytes, version, queue, count and every file are unchanged; the set of files is unchanged if and only if no file made on the way survives the clean-up |
| RollbackStore.UpdateCode | mgmt/Rollback.cc:421-503 | with an intact backup set an update fails exactly when its version is not larger or one of create, write, link, rename fails |
| RollbackStore.FailureKeepsActive | mgmt/Rollback.cc:542-558 | a failed update keeps the active copy if and only if the current version is not 0 or the clean-up unlink fails |
| RollbackStore.UpdateRemovesActive | mgmt/Rollback.cc:481-558 | with current version 0 and an active file every update fails, whatever the faults, and removes the active file unless that unlink fails |
| RollbackStore.OpenWithoutScan | mgmt/Rollback.cc:80-172 | start-up leaves that state when there is an active file and the directory cannot be opened |
| RollbackStore.LostActive | mgmt/Rollback.cc:481-531 | when the active file is missing an update succeeds without a backup; queue and count stay in step if and only if it was there |
| RollbackStore.RemoveKeepsWf | mgmt/Rollback.cc:858-899 | removing a version keeps the queue sorted and equal to the backups on disk unless it is the active one that is removed |
| RollbackStore.OpenEstablishes | mgmt/Rollback.cc:80-172 | start-up leaves the backups in order exactly when the directory could be scanned, every backup examined, and a first backup that could not be made left no file; counted correctly exactly when none was promoted besides; it gives up exactly when the file cannot be examined or replaced, or a backup is promoted and none could be examined |
| RollbackStore.FirstPruneAfterPromotion | mgmt/Rollback.cc:80-172 | start-up leaves that state if and only if it has promoted the only backup and one backup is kept |
| RollbackStore.RunKeepsWf | mgmt/Rollback.cc:382-1012 | all along a run of updates, reverts, removals, polls and user edits the queue is sorted and equal to the backups on disk, all below the current version, the count its length and the active copy present, if and only if no failed update leaves a file behind and no removal takes the active copy |
| RollbackStore.CurrentNeverDecreases | mgmt/Rollback.cc:421-537 | no operation ever lowers the current version |
| RollbackStore.AtMostOneUpdatePerBase | mgmt/Rollback.cc:382-394 | of two updates based on the same version, whatever happens in between, at most one succeeds |
| RollbackStore.UserEditIsRolled | mgmt/Rollback.cc:971-1012 | a user's edit keeps its bytes active and becomes a backup under the version it replaces |
| RollbackStore.KeepsTheNewest | mgmt/Rollback.cc:506-532 | after any run of successful updates the retained backups are exactly the newest, up to the configured number |
| RollbackStore.PruneAssertsIff | mgmt/Rollback.cc:506-516 | with backups in order, the assertions of an update that prunes fail exactly if the queue is empty and the count has reached the limit; never if the count is right too |
| RollbackStore.ScanFacts | mgmt/Rollback.cc:709-752 | the scan counts every backup and reports the highest, whether it could be examined or not; the count is the queue's length if and only if all could be |
| RollbackStore.FindVersions | mgmt/Rollback.cc:817-842 | the queue is the backups that could be examined, in increasing order, with the scan's count and highest version |
| VersionedFile.Rollback.RemoveVersion | mgmt/Rollback.cc:858-899 | the loop that unlinks a version and drops it from the queue does what the store's removal does, and returns its code |
| VersionedFile.Rollback.InternalUpdate | mgmt/Rollback.cc:421-564 | the whole new state and the code of an update |
| VersionedFile.Rollback.Prepare | mgmt/Rollback.cc:446-496 | directory after create, write and link, and whether the rename may follow |
| VersionedFile.Rollback.Publish | mgmt/Rollback.cc:506-537 | state after prune, enqueue, count, version change and notification |
| VersionedFile.Rollback.CleanUp | mgmt/Rollback.cc:542-563 | what the cleanup label unlinks |
| VersionedFile.Rollback.UpdateVersion | mgmt/Rollback.cc:382-394 | refuses unless based on the current version |
| VersionedFile.Rollback.GetVersion | mgmt/Rollback.cc:583-644 | bytes of a version, the current one being the active file, or the error |
| VersionedFile.Rollback.RevertToVersion | mgmt/Rollback.cc:668-687 | reads a version and rolls it in; OK whatever the update answers |
| VersionedFile.Rollback.CheckForUserUpdate | mgmt/Rollback.cc:971-1012 | rolls a changed file and reports the change |
| VersionedFile.StartUp | mgmt/Rollback.cc:46-210 | state and exit of the constructor, for any directory listing or none, with unexaminable backups and the configured number of backups |
| Snapshots.RollThenUndo | mgmt/FileManager.cc:299-326 | a rolled file holds its previous version as backup current - 1, and undoing puts it back exactly when that can be read and the revert's update works, or the bytes were the same |
| Snapshots.UndoNeedsActive | mgmt/FileManager.cc:299-326 | the abort of a rolled file goes through if and only if it had an active copy before and its backup can be read |
| Snapshots.FailedRollKeepsActive | mgmt/FileManager.cc:365-380 | the file that fails to roll keeps its active bytes and version |
| Snapshots.FailedRestore | mgmt/FileManager.cc:336-397 | after a failed restore a file has its old bytes if and only if it was not rolled, its revert was reached and worked, or the snapshot held the same bytes; the abort is fatal if and only if the backup of a rolled file cannot be read |
| Snapshots.VersionZeroFailsRestore | mgmt/FileManager.cc:336-397 | a file at version 0 makes the restore fail, and if the files before it roll it loses its active copy unless that unlink fails |
| Snapshots.RestoreIsAtomic | mgmt/FileManager.cc:336-397 | all or nothing: with working reverts a failed restore changes no file's active bytes, whichever file failed, and a successful one installs all of the snapshot |
| Snapshots.SuccessfulRestore | mgmt/FileManager.cc:336-397 | a successful restore leaves each file with the snapshot's bytes |
| Snapshots.CheckValidName | mgmt/FileManager.cc:772-785 | accepts exactly the names of blanks followed by a printable non-blank character |
| Snapshots.CheckName | mgmt/FileManager.cc:479-500 | the refusals of a snapshot name |
| Snapshots.CopiesHold | mgmt/FileManager.cc:510-545 | the copies made hold what was read of each file |
| Snapshots.SnapshotSurvives | mgmt/FileManager.cc:405-553 | no run of updates, restores and other snapshots touches a snapshot |
| Snapshots.SnapshotRoundTrip | mgmt/FileManager.cc:479-643 | restoring after any run gives each file its bytes of snapshot time if and only if its copy was written completely |
| SnapshotManager.FileManager.RestoreSnap | mgmt/FileManager.cc:336-397 | states of all files and result of a restore |
| SnapshotManager.FileManager.RollAll | mgmt/FileManager.cc:355-385 | rolls file after file up to the first failure |
| SnapshotManager.FileManager.AbortRestore | mgmt/FileManager.cc:299-326 | reverts the files before the failed one, up to a fatal one |
| SnapshotManager.FileManager.TakeSnap | mgmt/FileManager.cc:479-553 | snapshots and result of taking one, with its removal when a copy fails |
| SnapshotManager.FileManager.RemoveSnap | mgmt/FileManager.cc:405-463 | what is left of a snapshot when some files cannot be unlinked |
| SnapshotManager.FileManager.CopyAll | mgmt/FileManager.cc:515-545 | copies file after file up to the first failure |
| SnapshotManager.FileManager.CopyFile | mgmt/FileManager.cc:600-643 | result and bytes written of one copy |
| AbstractBuffer.PackIsInjective | proxy/AbstractBuffer.h:44-75 | comparing the packed 64-bit words compares all four fields |
| AbstractBuffer.RoundUpFacts | lib/ts/ink_align.h:50-52 | an aligned length is a multiple of the alignment, not below the request and less than one unit above |
| AbstractBuffer.RunKeepsInv | proxy/AbstractBuffer.cc:35-283 | the invariant holds after every interleaving of reads, swaps and writes of the word in which each reader test of flush_complete agrees with the word its swap installed |
| AbstractBuffer.ReservationsTile | proxy/AbstractBuffer.cc:35-152 | as long as those tests agree: reservations of a generation are disjoint aligned intervals that cover exactly [0, offset), offset within the buffer, writer count equal to those not checked in, none once the flush has begun |
| AbstractBuffer.NoLostFlush | proxy/AbstractBuffer.cc:118-225 | as long as those tests agree: whenever the buffer is read-only without writers some thread is in full or in the tail of checkin_write, and the only way on is the flush, once |
| AbstractBuffer.FlusherFlushes | proxy/AbstractBuffer.cc:206-225 | left alone such a thread starts the flush, and calls flush, within four steps |
| AbstractBuffer.OncePerGeneration | proxy/AbstractBuffer.cc:157-283 | as long as those tests agree: every generation is flushed and destroyed at most once, exactly once when it is over, and unused or initializing buffers have no readers and writers |
| AbstractBuffer.AssertionsNeverFail | proxy/AbstractBuffer.cc:118-283 | as long as those tests agree, the assertions on the word in initialize, checkin_write, checkin_read, flush (on the word as it reads it again), flush_complete and destroy hold in every interleaving |
| AbstractBuffer.DestroyedOnceIffTestsAgree | proxy/AbstractBuffer.cc:240-267 | with the reader test as the code makes it, no generation is destroyed twice along a run if and only if each test agrees with the word the swap installed |
| AbstractBuffer.DisagreementDestroysTwice | proxy/AbstractBuffer.cc:264-266 | a test that disagrees starts a second destroy |
| AbstractBuffer.DisagreementFailsAssertion | proxy/AbstractBuffer.cc:264-283 | after a test that disagrees, at most three more steps make the assertion of destroy fail |
| AbstractBuffer.LastReaderRaces | proxy/AbstractBuffer.cc:157-267 | a run from an unused buffer in which the last reader and flush_complete both destroy |
| AbstractBuffer.AssertionFails | proxy/AbstractBuffer.cc:264-283 | a run from an unused buffer to the failed assertion of destroy |
| AbstractBuffer.ReservationsOverlap | proxy/AbstractBuffer.cc:35-283 | a run from an unused buffer after which two reservations of a writable buffer are of the same bytes |
| AbstractBuffer.FlushIsLost | proxy/AbstractBuffer.cc:35-283 | a run from an unused buffer after which a step makes a read-only buffer without writers unused, without its flush |
| ConfigProcessor.ReferencesAreCounted | mgmt/ProxyConfig.cc:127-212 | after any run in which no get is that late: refcount = slot + pending releases + handles + sets under way; deleted or about to be exactly when there are none; no held or published object is deleted |
| ConfigProcessor.AssertionsHoldIffTimely | mgmt/ProxyConfig.cc:127-212 | along any run of set, get, release and the delayed releases the assertions on counts in set, get and release hold, and no deleted object is touched, if and only if no get counts its reference after the last other one to the object it has read was given up; the accounting invariant holds then |
| ConfigProcessor.AssertionsHoldIffSafe | mgmt/ProxyConfig.cc:147-209 | in a state with correct accounts only a get whose object has no reference left fails an assertion |
| ConfigProcessor.GraceSuffices | mgmt/ProxyConfig.cc:153-212 | a delay of the release that outlasts every get under way makes every run timely |
| ConfigProcessor.GraceIsNeeded | mgmt/ProxyConfig.cc:169-212 | a release that overtakes a get makes its assertion fail exactly when it gives up the last reference, and the object is then deleted under the reader |
| ConfigProcessor.ReaderRacesRelease | mgmt/ProxyConfig.cc:127-190 | that situation is reached by setting, reading and setting again |
| ConfigProcessor.EarlyReleaseFails | mgmt/ProxyConfig.cc:169-190 | a run from the start in which the assertion of get fails |
| CacheRules.FoldIsFirst | proxy/CacheControl.cc:406-502 | for any visiting order each part of the answer is that of the lowest matching line; for never-cache if no ttl-in-cache rule matches |
| CacheRules.CookiesOfLastVisited | proxy/CacheControl.cc:488-489 | the cookie override is that of the last visited rule that has one, matching or not |
| CacheRules.NeverCacheOrder | proxy/CacheControl.cc:469-478 | beside a matching ttl-in-cache rule the visiting order does not matter to never-cache if and only if no matching never-cache line precedes the first ttl-in-cache line, and it is then off |
| CacheRules.NeverBesideTtl | proxy/CacheControl.cc:406-502 | for any visiting order, beside a matching ttl-in-cache rule, the answer is that of the lowest never- or standard-cache line among those visited after the lowest ttl line and standing before it; off without one |
| CacheRules.UpdateOne | proxy/ControlBase.h:103-109 | one rule sets a part of the answer exactly when it speaks on it, passes, and stands on an earlier line than what set it before |
| RuleTables.VisitsLiveLines | proxy/ControlMatcher.cc:766-947 | a request visits a rule if and only if it stands on a matching line that is not a second one for its URL nor covered by a later address range |
| RuleTables.MatchIsFirstMatch | proxy/ControlMatcher.cc:766-783 | the five tables, in table order, answer like a scan of the file for the first such line; for never-cache where no ttl-in-cache line is live and passes |
| RuleTables.VisitedAfterIffAskedAfter | proxy/ControlMatcher.cc:766-783 | of two live lines, the upper one is visited after the lower one if and only if its table is asked later, or the host tree delivers it later |
| RuleTables.NeverCacheAnswer | proxy/CacheControl.cc:469-478 | the never-cache answer of a file with a live ttl-in-cache line: that of the lowest live never- or standard-cache line before it that is asked after it; off without one |
| RuleTables.NeverCacheIsFirstMatchIff | proxy/CacheControl.cc:406-502 | beside a live ttl-in-cache line the answer is that of the first live never-, standard- or ttl-in-cache line if and only if that is the ttl line or is asked after it |
| RuleTables.AllMatchesLive | proxy/ControlMatcher.cc:307-313 | with one rule per URL and disjoint address ranges these are simply the matching lines |
| RuleTables.TtlOverridesEarlierLine | proxy/CacheControl.cc:469-478 | a never-cache line for a host is silenced by a later ttl-in-cache line for an expression, but not the other way round |
| CacheControl.CacheControlResult.constructor | proxy/CacheControl.h:103-121 | nothing is set, no line recorded |
| CacheControl.CacheControlResult.UpdateMatch | proxy/CacheControl.cc:406-502 | new value and line of every field for every directive, with the fall-through of ignore-no-cache |
| CacheControl.ControlMatcher.BuildTable | proxy/ControlMatcher.cc:912-947 | every rule is in the table of its destination |
| CacheControl.ControlMatcher.NewEntry | proxy/ControlMatcher.cc:288-327 | one rule goes to its table; a second rule for a URL is refused |
| CacheControl.ControlMatcher.MatchRegexes | proxy/ControlMatcher.cc:489-577 | updates the result with every expression that matches; for hosts an error counts as a match |
| CacheControl.ControlMatcher.Match | proxy/ControlMatcher.cc:766-783 | the result after host, expression, URL, address and host-expression tables |
| CacheControl.GetCacheControl | proxy/ControlMatcher.cc:766-947 | the answer of a file for a request |
| IcpProtocol.PendingIsCounted | proxy/ICP.h:838-849 | after any run in which no request is deleted between its look-up and its lock by a reply, or between a missed lock and the retry, the pending counter equals requests in flight, reads in flight, and requests that a reply deleted after their users cancelled |
| IcpProtocol.QuietReconfiguration | proxy/ICP.cc:2267-2375 | in such runs, while a thread rebuilds the configuration it has the lock, queries are off, the counter is 0, nothing is in flight, and no other thread reconfigures |
| IcpProtocol.CalledOnce | proxy/ICP.cc:1234-1425 | in such runs the user's continuation is called at most once, exactly once when processing completes uncancelled |
| IcpProtocol.QueuedIffAwaiting | proxy/ICP.cc:1287-1405 | after any such run a request whose mutex is free is queued if and only if it awaits replies, and under one number only |
| IcpProtocol.PromptIffTimely | proxy/ICP.cc:918-1168 | in any run every request that a reply locks, or that a retry comes to, is still there if and only if no completion, and no other reply that finds it cancelled, comes between the look-up and the lock of a reply, or between the missed lock and the retry |
| IcpProtocol.WhatAReplyDoes | proxy/ICP.cc:938-990 | a reply deletes its request exactly when it gets the mutex and finds it cancelled, ends the wait only of a request that awaits replies, and never counts down |
| IcpProtocol.RebuildsIffQuiet | proxy/ICP.cc:2267-2375 | a thread with the configuration lock goes on to rebuild if and only if no request and no read is in flight and no reply has deleted a request |
| IcpProtocol.DroppedBlocksReconfiguration | proxy/ICP.cc:979-983 | after that no such run ever rebuilds the configuration |
| IcpProtocol.DropIsReached | proxy/ICP.cc:979-983 | a run from the start to such a deletion |
| IcpProtocol.KeptLockStays | proxy/ICP.cc:691-729 | after the addition of an unknown peer no other thread ever reconfigures, in any run |
| IcpProtocol.LockIsFreeIffNotKept | proxy/ICP.cc:691-729 | while nobody reconfigures, the lock is free, and any thread can take it, if and only if no such addition has happened |
| IcpProtocol.KeptLockIsReached | proxy/ICP.cc:691-729 | a run from the start to such an addition |
| IcpProtocol.LateReply | proxy/ICP.cc:918-960 | a run in which a request completes between its look-up and its lock by a reply |
| IcpProtocol.LateRetry | proxy/ICP.cc:1143-1168 | a run in which a request misses a lock, is woken by a reply and completes before its retry comes |
| IcpBitMap.BitMap.constructor | proxy/ICPConfig.cc:195-208 | an empty map with room for its size |
| IcpBitMap.BitMap.SetBit | proxy/ICPConfig.cc:217-224 | adds a position to the set, unless it is beyond the size |
| IcpBitMap.BitMap.ClearBit | proxy/ICPConfig.cc:227-234 | removes a position from the set |
| IcpBitMap.BitMap.IsBitSet | proxy/ICPConfig.cc:237-247 | membership |
| IcpReplies.SendsCount | proxy/ICP.cc:1293-1337 | after the sends, to peers and groups, the expected number is the number of peers that will answer; the bits are those with room, and those of the members of groups whose query could not be sent |
| IcpReplies.RepliesAndBits | proxy/ICP.cc:1293-1560 | while a request waits, replies plus bits equal the expected number plus the left-over bits less the peers without room; without left-over bits they are equal if and only if every expected peer has room in the map |
| IcpReplies.MissesEndTheWait | proxy/ICP.cc:1537-1560 | misses end the wait exactly when as many peers with a bit have answered as are expected; without left-over bits, exactly when every expected peer has answered and has room in the map, whoever else answered and however often |
| IcpReplies.MissesAreExactIff | proxy/ICP.cc:1293-1560 | for all misses, the wait ends exactly when every expected peer has answered: if and only if nobody is expected, or all have room and no bits are left over |
| IcpReplies.LeftOverBitEndsTheWait | proxy/ICP.cc:1327-1336 | sends after which the miss of a member that was not asked ends the wait for another peer |
| IcpRoundRobin.EachPeerOnce | proxy/ICP.h:863-893 | while the counter covers the turns, as many consecutive turns as there are peers meet each exactly once |
| IcpRoundRobin.IndexInRange | proxy/ICP.h:863-897 | for every value of the int counter: the index is in the list if and only if the wrapped sum is not negative or is a multiple of the number of peers |
| IcpRoundRobin.AllTurnsInRange | proxy/ICP.h:863-897 | the turns of a whole loop stay in the list if and only if the counter neither is negative nor overflows on the way |
| IcpRoundRobin.CounterTurnsNegative | proxy/ICP.cc:1572-1590 | a counter from 0 is negative after 2^31 uses, and the loop over three up parents then leaves the list |
| IcpRoundRobin.PickIsFirst | proxy/ICP.cc:1572-1590 | for every value of the counter the loop stops at the first turn that meets an eligible parent or leaves the list |
| IcpRoundRobin.PickFinds | proxy/ICP.cc:1572-1590 | while the counter covers the turns, a parent is found if and only if there is an eligible one |
| IcpRoundRobin.PickFindsIffCovers | proxy/ICP.cc:1572-1590 | this holds for every list of that many parents, up or down, if and only if the counter covers the turns |
| IcpRoundRobin.ParentIsFound | proxy/ICP.cc:1477-1603 | while the counter covers the turns, the last miss settles on an up parent if there is one; the timeout, after some reply, on one that is not still expected to answer |
| IcpRoundRobin.EndsAtLastExpected | proxy/ICP.cc:1537-1560 | the wait ends at the very miss that brings the peers with a bit to the expected number; that is the one that completes the set of expected peers if all have room and no bits are left over |
| IcpRequest.Peer.ExpectedReplies | proxy/ICPConfig.cc:926-943 | whether a reply is expected, the bit set for it, and the peer marked down otherwise |
| IcpRequest.Peer.LogRecvMsg | proxy/ICPConfig.cc:816-842 | counts, and marks the peer up with a fresh count |
| IcpRequest.Peer.LogSendMsg | proxy/ICPConfig.cc:976-985 | counts the message sent |
| IcpRequest.AskAll | proxy/ICPConfig.cc:1062-1075 | the replies expected of a group: the sum over its members, each with its bit set or marked down |
| IcpRequest.LogSendAll | proxy/ICPConfig.cc:1096-1121 | a message sent to a group counts for each member |
| IcpRequest.SilentPeerGoesDown | proxy/ICPConfig.cc:926-943 | a peer that has answered everything stays up for 21 queries without an answer and goes down with the 22nd, and is expected to answer again once heard of |
| IcpRequest.TriesAreDistinct | proxy/ICP.cc:1291-1337 | while the counter covers the turns, the send loop tries each peer and group of the list exactly once |
| IcpRequest.LeadingAll | proxy/ICP.cc:1291-1338 | the send loop gets through all its turns if and only if the counter covers them |
| IcpRequest.SendsReachEveryPeer | proxy/ICP.cc:1291-1338 | the whole loop then tries each target once and leaves the expected number of those that will answer, their bits, and the bits left over |
| IcpConfiguration.ConfiguredPeersAreReached | proxy/ICP.cc:1291-1338 | for any configuration whose entries have distinct addresses, with groups or without, the loop tries every entry's peer, on its own or in its group, and leaves the expected number, its bits and the bits left over |
| IcpConfiguration.IdsFitIff | proxy/ICP.cc:2438-2466 | every queried peer has room in the map if and only if the local peer, the entries that are not ignored and the groups are no more than 64 |
| IcpConfiguration.GroupFreeMissesEnd | proxy/ICP.cc:1537-1560 | for a configuration without groups misses end the wait exactly when every expected peer has answered |
| IcpConfiguration.CrowdedNeverEnds | proxy/ICP.cc:1537-1560 | members of 32 or more different groups and one more sibling, all up and all queried: no misses end the wait |
| IcpRequest.ICPRequestCont.SendOne | proxy/ICP.cc:1306-1336 | counters, bits and peers after a send to a peer or a group that succeeds or fails; an offline group is passed over |
| IcpRequest.ICPRequestCont.SendQueries | proxy/ICP.cc:1291-1338 | counters, bits and peers after the loop, from any bias and with any failures, up to a turn that leaves the list |
| IcpRequest.ICPRequestCont.FindParent | proxy/ICP.cc:1493-1510 | the loops over the parents, with the counter they leave, up to a turn that leaves the list |
| IcpRequest.ICPRequestCont.ResponseMessage | proxy/ICP.cc:1477-1616 | counters, bits, chosen peer and verdict for every opcode and for the timeout |
| IcpQueue.NumbersAreDistinct | proxy/ICP.cc:1752-1763 | numbers are never 0 and repeat after exactly 2^32 - 1 calls, never earlier, across the wrap |
| IcpQueue.SameNumber | proxy/ICP.cc:1752-1763 | two calls return the same number if and only if they are a multiple of 2^32 - 1 calls apart |
| IcpQueue.SeqNumbers.ICPReqSeqNumber | proxy/ICP.cc:1752-1763 | the loop that skips 0 |
| IcpQueue.FindRefines | proxy/ICP.cc:1785-1797 | a look-up in the buckets is a look-up in the map |
| IcpQueue.BucketsRefineMap | proxy/ICP.cc:1773-1819 | the buckets hold exactly the map after every run of additions and removals with distinct live numbers |
| IcpQueue.LiveNumbersDistinctIff | proxy/ICP.cc:1752-1819 | the numbers of the queued requests stay distinct along any run, across the wrap, if and only if no request is still queued when the counter comes round to its number |
| IcpQueue.QueueFindsLive | proxy/ICP.cc:1752-1819 | along such runs each queued request is found in the buckets under the number that the counter gave it |
| IcpQueue.ICPRequestQueue.AddICPRequest | proxy/ICP.cc:1773-1781 | appends to the bucket of the number |
| IcpQueue.ICPRequestQueue.FindICPRequest | proxy/ICP.cc:1785-1797 | the first request with the number in its bucket |
| IcpQueue.ICPRequestQueue.RemoveICPRequest | proxy/ICP.cc:1800-1819 | removes it and says whether it was there; number 0 is never found |
| IcpMessage.MessageRoundTrip | proxy/ICP.cc:1623-1744 | decoding an encoded QUERY, HIT or MISS gives back opcode, number, options and URL, whatever stale bytes follow in the buffer |
| IcpMessage.LengthField | proxy/ICP.cc:1670-1727 | the length field is the number of bytes sent if and only if that fits in 16 bits |
| IcpMessage.ShortReads | proxy/ICP.cc:668-678 | a complete message is never discarded as short; one whose length fits is discarded exactly when bytes are missing |
| IcpMessage.ReplyAnswersQuery | proxy/ICP.cc:798-828 | the reply to a query carries the query's number and URL |
| IcpMessage.ObjSizeIsShifted | proxy/ICP.cc:1652-1662 | the decoded size of a HIT_OBJ is the upper byte of the size sent, right only for 0 |
| PeerLists.RunKeepsSound | proxy/ICP.cc:1962-2132 | over every run of frees, builds and additions each listed peer's id is its index and addresses are distinct |
| PeerLists.BuildHasRoom | proxy/ICP.cc:1962-2095 | a build never needs more than 127 of the 128 places, whatever its entries |
| PeerLists.DistinctEntriesAreListed | proxy/ICP.cc:2038-2092 | entries with distinct addresses all get their peers, each is queried itself or belongs to one group that is, all ids are distinct, and the peers are as many as entries and groups, with the local one |
| PeerLists.TurnedAwayKeepsZero | proxy/ICP.cc:2066-2087 | two entries that are turned away are queried under the same id, the local peer's |
| PeerLists.UnknownIsAdded | proxy/ICP.cc:680-729 | an unknown sender is added exactly when no peer is listed at its address and reply port |
| IcpPeers.ICPProcessor.FindPeer | proxy/ICP.cc:2400-2420 | the first listed peer with the address, port 0 asking for any |
| IcpPeers.ICPProcessor.AddPeer | proxy/ICP.cc:2438-2466 | adds and numbers a peer unless its address is listed or the list is full |
| IcpPeers.ICPProcessor.AddPeerToSendList | proxy/ICP.cc:2487-2503 | appends if there is room |
| IcpPeers.ICPProcessor.AddPeerToRecvList | proxy/ICP.cc:2468-2484 | appends if there is room |
| IcpPeers.ICPProcessor.AddPeerToParentList | proxy/ICP.cc:2506-2519 | appends if there is room |
| IcpPeers.ICPProcessor.AddMultiCastPeer | proxy/ICP.cc:2052-2067 | finds a group, or lists a new one without members |
| IcpPeers.ICPProcessor.AddMultiCastChild | proxy/ICPConfig.cc:1129-1169 | puts a member at the head of the group's list unless one has its address |
| IcpPeers.ICPProcessor.AddEntryPeers | proxy/ICP.cc:2038-2092 | the lists after one entry, with its multicast group and its members |
| IcpPeers.ICPProcessor.BuildPeerList | proxy/ICP.cc:1962-2095 | the lists after the local peer and every entry |
| IcpPeers.ICPProcessor.FreePeerList | proxy/ICP.cc:2097-2132 | all lists empty |

## Left out

- Sockets, UDP channels, multicast set-up, signal handling, process launch and the event loop: a send, a timer or a missed lock is an event or an input.
- Path names, privileges, fsync and modification times: a file is its bytes under a version number, and "the file has changed" is an input of a poll. File names that are prefixes of each other are not modelled.
- A user's edit writes new bytes; an edit in place would also change the backup that is a hard link to the active file for the time between link and rename.
- The sort of the scanned versions and the list of versions with their times: `sortWithFunction` is not part of this model; `FindVersions` inserts in order instead.
- The file lock of each managed file (`doRollbackLocks`): restoreSnap and takeSnap run as one step with all of them held.
- AbstractBuffer's retry count is any number, so a write may give up at any retry; `vs_history`, the memory of the buffer and `clear` are not modelled.
- AbstractBuffer.ReservationsTile: with NoLostFlush, OncePerGeneration and AssertionsNeverFail, holds of the code's own reader test only as long as that test agrees with the word the swap installed; the parameter `strict` stands for a test of that word itself, for which they hold in every interleaving.
- AbstractBuffer.RunKeepsInv: assumes positive sizes, a buffer below 2^29 bytes, fewer than 65536 readers and writers at a time, one check-in for each reservation and read, and one report of completion for each call of flush, not before flush has read the word.
- AbstractBuffer.RoundUpFacts: aligns by division, for any alignment; the `INK_ALIGN` mask of `lib/ts/ink_align.h` agrees with it for powers of two, which is all that it is meant for.
- The code of AbstractBuffer is not written as methods: its loops only make sense between the steps of other threads, so each read, swap and write of the word is an event; likewise for ConfigProcessor and the two ICP state machines.
- ConfigProcessor.ReferencesAreCounted: for runs in which no `get` counts its reference after the last other one was given up (`AssertionsHoldIffTimely`); the release delay itself is not modelled as time. It assumes that a new object is set once and that `get` is given an id that has been set.
- The string, integer and float callbacks of `mgmt/ProxyConfig.cc`, and `ConfigUpdateContinuation`.
- The parsing of rules, host trees, regular expressions, `IpMap` and rule modifiers: each is an arbitrary predicate or function of the request. The host tree is taken to deliver every matching host rule, in any order, and a later address range to overwrite an earlier one.
- CacheRules.FoldIsFirst: says nothing of never-cache when a ttl-in-cache rule matches; `NeverBesideTtl` does.
- The overrides that getCacheControl applies after matching.
- Liveness of reconfiguration: a lock missed after the rebuild leaves queries off until another change.
- IcpProtocol.QueuedIffAwaiting: like PendingIsCounted, QuietReconfiguration, CalledOnce and DroppedBlocksReconfiguration, for runs in which no request is deleted between its look-up and its lock by a reply, or between a missed lock and the retry (`PromptIffTimely`, `LateReply`, `LateRetry`). What a reply or a retry does to a deleted request is not modelled.
- A lock missed before a request is queued has no event: nobody else can wake the request there.
- IcpProtocol numbers requests by the call that gave the number; `IcpQueue.LiveNumbersDistinctIff` says when that is as good as the 32-bit number.
- Finding a request and reading its number in the queue is one step, as if the buckets were locked.
- The wait for pending sends is a spin: its exit is enabled when no send is pending, and nothing is claimed about termination.
- Concurrent increments of the round-robin counters: the loops are modelled with the counter to themselves. A signed counter that overflows is taken to wrap, and a loop whose index leaves its list is taken to stop there.
- A multicast group at the address of a unicast peer, which the code would take for a group by a cast; and a multicast peer that finds no room in the peer list, which `BuildHasRoom` excludes.
- The statistics of peers other than the two totals that decide whether a peer is up, ICP logging and stale lookups; the cut of a message at 16 KiB.
- `proxy/CoreUtils.cc`, `proxy/IPAllow.cc`, `mgmt/RecordsConfig.cc` and the tools: they would only add easy members, or rest on code that is not part of this model.
