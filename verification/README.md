# terrasync in Dafny

A verified model of the state-keeping core of terrasync: the delta codec, the receiver of the two-process
session, the advertisement and payload protocols, resumable progress, rename reconciliation, index allocation,
bounded local transfers and the job lease. Each file models one component; methods and classes take the form
of the code they stand for and are proved against functions, about which the laws are then proved as lemmas.

| file | component |
|---|---|
| Bytes.dfy, Rolling.dfy, Signature.dfy | byte strings, rolling checksum and block signatures |
| Delta.dfy, Scan.dfy, Matcher.dfy, Reconstruct.dfy | greedy parse, its scan, the streaming matcher, the decoder and the codec laws |
| DeltaStream.dfy, FileCommit.dfy | merged basis reads, and the life of one file at the receiver |
| Session.dfy, ReceiverSystem.dfy | session object, dispatcher, and both joined by two channels as a step system |
| ReceiverSafety.dfy, ReceiverCompletion.dfy, ReceiverProgress.dfy | what holds in every run, when the loop ends, and when a stream can always end |
| ReceiverContent.dfy, ReceiverDelivery.dfy | what is published, and that it is what the messages say |
| ReceiverPages.dfy | the pages of a directory walk meet the conditions of these laws |
| ReceiverLimits.dfy | what happens outside the conditions of these laws |
| Advertisement.dfy, ExpertPayload.dfy | two sender/receiver protocols |
| Intervals.dfy, ResumeStore.dfy | interval algebra, crash-safe store, notification channel |
| Renames.dfy, RenameOrder.dfy | reconciling moves, and lists whose order matters |
| Inventory.dfy, LocalTransfer.dfy, JobLease.dfy | supporting pieces |

Check everything with `dafny verify dfyconfig.toml` (Dafny 4.11).

What comes from outside is a parameter or an arbitrary choice: the strong hash, the snapshot codec, every answer
of the storage engine (`World` in FileCommit.dfy, the `writeOk`, `removeOk` and `opens` flags), the sender's
messages, the interleaving of all steps, and the order in which attempts complete.

Results that differ from what one might expect of the code, each with its exact condition:

- A session can get stuck. If a begin fails in storage and its outcome is handled before the end of that file,
  the index is settled while the file is still active; no later file is begun or committed until a source
  failure arrives (`StuckReachable`, `StuckAlways`). The end of a file frees the session if and only if its index
  is not settled yet (`EndFreesIff`), and a step makes it stuck if and only if it handles a final outcome of the
  index that streams (`BecomesStuckIff`). If storage reports nothing about a file before its end and the sender
  opens an index again only after a redo, that never happens (`NeverStuck`).
- TransferDone ends the loop if and only if everything asked for so far is settled (`DoneLeavesIff`), so the
  sender must not send it ahead of the file list (`EarlyDoneLoses`).
- Session and committer stay in lockstep if and only if no page changes the path of the active transfer
  (`LockstepIff`); after such a page the end of that file is refused (`MovedFileIsRefused`). The pages of a
  directory walk with at most 2^31 allocations never do that (`WalkKeepsLockstep`).
- An index draws a second redo if and only if more than 256 mismatches are handled for it, because the retry
  counter has 8 bits and wraps (`LedgerAlways`, `SecondRedo`). The release profile does not check overflow; a
  build that does stops at the 256th mismatch instead.
- Lists whose sources or targets nest succeed if and only if inner renames stand before outer renames and
  deletions and every target has its parent and is vacant at its turn (`NestedMovesSucceedIff`). Some lists succeed
  in one order only (`NestedMovesDependOnOrder`), some in none (`InsideFailsEitherWay`); disjoint moves succeed in
  every order. A deletion takes its entry away if and only if no performed rename of an ancestor stands before it
  (`MixedListEnds`); a later one is lost without a failure (`LateDeletionIsLost`).
- Indexes stay unique exactly up to 2^31 allocations, because the counter saturates (`UniqueIff`).
- Two executions of one job can both hold their lease if and only if both process and directory differ
  (`SameJobTwiceIff`).

Where comments in the repository and the code disagree, the model follows the code: the comment at
crates/sync-delta/src/matcher.rs:32-33 promises one literal token per unmatched run, the code cuts literals at
1 MiB; the comment at crates/app/src/receiver.rs:558-560 speaks of equal counts, the code tests
`completed >= requested`; and the rolling checksum starts both sums at 0, unlike Adler-32 in section 8.2 of
RFC 1950.

## Model

| member | source | states |
|---|---|---|
| Rolling.Sums | crates/sync-delta/src/rolling.rs:36-55 | Batched summation yields the byte sum and the sum of prefix sums modulo 65521; no 32-bit addition in a batch of 5552 overflows |
| Rolling.RollingChecksum.Update | crates/sync-delta/src/rolling.rs:58-72 | After an update the checksum stands for the window without its first byte and with the new byte, in 64-bit arithmetic that never overflows |
| Rolling.SlideLaw | crates/sync-delta/src/rolling.rs:58-77 | Sliding both reduced sums in constant time gives the sums recomputed for the slid window, for every window and byte |
| Rolling.BatchFits | crates/sync-delta/src/rolling.rs:17-55 | Starting from reduced sums, up to 5552 bytes keep both sums below 2^32 |
| Signature.SignatureAt | crates/sync-delta/src/signature.rs:35-64 | Signature i is the signature of block i, and that block is not empty, the short last block included |
| Signature.SignatureCount | crates/sync-delta/src/signature.rs:35-64 | The number of signatures times the block size covers the data with less than a block to spare |
| Signature.SignStream | crates/sync-delta/src/signature.rs:35-78 | However a basis is cut into pieces, the signatures are those of the whole; none for block size 0 |
| Delta.ParseUnique | crates/sync-delta/src/matcher.rs:109-175 | A source has at most one greedy left-to-right parse: references wherever a window is found, literals that stop only at a reference, the end or exactly 1 MiB |
| Scan.ScanExtend | crates/sync-delta/src/matcher.rs:65-74 | What was scanned before more bytes arrive never has to be revised |
| Scan.DeltaIsTheParse | crates/sync-delta/src/matcher.rs:78-175 | A token list is the greedy parse of the source if and only if it is the scan's output, for every chooser, source and block size, 0 included |
| Matcher.BuildSigTable | crates/sync-delta/src/matcher.rs:15-21 | Every bucket of the table holds exactly the blocks with its rolling checksum, in index order |
| Matcher.BucketSearch | crates/sync-delta/src/matcher.rs:122-140 | Searching a bucket by strong hash finds the least block index with the whole signature, squeezed to 32 bits |
| Matcher.Select | crates/sync-delta/src/matcher.rs:125-140 | With at most 2^32 signatures a selected index carries the window's signature; nothing is selected only if no signature equals it |
| Matcher.DeltaMatcher.constructor | crates/sync-delta/src/matcher.rs:49-61 | A new matcher has been fed nothing, emitted nothing, and will choose as its signatures and block size say |
| Matcher.DeltaMatcher.Push | crates/sync-delta/src/matcher.rs:65-74 | The fields stay a point on the way of the scan of everything fed; carry stays below one block and the literal buffer below 1 MiB |
| Matcher.DeltaMatcher.Process | crates/sync-delta/src/matcher.rs:109-175 | The loop runs until less than a window is left and emits exactly the tokens by which it advances the scan |
| Matcher.DeltaMatcher.Lookup | crates/sync-delta/src/matcher.rs:118-141 | Looking up the rolling checksum first and preferring the own position gives the same choice as comparing whole signatures |
| Matcher.DeltaMatcher.Slide | crates/sync-delta/src/matcher.rs:160-170 | After a literal byte the checksum stands for the next window, or the window is marked for re-initialization |
| Matcher.DeltaMatcher.Compact | crates/sync-delta/src/matcher.rs:100-106 | Dropping the processed prefix changes no scan position |
| Matcher.DeltaMatcher.Finish | crates/sync-delta/src/matcher.rs:78-97 | Everything emitted, the last batch included, is the delta of everything fed |
| Matcher.ChopLoop | crates/sync-delta/src/matcher.rs:87-94 | Leftover bytes become tokens of 1 MiB and a last shorter one |
| Reconstruct.Reconstructor.Push | crates/sync-delta/src/reconstruct.rs:47-63 | A basis range it asks for is inside the basis and at most one block long |
| Reconstruct.PushResolves | crates/sync-delta/src/reconstruct.rs:47-63 | The clamped range holds exactly the bytes of the block the token names; a block past the end is empty |
| Reconstruct.Reconstruct | crates/sync-delta/src/reconstruct.rs:78-94 | The loop concatenates the segments of all tokens |
| Reconstruct.StreamMatch | crates/sync-delta/src/matcher.rs:65-97 | For every split of the source into pushes the tokens are those of the whole source |
| Reconstruct.DeltaMatch | crates/sync-delta/src/matcher.rs:187-192 | One push and a finish give the delta of the source |
| Reconstruct.RoundTrip | crates/sync-delta/src/reconstruct.rs:66-94 | Rebuilding from the delta gives back the source, for every basis, source and block size (0 and a short last block included), if no source window has the signature of a different basis block and there are at most 2^32 blocks |
| Reconstruct.Transfer | crates/sync-delta/src/reconstruct.rs:66-94 | The same with every stage streamed: signatures, matching and rebuilding, over any pieces |
| Reconstruct.DeltaConserves | crates/sync-delta/src/matcher.rs:78-175 | Literal bytes plus block size times references equals the source length; every literal token has 1 to 1 MiB bytes |
| Reconstruct.OwnBlock | crates/sync-delta/src/matcher.rs:125-134 | At each block boundary a file finds its own block, even if the same block or signature occurs elsewhere |
| Reconstruct.SelfMatch | crates/sync-delta/src/matcher.rs:109-175 | A file against its own signatures is references 0 to n-1 in order and then only the tail as literals; the n blocks and the tail are all of the file and the tail is shorter than a block; it needs no hypothesis on hashes |
| DeltaStream.Advanced | crates/app/src/file_commit.rs:256-292 | A merged basis read never exceeds the larger of one block and 2 MiB and stays inside the basis |
| DeltaStream.SentLaw | crates/app/src/file_commit.rs:256-292 | One token: what is sent plus what is pending grows by exactly the token's bytes, contiguously, and flagged chunks are in place |
| DeltaStream.StreamRefines | crates/app/src/file_commit.rs:256-321 | For every token list the chunks are contiguous and concatenate to pending bytes plus the rebuilt file, although reads are merged |
| DeltaStream.WholeStream | crates/app/src/file_commit.rs:235-333 | From the first token to the flush at commit the chunks start at offset 0, are contiguous, and hold exactly the rebuilt file |
| DeltaStream.PatchRebuilds | crates/app/src/file_commit.rs:479-499 | Writing only the chunks that are not flagged over the old basis and cutting to length gives the rebuilt file, for every basis, block size and token list |
| FileCommit.PublishedIsChecked | crates/app/src/file_commit.rs:294-416 | In any state a commit publishes only the active file it names, with content of the declared length and, when checked, the wanted digest, given a writer that reports truly; a success is reported if and only if something is published |
| FileCommit.StreamTracks | crates/app/src/file_commit.rs:235-292 | Whatever storage answers, a delta stream that has not failed or closed has sent what the fast form sends |
| FileCommit.TakenAll | crates/app/src/file_commit.rs:235-292 | Whatever storage answers, a delta file that has not failed has taken exactly its tokens: what it sent and what is pending is what they rebuild; without a basis no range is ever sent |
| FileCommit.DeltaCommitRebuilds | crates/app/src/file_commit.rs:136-416 | A delta bracket publishes only the file its tokens rebuild from the basis found, or their literal bytes alone when the basis is missing, of the declared length and, when checked, with the source's digest, given a writer that reports truly |
| Session.RemoteSessionState.Receive | crates/app/src/receiver.rs:590-832 | One message of the receive loop ties the session object to the reaction function about which the session laws are proved |
| ReceiverSystem.DiskCommitTask | crates/app/src/disk_commit.rs:26-105 | The dispatch loop's outcomes and published files are those of the commands up to the first shutdown |
| ReceiverSafety.MessageKeepsPhase | crates/app/src/remote_receiver_session.rs:377-560 | Unless a page changes the path of the active transfer, every command list the session queues continues the begin-to-commit bracket it believes in |
| ReceiverSafety.DispatchFits | crates/app/src/disk_commit.rs:32-104 | A command in its place is never refused; a committed bracket has exactly one outcome, an aborted one at most one |
| ReceiverSafety.LockstepAlways | crates/app/src/disk_commit.rs:32-104 | In every state of every run in which no page changes the path of the active transfer: no begin while active, no non-matching commit, one outcome per committed bracket, at most one per aborted bracket |
| ReceiverSafety.PageKeepsLockstepIff | crates/app/src/remote_receiver_session.rs:106-113 | A page keeps lockstep if and only if it leaves the path of the active transfer as it was; re-using any other index is harmless |
| ReceiverSafety.LockstepIff | crates/app/src/disk_commit.rs:32-104 | A run is in lockstep throughout if and only if none of its pages changes the path of an active transfer |
| ReceiverSafety.LedgerAlways | crates/app/src/remote_receiver_session.rs:593-643 | In every run, with any sender and storage: completed equals settled indexes plus terminals without an index, each index draws at most one terminal answer, and at most one redo if and only if at most 256 mismatches are handled for it |
| ReceiverSafety.ExitAlways | crates/app/src/receiver.rs:590-832 | The loop has left through its completion break only if TransferDone was seen and completed reached requested, and it is still running only if not |
| ReceiverCompletion.AccountedAlways | crates/app/src/remote_receiver_session.rs:63-92 | Under a disciplined sender every settled index was asked for and streamed, and the counters equal the sizes of the exchanged sets |
| ReceiverCompletion.LeavesWhenSettled | crates/app/src/receiver.rs:552-560 | Under a disciplined sender the loop leaves through its completion break only when the list is over and every requested index has a terminal, however early TransferDone overtakes file data; once TransferDone is seen it keeps running only while one is missing |
| ReceiverCompletion.DoneLeavesIff | crates/app/src/receiver.rs:801-813 | In every accounted state TransferDone ends the loop if and only if everything asked for so far is settled |
| ReceiverLimits.EarlyDoneLoses | crates/app/src/receiver.rs:801-813 | Without the discipline on TransferDone it fails: after one settled index a TransferDone ahead of the list ends the loop, and the index that the next page asks for is never settled |
| ReceiverProgress.EndFreesIff | crates/app/src/remote_receiver_session.rs:419-473 | The end of the active file frees the session if and only if its index is not settled yet |
| ReceiverProgress.StuckAlways | crates/app/src/remote_receiver_session.rs:377-535 | Once a settled index still holds the stream, it does so in every later state, and no step puts a begin or an end of a file on the queue, until a source failure frees it |
| ReceiverProgress.BecomesStuckIff | crates/app/src/remote_receiver_session.rs:593-643 | A step makes the session stuck if and only if it handles an outcome of the index that streams and does not answer it with a redo |
| ReceiverProgress.OneOutstanding | crates/app/src/remote_receiver_session.rs:377-643 | If storage reports nothing about a file before its end and the sender opens an index again only after a redo, then in every state of every run an index has at most one outcome still to come, its own stream included |
| ReceiverProgress.NeverStuck | crates/app/src/remote_receiver_session.rs:377-643 | Under the same two conditions no state of any run is stuck, whatever the interleaving |
| ReceiverLimits.StuckReachable | crates/app/src/remote_receiver_session.rs:422-426 | Such a state is reached in a disciplined run: a failed begin is reported before the end of the file, and the next file can no longer begin |
| ReceiverLimits.MovedFileIsRefused | crates/app/src/file_commit.rs:294-320 | In every run: if a page moves the file that streams to another path and the file is still moved and unsettled when its end arrives, then the step that takes this end from the queue changes nothing at the committer, reports nothing, and is refused unless storage had already failed the file; any messages, commands and outcomes may come in between |
| ReceiverLimits.UnstableTableRefused | crates/app/src/file_commit.rs:294-320 | Such a page occurs in a run from the start |
| ReceiverLimits.SecondRedo | crates/app/src/remote_receiver_session.rs:629-643 | The 8-bit retry counter wraps: a disciplined run with 257 mismatches of one index draws a second redo |
| ReceiverContent.DispatchKeeps | crates/app/src/disk_commit.rs:32-104 | A command in its place keeps the active file in step with the chunks or tokens its bracket has carried |
| ReceiverContent.PublishedAsMeant | crates/app/src/file_commit.rs:235-416 | In every interleaving, with pages that keep the active path and a writer that reports truly, a published delta file is what the tokens of its bracket rebuild and a published full file the content of its chunks, of the declared length and wanted digest |
| ReceiverDelivery.BracketCarries | crates/app/src/remote_receiver_session.rs:432-535 | In every run whose pages keep the active path: the bracket that the end of a delta closes carries exactly the tokens of the messages received for its index from the begin to that end, however commands, outcomes and other messages interleave |
| ReceiverDelivery.SourceArrives | crates/app/src/file_commit.rs:235-416 | End to end over messages: if the tokens received for an index from its begin to its end are the sender's delta against the signatures of the basis found (none for a missing basis), what is published when that end is taken is the source, under that index |
| ReceiverPages.WalkKeepsLockstep | crates/transport/src/message.rs:765-773 | If the pages received are those of a directory walk with at most 2^31 allocations, in any order and each at most once, no page changes the path of a known entry, and session and committer stay in lockstep |
| ReceiverPages.WalkIsDisciplined | crates/app/src/remote_inventory.rs:44-84 | For such pages the requests are distinct within and across pages, so a sender that otherwise keeps the discipline keeps all of it |
| Advertisement.LegalSnoc | crates/app/src/remote_advertisement.rs:126-231 | Legality of a stream (pages 0, 1, 2, ..., 1 to max entries each, dense indexes, entry-scope failures) is decided event by event |
| Advertisement.RemoteAdvertisementReceiver.Accept | crates/app/src/remote_advertisement.rs:126-231 | An event is accepted if and only if it may follow what came before; a terminal only if it is a completion with the received counts; nothing after a terminal |
| Advertisement.Receive | crates/app/src/remote_advertisement.rs:233-261 | A stream is received if and only if it has one completion, in last place, after a legal body with equal counts; the result is the map, failures and counts it carries |
| Advertisement.AdvertisementProjection.PushEntry | crates/app/src/remote_advertisement.rs:386-398 | An entry gets the next index, and a page is sent exactly when the page size is reached |
| Advertisement.AdvertisementProjection.TakePage | crates/app/src/remote_advertisement.rs:400-411 | The pending page is sent with the next page number, and nothing is sent when it is empty |
| Advertisement.AdvertiseRemote | crates/app/src/remote_advertisement.rs:286-361 | The sender succeeds if and only if all items are supported and the walk finished with matching totals; then its events are acceptable and carry exactly the observed entries and failures in order; a failed walk also ends with a terminal, not a completion, with truthful counts |
| Advertisement.RoundTrip | crates/app/src/remote_advertisement.rs:233-422 | For every such traversal and every page size within the receiver's limit the receiver accepts and ends with the sender's map, failures, counts and page count, if snapshot decoding inverts encoding |
| Intervals.CanonicalUnique | crates/app/src/byte_resume.rs:45-122 | Two canonical interval lists with the same offsets are the same list |
| Intervals.IntervalSet.Insert | crates/app/src/byte_resume.rs:62-90 | Insertion is set union and keeps the list sorted, non-empty, disjoint and non-adjacent |
| Intervals.IntervalSet.Missing | crates/app/src/byte_resume.rs:93-112 | The gaps are exactly the complement in [0,total), in canonical form |
| Intervals.IntervalSet.Covers | crates/app/src/byte_resume.rs:115-117 | True if and only if every offset below total is in the set |
| Intervals.FromVec | crates/app/src/byte_resume.rs:53-60 | Any list, unsorted or overlapping, becomes the canonical list of its offsets |
| Intervals.TwoOrders | crates/app/src/byte_resume.rs:53-90 | Any two insertion orders of the same intervals give the identical list |
| ResumeStore.ByteResumeStore.Open | crates/app/src/byte_resume.rs:164-227 | Opening is the machine's open step: state is loaded only under the same version, size, time and block size |
| ResumeStore.ByteResumeStore.MarkCommitted | crates/app/src/byte_resume.rs:239-248 | A mark is the machine's mark step: the sixteenth unsaved mark flushes, and a failed flush keeps the old file and the count |
| ResumeStore.ByteResumeStore.FlushLocked | crates/app/src/byte_resume.rs:255-291 | A flush is the machine's flush step: it replaces the state file with the whole set or leaves it as it was |
| ResumeStore.ByteResumeStore.FinalizeDone | crates/app/src/byte_resume.rs:265-272 | The state file is gone afterwards unless its removal failed; an absent file is no error |
| ResumeStore.ByteResumeStore.MissingIntervals | crates/app/src/byte_resume.rs:234-236 | What is still to be sent is the complement of the marks within the source size |
| ResumeStore.ByteResumeStore.IsComplete | crates/app/src/byte_resume.rs:250-252 | Complete if and only if every offset of the source is marked |
| ResumeStore.ConsistentAlways | crates/app/src/byte_resume.rs:164-291 | In every run of open, mark, flush, finalize and crash, with any failures: the state file and the memory hold only offsets marked under their identity, and memory is the file plus the unsaved marks |
| ResumeStore.CrashRecovers | crates/app/src/byte_resume.rs:164-291 | Crash and reopen at any point: the reloaded set was marked under the same identity and lacks at most the unsaved marks, at most 15 unless a flush failed |
| ResumeStore.BalancedAlways | crates/app/src/sync.rs:531-606 | In every run of channel and store, with crashes and restarts, each notification is recorded in the store, queued, counted as dropped or taken by a crash, and none is invented |
| ResumeStore.MissingAcrossCrashes | crates/app/src/byte_resume.rs:234-236 | At any point of any run with crashes the intervals reported as missing contain everything never notified, and beyond that only what is queued, dropped or taken by a crash |
| ResumeStore.DropsOnlyEnlargeMissing | crates/app/src/sync.rs:539-606 | Dropped notifications only enlarge what the store misses, by no more than queued, dropped and crashed ranges; with none of these the store has everything notified |
| ExpertPayload.SplitBytes | crates/app/src/remote_expert_transfer.rs:501-510 | The parts are non-empty, exactly the ceiling long except the last, and concatenate to the chunk |
| ExpertPayload.ServePayload | crates/app/src/remote_expert_transfer.rs:159-197 | For every source, prefix within it, chunking and positive ceiling the events are a tiling of the rest of the source followed by the completion evidence |
| ExpertPayload.ReceivePayload | crates/app/src/remote_expert_transfer.rs:428-499 | Succeeds if and only if the stream starts with a gapless tiling of [prefix, size) by non-empty chunks within the ceiling, then matching evidence, and the writer takes them. In every case, errors included, what was forwarded is the bytes of a gapless tiling that the stream starts with |
| ExpertPayload.Conclude | crates/app/src/remote_expert_transfer.rs:428-499 | A completion is accepted only with the index, size and identity of the offer and at the full offset; peer failure and cancellation are told apart |
| ExpertPayload.Exchange | crates/app/src/remote_expert_transfer.rs:138-198 | An honest source and a willing destination: the rest of the source arrives, in order, once |
| Renames.ApplyDeletionsAndRenames | crates/app/src/orchestrator.rs:1445-1518 | The two passes perform, skip and fail exactly as the directory map and the list order say |
| Renames.TopIsPerformed | crates/app/src/orchestrator.rs:1496-1509 | A topmost moved entry is never skipped |
| Renames.DescendantIsSkipped | crates/app/src/orchestrator.rs:1496-1509 | Every entry below a moved directory is skipped |
| Renames.PlaceStep | crates/app/src/orchestrator.rs:1507-1518 | Performing one topmost rename keeps every entry either at its old path or at the new path of the moves done so far |
| Renames.MovesReconcile | crates/app/src/orchestrator.rs:1445-1518 | For any status list of disjoint moves, in any order: every entry ends at its new path and nothing else is left, no operation fails, and exactly the topmost entries are renamed, once each |
| RenameOrder.ListSucceedsIff | crates/app/src/orchestrator.rs:1464-1518 | For every list of deletions and renames and every tree: no operation fails if and only if each performed rename has its source, a vacant target and the target's parent where the list up to it puts them; then the destination holds exactly the entries that are not deleted, each where the list takes it |
| RenameOrder.NestedMovesSucceedIff | crates/app/src/orchestrator.rs:1464-1518 | For deletions of entries and renames of entries to free paths that are not below a deleted one, nested or not: no operation fails if and only if no performed rename stands behind a rename or deletion of an ancestor of its source, and every target's parent is there and the target vacant at its turn |
| RenameOrder.MixedListEnds | crates/app/src/orchestrator.rs:1464-1518 | After such a list without failures an entry is gone if and only if a deletion of it or of an ancestor stands before every performed rename of an ancestor; every other entry is where the renames take it, and nothing else is left |
| RenameOrder.LateDeletionIsLost | crates/app/src/orchestrator.rs:1464-1518 | A witness: a deletion listed behind the rename of its parent directory finds nothing, nothing fails, and the entry stays under the new path |
| RenameOrder.InsideFailsEitherWay | crates/app/src/orchestrator.rs:1468-1518 | A witness: for an entry renamed inside a renamed directory both orders fail |
| RenameOrder.NestedMovesDependOnOrder | crates/app/src/orchestrator.rs:1445-1518 | A witness: for a move out of a renamed directory the outer rename first fails and the inner first succeeds |
| Inventory.SortIsStable | crates/app/src/remote_inventory.rs:53-54 | The sorted list is ordered by name, a permutation, and keeps entries of equal name in arrival order |
| Inventory.DirectoryPages | crates/app/src/remote_inventory.rs:29-130 | One page per listed directory, holding the sorted files, then subdirectories, then the gap, numbered on from the last page; every failure is reported in order; the stream ends with Done exactly for a completed, unbroken walk and with an error otherwise |
| Inventory.ListingsConserve | crates/app/src/remote_inventory.rs:44-84 | Pages and pending lists together carry exactly what was observed |
| Inventory.IssuedInOrder | crates/app/src/remote_inventory.rs:56-71 | Allocation number j yields min(j, i32::MAX), files first, then subdirectories, then the gap, across pages |
| Inventory.UniqueIff | crates/app/src/remote_inventory.rs:56-71 | No index is issued twice if and only if at most 2^31 are used |
| LocalTransfer.LocalTransfer.SettleOne | crates/app/src/local_transfer.rs:174-194 | Whichever attempt ends first is settled: counted and told to the sink once, or lost with its task |
| LocalTransfer.LocalTransfer.Admit | crates/app/src/local_transfer.rs:69-87 | A file is admitted only when fewer than the limit are in flight |
| LocalTransfer.LocalTransfer.DrainAfterError | crates/app/src/local_transfer.rs:153-162 | After an error everything in flight is settled, the cancellation is tripped, and the first error is returned |
| LocalTransfer.LocalTransfer.Run | crates/app/src/local_transfer.rs:55-129 | For every completion order and every fault: nothing is in flight at the end; the outcome is good if and only if no fault arose and the totals match; without a fault observed = completed + failed + skipped, each file had one attempt whose own result the sink was told once, and the peak is the smaller of limit and number of files |
| LocalTransfer.TallyBalances | crates/app/src/local_transfer.rs:174-194 | The attempts told to the sink number as many as completions plus failures |
| JobLease.Host.Acquire | crates/app/src/job_execution.rs:20-59 | Undisturbed, a lease is acquired if and only if the lock file opens and no one has the job in this process or the directory in any; a refusal leaves no trace |
| JobLease.Host.Drop | crates/app/src/job_execution.rs:62-68 | Dropping a lease gives back exactly its registration and its lock |
| JobLease.Host.Execute | crates/app/src/job_execution.rs:20-68 | Acquiring and dropping a lease, or being refused it, restores the shared state exactly |
| JobLease.MutualExclusion | crates/app/src/job_execution.rs:14-68 | In every interleaving of registrations, locks, failures, drops and crashes no two leases are held for one directory, nor for one job in one process |
| JobLease.NothingLeaks | crates/app/src/job_execution.rs:51-68 | When no execution is left, no registration and no lock is left |
| JobLease.BothHoldIff | crates/app/src/job_execution.rs:13-68 | Two executions can both hold a lease if and only if their directories differ and not both process and job agree |
| JobLease.SameJobTwiceIff | crates/app/src/job_execution.rs:13-68 | Two executions of one job can both hold if and only if both process and directory differ |

## Left out

- Session.RemoteSessionState.Receive: the choice between full, delta and metadata-only transfer for a page item is the item's `request` flag; the effects of directory and ACL messages on storage, tar messages, and a file-list error other than as a broken connection are not modelled.
- Session.RemoteSessionState.BeginFull: sends on the command channel always succeed, and credit accounting (crates/app/src/remote_receiver_session.rs:404-417) is not modelled.
- ReceiverSystem.DiskCommitTask: directory and symlink commands, which the receive loop never sends, and progress counters of delete markers are not modelled; the channel's capacity of 16 and blocking on it are not either.
- FileCommit.FileCommitter.PushFullChunk: offsets of full-file chunks are checked by the storage engine's writer, which is not part of this model.
- FileCommit.FileCommitter.CommitFile: publishing is one step; staging, cancellation and metadata plans are not modelled, and reads of the basis are exact slices of a file that does not change during the bracket.
- DeltaStream.PatchRebuilds: models positioned writes over an unchanged copy of the basis; an engine that reads the basis while patching the same file is not modelled.
- Reconstruct.RoundTrip: needs at most 2^32 blocks, as the code squeezes block indexes into 32 bits.
- Matcher.DeltaMatcher.Push: the 64-bit position counter is a natural number.
- ResumeStore.ByteResumeStore.MarkCommitted: `offset + len` does not wrap at 64 bits; calls are serialized, as the code's mutex does.
- ResumeStore.ByteResumeStore.Open: an unreadable or unparsable state file counts as absent; one state file per destination path is modelled.
- ResumeStore.BalancedAlways: ends before the store is finalized; one recorder at a time writes a state file.
- ExpertPayload.ServePayload: QoS snapshots, digest computation and the offer negotiation around the payload loop are not modelled beyond the request's index, prefix and ceiling; the wrapper that turns a source error into a failure message (crates/app/src/remote_expert_transfer.rs:114-136) is left out.
- ExpertPayload.ReceivePayload: a forwarding channel that closes early is the parameter `room`; the kinds of protocol error are one value.
- Advertisement.Receive: error texts are not modelled; snapshots are opaque bytes with an arbitrary decoder.
- Advertisement.AdvertiseRemote: the sink accepts every event, and a failed walk is one outcome with its diagnostic.
- Renames.ApplyDeletionsAndRenames: the content and metadata sync that follows the rename of a changed file, the deletion of sources that are not kept, and the broadcasts are not modelled; paths are lists of components; deletions succeed, and a rename fails only for a missing source, an occupied target or a missing target directory.
- Inventory.DirectoryPages: the consumer keeps its end of the event channel open; a closed one makes the code stop early.
- LocalTransfer.LocalTransfer.Run: the transfer request, the identity label check and the sink's answers are arbitrary choices; byte totals are natural numbers.
- JobLease.Host.Acquire: the job key is an abstract value; hashing of the database identity and the sanitized job id is not modelled.
- The float square root in `calculate_block_size`, the parsing of sizes and the internals of BLAKE3.
- Storage backends, QUIC, TLS, handshake and flow-control windows, catalogue and scan checkpoints, licensing, command line, web and desktop interfaces: separate concerns, or easy members only.
- Liveness: no fairness of the scheduler or the network is modelled, so results are about safety and about what final states look like.
