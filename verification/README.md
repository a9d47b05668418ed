# deep-code-agent: a verified model

A Dafny model of the parts of the agent whose correctness is argued in prose in its own source: the
checkpoint store, the event-stream decoder, the turn and approval protocol, the session log with its
compaction, the image budget, the instruction-file heading scanner, the unattended shell sequence, the
message wire form and the signed grant encoding. `dafny verify dfyconfig.toml` checks all of it.

| file | what it models |
|---|---|
| `FileTree.dfy` | the workspace as one finite tree, what a snapshot records, what a restore makes of it |
| `Retention.dfy` | which checkpoints the retention cap removes |
| `CheckpointWalks.dfy` | where the clear, the copy back and the snapshot walk stand after each step |
| `Checkpoint.dfy` | `CheckpointStore`, one filesystem operation at a time, each of which may fail |
| `CheckpointExamples.dfy` | stores on which retention does what one might not expect |
| `SseDecoder.dfy` | `SseDecoder`, and the stream of lines and blocks it decodes |
| `SseStandard.dfy` | the decoder against section 9.2.6 of the WHATWG HTML standard |
| `TurnProtocol.dfy` | `begin_turn`, approvals, cancels, steering as mutex scopes that interleave freely |
| `Session.dfy`, `Compaction.dfy`, `SessionRun.dfy` | the session log, one fold, and whole runs of both |
| `Transcript.dfy`, `TranscriptContent.dfy` | the labelled transcript handed to the summarizer, and what a reader gets back from it |
| `ImageBudget.dfy` | the newest-first byte budget and the oldest-first eviction |
| `Headings.dfy`, `SetextHeadings.dfy` | the Markdown heading scanner and the section cut out with it |
| `LineForms.dfy` | what each kind of Markdown line looks like, spelled out |
| `TrimmedLines.dfy`, `Sections.dfy`, `SectionText.dfy`, `SectionExamples.dfy` | the section as it is returned, trimmed |
| `ShellSteps.dfy` | the gated step loop against the shell's recursive reading of `&&` and `;` |
| `MessageWire.dfy` | the hand-written JSON form of a message and its reader |
| `Messages.dfy`, `Requests.dfy` | chat messages, and a request from the session to the wire |
| `SignedEncoding.dfy` | the length-prefixed signed message and the hex spelling of its tag |
| `Wrappers.dfy`, `Sequences.dfy`, `Text.dfy` | `Option` and `Byte`, facts about sequences, lines and trimming |

## What the model settles

* **Restore.** The workspace and `.deep-code/checkpoints` are one tree, so "the stored snapshot is
  untouched" is a theorem. A failing operation is an oracle, so a statement about every oracle is one
  about stopping after every prefix of the deletes and copies. Both platforms (with and without recorded
  symlinks) are covered by one parameter. A restore is exact whenever it reports success; without faults
  it succeeds exactly when no file or link of the snapshot stands where the clear has to keep a directory
  (one that holds a skipped directory or an uncapturable entry). The refuse-to-write-through guard never
  fires without a concurrent writer.
* **What a clear deletes.** The source promises that the clear deletes only what the restore can write
  back. It does not: `snapshot_covers` stats through a link recorded higher up, so an uncapturable entry
  below a place where the snapshot has a link is deleted, never put back and never reported, exactly when
  that stat finds something. A socket in a directory that was a link at snapshot time shows it.
* **Retention.** After a snapshot exactly the newest checkpoints up to the cap are left. The new one is
  among them if and only if fewer than the cap carry a newer stamp, so a clock that stepped back can take
  a checkpoint away in the call that made it: with a cap of one, a store that holds `x_2` takes `x_1` and
  removes it. A removal that stops half way is a warning, but the checkpoint stays on offer, and restoring
  it deletes the files it has lost.
* **Cancelled parks.** The comments promise that no batch stays parked under a cancelled token outside
  `begin_turn`. A turn handle flips its token outside the lock, before its `cancel_turn_if`, so there is a
  second window. Both windows are exhibited; outside `begin_turn` a parked batch's token is cancelled if
  and only if its turn's handle is in that window.
* **Event payloads.** On a stream whose carriage returns all stand right before line feeds and that starts
  with no byte order mark, the decoder and section 9.2.6 of the WHATWG HTML standard dispatch the same
  payloads if and only if every block that a blank line ends has no data, or a non-empty first value and a
  colon in every data line, and what is left open at the end holds only empty values. Four streams show the
  four ways to differ: an empty first value, a bare `data` line, a block of empty values, an open last
  block. Two more show why the restriction is there: behind a byte order mark the decoder misses the first
  line, and at a lone return it goes on where the standard starts a new line.
* **The transcript.** Read back line by line it gives every entry's text, arguments and results, up to their
  caps, under labels nothing inside can forge. The one thing a reader cannot tell is whether a line that
  looks like an escaped heading line was escaped: such a line reads back exactly when the text held no
  `\#` there.
* **Folds.** One fold reaches a fixed point on any entry list, but makes progress only when the archived
  range holds something other than a summary. Every fold in a real run does.
* **Sections.** In the file's own reading the section's lines hold no heading of its rank or a higher one.
  The text that is returned can: it is cut out of its list item, and trimmed. `## 压缩说明` over an indented
  `# x` returns a level-1 heading. The returned text reads exactly as the section did in the file when no
  list item is open, the first line opens a text the same way without its indentation, and the last line
  is not a run of hashes before odd whitespace; each of the three conditions is exact over all
  continuations (or all beginnings).
* **Hex.** `from_hex` undoes `to_hex`, and also accepts capitals and `+f`. An accepted text is what
  `to_hex` writes exactly when it has neither.

## Model

| member | source | states |
|---|---|---|
| FileTree.PrunedMeansSkippedOnTheWay | crates/deep-code-agent/src/checkpoint.rs:480-501 | a path is out of both walks exactly when some ancestor or the path itself is skipped, although `should_skip` alone is not closed under descent (`build/x`) |
| FileTree.PrunedStep | crates/deep-code-agent/src/checkpoint.rs:546-590 | pruning as the walks compute it, parent first, is the closed form |
| FileTree.CapturedHasShape | crates/deep-code-agent/src/checkpoint.rs:523-544 | what a snapshot records is itself a tree of capturable, unpruned entries |
| FileTree.RestoreIsExact | crates/deep-code-agent/src/checkpoint.rs:318-385 | path by path: snapshot entries are restored, pruned subtrees unchanged, and any other survivor is an uncovered uncapturable entry or a directory leading to something kept |
| FileTree.LostIffSeenThroughLink | crates/deep-code-agent/src/checkpoint.rs:834-978 | an uncapturable entry the snapshot does not hold is lost, unreported, if and only if a link recorded higher up leads a stat to something |
| FileTree.SocketIsLost | crates/deep-code-agent/src/checkpoint.rs:971-978 | a workspace whose socket is lost that way |
| FileTree.ReachesDoesNotMatter | crates/deep-code-agent/src/checkpoint.rs:971-978 | without uncapturable entries below recorded links, what such a stat answers changes nothing |
| FileTree.SkippedDirBlocks | crates/deep-code-agent/src/checkpoint.rs:862-969 | a workspace whose restore is blocked: a skipped directory inside what was a file |
| FileTree.KeptUnderSnapshotIsDir | crates/deep-code-agent/src/checkpoint.rs:834-860 | after a clear nothing but directories stands at a snapshot path, so no write goes through a link or special file |
| FileTree.RestoredFormIffUnblocked | crates/deep-code-agent/src/checkpoint.rs:340-385 | snapshot plus kept entries is a tree again if and only if no kept directory stands where a file or link must go |
| FileTree.InterruptedRestoreConverges | crates/deep-code-agent/src/checkpoint.rs:340-385 | from any state an interrupted restore may leave, the restored workspace and the blocked condition are those of the original state |
| FileTree.ResumableComposes | crates/deep-code-agent/src/checkpoint.rs:340-385 | an interrupted restore of an interrupted restore is still one interrupted restore |
| FileTree.SnapshotThenRestoreIsIdentity | crates/deep-code-agent/src/checkpoint.rs:480-501 | restoring a snapshot of the present workspace changes nothing, sockets, links and skipped directories included, and is never blocked |
| CheckpointWalks.MintId | crates/deep-code-agent/src/checkpoint.rs:220-226 | every id `snapshot` makes, whatever the label, passes the validation of `restore`, is recognized by retention and carries its time stamp |
| CheckpointWalks.MintedStamp | crates/deep-code-agent/src/checkpoint.rs:220-443 | the stamp retention reads off a minted id is the time it was made at, for every time of 128 bits and every label |
| CheckpointWalks.EarlierIsOlder | crates/deep-code-agent/src/checkpoint.rs:293-443 | whatever the labels, a checkpoint made at an earlier time is the older one |
| CheckpointWalks.StagingIsNoCheckpoint | crates/deep-code-agent/src/checkpoint.rs:227-241 | a staging directory can never be named as a checkpoint |
| CheckpointWalks.WritableIffUnblocked | crates/deep-code-agent/src/checkpoint.rs:615-631 | after the clear, every snapshot entry can be written if and only if the restore is not blocked |
| CheckpointWalks.OverlaidIsResumable | crates/deep-code-agent/src/checkpoint.rs:546-675 | whatever a copy back wrote or spoilt before failing, the result is a state the next restore recovers from |
| Checkpoint.CheckpointStore.ClearDirContents | crates/deep-code-agent/src/checkpoint.rs:862-969 | leaves exactly the pruned entries, the uncovered uncapturable ones and the directories leading to them below the directory, touches nothing outside it, reports exactly the uncovered uncapturable ones, and tells the caller whether anything is left |
| Checkpoint.CheckpointStore.ClearLeaf | crates/deep-code-agent/src/checkpoint.rs:905-969 | a file goes, a link or special file goes only when it is recordable or covered |
| CheckpointWalks.SnapshotCovers | crates/deep-code-agent/src/checkpoint.rs:971-978 | the stat under the stored snapshot answers whether the snapshot covers the path |
| Checkpoint.CheckpointStore.CopyBack | crates/deep-code-agent/src/checkpoint.rs:546-675 | on success the tree is overlaid with the whole snapshot; on failure only snapshot paths changed; the refusal names a link or special file that stood there before |
| Checkpoint.CheckpointStore.EnsureOwnedStorage | crates/deep-code-agent/src/checkpoint.rs:165-178 | makes at most the two storage directories and changes nothing else |
| Checkpoint.CheckpointStore.Restore | crates/deep-code-agent/src/checkpoint.rs:318-385 | every stored snapshot is untouched; an unknown id changes nothing visible; success is exact with the exact report; failure is resumable and never the write-through refusal; without faults success if and only if unblocked |
| Checkpoint.CheckpointStore.CopyToStaging | crates/deep-code-agent/src/checkpoint.rs:546-675 | records exactly the captured workspace under staging and counts exactly the visible entries; aborts only for the ceiling or the token; writes nowhere else |
| Checkpoint.CheckpointStore.Publish | crates/deep-code-agent/src/checkpoint.rs:269-272 | moves the staging copy to the checkpoint's name whole, or not at all |
| Checkpoint.CheckpointStore.RemoveCheckpoint | crates/deep-code-agent/src/checkpoint.rs:294-299 | on success nothing of the checkpoint is left; a removal that fails may leave any part of it that is still a tree, unchanged, and touches nothing else |
| Checkpoint.CheckpointStore.PruneOldSnapshots | crates/deep-code-agent/src/checkpoint.rs:282-301 | either none or exactly the expired checkpoints are tried; the warnings name exactly those whose removal failed, which may have lost a part; of the others nothing is left, and nothing else is touched; without faults all expired ones go |
| Checkpoint.CheckpointStore.Snapshot | crates/deep-code-agent/src/checkpoint.rs:204-280 | before retention the workspace and all other checkpoints are untouched and a created checkpoint holds the workspace as captured; retention then tries expired checkpoints only and removes them whole or warns about them; when the time is later than every stored stamp the new checkpoint outlives its own call, whatever fails; too large, cancelled and the latch are reported as they happened; without faults it is created if and only if the entry ceiling holds |
| Checkpoint.NewestAreLeft | crates/deep-code-agent/src/checkpoint.rs:282-301 | exactly the newest by stamp up to the cap are left, each newer than all that go, and the new one is among them if and only if fewer than the cap are newer |
| Checkpoint.LatestStays | crates/deep-code-agent/src/checkpoint.rs:204-301 | a snapshot later than every stored checkpoint is never removed or damaged by the retention of its own call |
| CheckpointWalks.OtherNamesStay | crates/deep-code-agent/src/checkpoint.rs:282-434 | whatever retention does, nothing under a name that is no label, underscore and digits is touched |
| Retention.StampedIff | crates/deep-code-agent/src/checkpoint.rs:429-434 | the names retention looks at are exactly those that end in an underscore and digits |
| CheckpointExamples.SteppedBackClock | crates/deep-code-agent/src/checkpoint.rs:282-301 | with a cap of one, a store that holds `x_2` takes the snapshot `x_1`, which retention removes in the same call |
| Checkpoint.DamagedStillRestores | crates/deep-code-agent/src/checkpoint.rs:294-299 | a checkpoint whose removal stopped half way is still listed, and restoring it deletes every workspace file it no longer holds |
| CheckpointExamples.HalfRemovedDeletes | crates/deep-code-agent/src/checkpoint.rs:294-299 | a store on which that happens: what retention leaves of `x_1` restores to a workspace without its file `a` |
| Retention.ExcessIsExpired | crates/deep-code-agent/src/checkpoint.rs:293-295 | taking the excess off the oldest-first list takes exactly the ids with at least `max` newer ones |
| Retention.OlderIsAnOrder | crates/deep-code-agent/src/checkpoint.rs:438-443 | stamps, with equal ones by name, order the checkpoints totally |
| Checkpoint.RestoreRightAfterSnapshot | crates/deep-code-agent/src/checkpoint.rs:204-385 | a restore right after its snapshot, when retention neither removed nor damaged it, is never blocked and leaves the workspace as it was |
| Checkpoint.RetriedRestoreConverges | crates/deep-code-agent/src/checkpoint.rs:340-385 | after any number of restores cut short anywhere, the first success leaves the workspace and the report of a single uninterrupted one |
| Checkpoint.RetriedRestoreWhateverLinksReach | crates/deep-code-agent/src/checkpoint.rs:340-385 | the same when a stat through a recorded link may answer differently in every attempt, as long as nothing uncapturable lies below such a link |
| SseDecoder.LineNeverGrows | crates/deep-code-agent/src/client.rs:256-275 | a line adds no more to the pending data than it took out of the buffer |
| SseDecoder.DrainNeverGrows | crates/deep-code-agent/src/client.rs:225-241 | processing lines never increases the undispatched bytes |
| SseDecoder.DrainComposes | crates/deep-code-agent/src/client.rs:225-241 | draining a prefix and then the rest is draining everything |
| SseDecoder.FeedIsWhole | crates/deep-code-agent/src/client.rs:225-285 | a decoder that does not overflow reads any cutting as the whole stream |
| SseDecoder.ChunkIndependence | crates/deep-code-agent/src/client.rs:225-285 | two cuttings of one stream that do not overflow give the same events or both fail to decode |
| SseDecoder.FinerCuttingAccepted | crates/deep-code-agent/src/client.rs:211-241 | any finer cutting of an accepted stream is accepted with the same outcome |
| SseDecoder.DecoderMeetsStream | crates/deep-code-agent/src/client.rs:225-285 | the events are those of the stream's blocks between blank lines, defined without the decoder |
| SseStandard.LeadingEmptyValueIsLost | crates/deep-code-agent/src/client.rs:262-270 | a stream, `data:`, `data:x` and a blank line, on which the decoder and the standard differ |
| SseStandard.BareDataIsLost | crates/deep-code-agent/src/client.rs:262-274 | a stream with a bare `data` line on which they differ |
| SseStandard.EmptyDataIsSilent | crates/deep-code-agent/src/client.rs:277-284 | a stream with a block of empty values that only the standard dispatches |
| SseStandard.OpenBlockIsFlushed | crates/deep-code-agent/src/client.rs:243-254 | a stream without a final blank line that only the decoder dispatches |
| SseStandard.DecoderMeetsStandardIff | crates/deep-code-agent/src/client.rs:225-285 | over streams whose returns all stand before line feeds and that start with no byte order mark, the payloads are the standard's if and only if every ended block is plain and the open one holds only empty values |
| SseStandard.MarkHidesData | crates/deep-code-agent/src/client.rs:256-270 | a stream with a byte order mark, on which the decoder dispatches nothing and the standard one payload |
| SseStandard.LoneReturnSplits | crates/deep-code-agent/src/client.rs:225-241 | a stream with a lone return, which the decoder keeps in the payload and the standard ends a line at |
| SseStandard.EventsAreParsedPayloads | crates/deep-code-agent/src/client.rs:277-285 | what a run delivers is what those payloads parse to |
| SseDecoder.Decoder.Push | crates/deep-code-agent/src/client.rs:225-241 | after an accepted chunk the state is the drained one and within the limit; overflow only on the entry check |
| SseDecoder.Decoder.HandleLine | crates/deep-code-agent/src/client.rs:256-275 | one line's effect on the pending data and events |
| SseDecoder.Decoder.DispatchEvent | crates/deep-code-agent/src/client.rs:277-285 | dispatches and clears the pending data |
| SseDecoder.Decoder.FinishStream | crates/deep-code-agent/src/client.rs:243-254 | flushes the unterminated rest |
| SseDecoder.DecodeStream | crates/deep-code-agent/src/client.rs:124-139 | the loop over chunks is the specification of a fed decoder |
| TurnProtocol.Runtime.BeginFirstScope | crates/deep-code-agent/src/runtime.rs:390-408 | cancels the token of the turn in flight, and nothing else |
| TurnProtocol.Runtime.BeginSecondScope | crates/deep-code-agent/src/runtime.rs:411-448 | the new turn replaces the pending batch, the current turn, the token and the steers |
| TurnProtocol.Runtime.TryPark | crates/deep-code-agent/src/runtime/tool_result.rs:377-386 | parks only under a live token of the current turn, and hands the batch back otherwise |
| TurnProtocol.Runtime.SubmitApproval | crates/deep-code-agent/src/runtime.rs:549-591 | takes the pending batch only under its own id; tells apart nothing pending and a stale id |
| TurnProtocol.Runtime.CancelTurnInner | crates/deep-code-agent/src/runtime.rs:616-664 | without a turn, or for the current one: hands out the parked batch, clears the place and the steers and flips the token if anything was parked or in flight; for any other turn: nothing |
| TurnProtocol.Runtime.Finish | crates/deep-code-agent/src/runtime/persistence.rs:247-266 | closes the turn only while it is current |
| TurnProtocol.Runtime.SteerIn | crates/deep-code-agent/src/runtime.rs:506-530 | accepts a steer if and only if a turn is in flight, behind those already waiting and aimed at that turn |
| TurnProtocol.Runtime.Drain | crates/deep-code-agent/src/runtime/turn_loop.rs:718-745 | hands over the steers only to the current turn |
| TurnProtocol.OwnerWorksAlone | crates/deep-code-agent/src/runtime.rs:679-682 | in every reachable state, while a turn is owned no other is, only its own batch is parked, the waiting steers are aimed at it, and its running task can still park |
| TurnProtocol.BegunTurnIsOwned | crates/deep-code-agent/src/runtime.rs:411-448 | in every run a turn that has begun is owned by its task |
| TurnProtocol.OwnedUntilEnded | crates/deep-code-agent/src/runtime.rs:390-682 | in every run it stays owned until another `begin_turn`, its end, a cancel of it or its handle, and each of these ends it |
| TurnProtocol.OwnershipIsNeverRegained | crates/deep-code-agent/src/runtime.rs:679-682 | over any run a turn that has lost its ownership never gets it back |
| TurnProtocol.StepKeepsInvariant | crates/deep-code-agent/src/runtime.rs:390-664 | every lock scope, in any order, keeps the invariant |
| TurnProtocol.RunInvariant | crates/deep-code-agent/src/runtime.rs:390-664 | every state of every interleaving satisfies it |
| TurnProtocol.TakenAtMostOnce | crates/deep-code-agent/src/runtime.rs:549-664 | over a whole run no parked batch is taken twice, by answers or cancels |
| TurnProtocol.AnswerResumesItsOwnBatch | crates/deep-code-agent/src/runtime.rs:549-591 | in every reachable state a decision resumes the batch parked under that id, and any other decision changes nothing |
| TurnProtocol.CancelStopsTheTurn | crates/deep-code-agent/src/runtime.rs:601-664 | in every reachable state the user's cancel, and one for the current turn, takes whatever is parked, drops the steers, and leaves the turn in flight unable to go on or to park |
| TurnProtocol.CancelIfSparesOtherTurns | crates/deep-code-agent/src/runtime.rs:612-664 | in every reachable state `cancel_turn_if(t)` flips no other turn's token, takes no other turn's batch, and is complete for t |
| TurnProtocol.ParkedAsGiven | crates/deep-code-agent/src/runtime/tool_result.rs:377-386 | in every run a task parks its own batch under its own token exactly when it owns its turn, and otherwise nothing changes |
| TurnProtocol.ParkFindsThePlaceEmpty | crates/deep-code-agent/src/runtime/approval_flow.rs:616-624 | in every reachable state a park never overwrites another batch |
| TurnProtocol.ParkedBatchIsLive | crates/deep-code-agent/src/runtime.rs:629-636 | outside `begin_turn`, a parked batch belongs to the current turn under its token, which is cancelled if and only if that turn's handle is between its flip and its `cancel_turn_if` |
| TurnProtocol.HandleFlipsUnderAParkedBatch | crates/deep-code-agent/src/runtime/turn_handle.rs:97-120 | a run that shows the handle's window |
| TurnProtocol.BeginCancelsUnderAParkedBatch | crates/deep-code-agent/src/runtime.rs:390-448 | a run that shows the window of `begin_turn` |
| TurnProtocol.SteersWaitTheirTurn | crates/deep-code-agent/src/runtime/turn_loop.rs:718-745 | a steer accepted during a turn waits behind the others, and the turn's drain delivers all of them in order |
| TurnProtocol.SteersReachTheirOwnTurn | crates/deep-code-agent/src/runtime/turn_loop.rs:718-745 | no steer is recorded in a turn it was not aimed at |
| Session.WireIsPaired | crates/deep-code-agent/src/session.rs:193-238 | on the derived messages alone: k calls are followed by exactly their k tool messages in order, and no tool message stands elsewhere |
| Session.EntryMessageSays | crates/deep-code-agent/src/session.rs:205-226 | each entry's own message carries its role and text, the summary behind its prefix for a fold, its images in order, its reasoning when there is any, and its calls in order |
| Session.ToolMessageSays | crates/deep-code-agent/src/session.rs:227-234 | the message of an exchange carries the recorded result's text, and the placeholder exactly while there is none |
| Session.RecordFillsOnePlaceholder | crates/deep-code-agent/src/session.rs:144-184 | recording a result replaces the content of one message, the placeholder at that exchange's place, by the result's text, and changes nothing else on the wire |
| Session.ResultSlotIff | crates/deep-code-agent/src/session.rs:144-184 | a result goes to the newest assistant entry, to its first exchange for that call without a result, and otherwise nowhere |
| Session.RecordKeepsEarlierResults | crates/deep-code-agent/src/session.rs:144-184 | recording adds one result and overwrites none |
| Session.PartialReplyOnTheWire | crates/deep-code-agent/src/session.rs:116-135 | a late reply is one assistant message with its own text and reasoning right behind its anchor, and nothing else moves |
| Session.Conversation.PushAssistant | crates/deep-code-agent/src/session.rs:94-111 | one new entry with its calls all waiting |
| Session.Conversation.RecordToolResult | crates/deep-code-agent/src/session.rs:144-184 | succeeds if and only if the newest assistant entry waits for the call, and fills its first such exchange |
| Session.Conversation.InsertPartialAfter | crates/deep-code-agent/src/session.rs:116-135 | inserts if and only if the anchor is still there, by identity |
| Session.Conversation.WireMessages | crates/deep-code-agent/src/session.rs:193-238 | the derived messages, well paired |
| Compaction.PlanCompaction | crates/deep-code-agent/src/compaction.rs:169-212 | the plan: after the system entry, at most up to the newest user entry, never the recent tail, never a lone summary |
| Compaction.PlanIsLargest | crates/deep-code-agent/src/compaction.rs:169-212 | the plan archives the longest range that leaves five entries and the newest user entry, and there is none exactly for a short list, an empty range or a lone summary |
| Compaction.ApplyCompaction | crates/deep-code-agent/src/compaction.rs:249-264 | the entries in front, one summary that carries the given text and the number of entries archived for the first time, and the tail |
| Compaction.FoldOnTheWire | crates/deep-code-agent/src/compaction.rs:249-264 | on the wire a fold is one system message with the summary in place of what it archives |
| Compaction.FoldIsAFixedPoint | crates/deep-code-agent/src/compaction.rs:169-264 | after a fold there is nothing to plan, for every list and summary |
| Compaction.FoldAccounts | crates/deep-code-agent/src/compaction.rs:148-264 | a fold removes the archived entries and results only, and makes progress if and only if the range holds something that is not a summary |
| Compaction.TwoSummariesMakeNoProgress | crates/deep-code-agent/src/compaction.rs:169-212 | a list on which a fold makes no progress |
| SessionRun.RunInvariant | crates/deep-code-agent/src/session.rs:48-200 | every state of every run of pushes, results, late replies and two-step folds, from any log that satisfies the invariant, satisfies it |
| SessionRun.EmptyHolds | crates/deep-code-agent/src/session.rs:48-51 | the empty session satisfies the invariant |
| SessionRun.ReloadedHolds | crates/deep-code-agent/src/session.rs:53-56 | a session saved and loaded, under new identities, satisfies it and says the same on the wire |
| SessionRun.RunKeepsTheConversation | crates/deep-code-agent/src/compaction.rs:148-264 | at most one summary, right behind the leading system entry; the rest is the newest part of everything pushed with the newest user entry in it; archived counts plus live entries are everything pushed; the wire is paired |
| SessionRun.IntactIff | crates/deep-code-agent/src/runtime/compaction_flow.rs:236-262 | in every state with the invariant a commit passes the identity check if and only if no other fold came between and the planned range still holds the planned entries |
| SessionRun.FoldMakesProgress | crates/deep-code-agent/src/runtime/compaction_flow.rs:236-275 | every committed fold of a run archives something that is not a summary |
| SessionRun.StepKeepsResults | crates/deep-code-agent/src/session.rs:144-184 | only a fold removes results, and only those of the entries it archives |
| Transcript.LabelsAreUnforgeable | crates/deep-code-agent/src/compaction.rs:392-503 | for all entries the heading lines of the transcript are one role label per entry, in order |
| Transcript.NewlineIsTheOnlyBreak | crates/deep-code-agent/src/compaction.rs:488-503 | the transcript holds no line break other than the newline |
| TranscriptContent.EntryIsTold | crates/deep-code-agent/src/compaction.rs:392-507 | grouped at its heading lines, the untrimmed transcript has one group per entry, in order: its label, its text read back up to its cap, and the number of images or every exchange with its tool's name, its arguments, and its result under its status |
| TranscriptContent.LineReadsBackIff | crates/deep-code-agent/src/compaction.rs:476-490 | a line reads back from its escaped form if and only if it did not look escaped; one that did is the escaped form of another line too |
| TranscriptContent.QuotedShows | crates/deep-code-agent/src/compaction.rs:460-471 | quoted arguments and results read back as the lines of their text, whole up to the cap, else its first characters and an ellipsis |
| TranscriptContent.NormalizeConcat | crates/deep-code-agent/src/compaction.rs:495-503 | line breaks are normalized piece by piece, `\r\n` being one piece |
| TranscriptContent.OnlyTheEndIsTrimmed | crates/deep-code-agent/src/compaction.rs:457 | the transcript handed over is that text without the whitespace at its end |
| Transcript.FlattenEntries | crates/deep-code-agent/src/compaction.rs:392-458 | the buffer as filled is the specified transcript |
| ImageBudget.Described | crates/deep-code-agent/src/image.rs:280-286 | a note names a file by its path and a link by its address, and never spells out inline data |
| ImageBudget.SentBytesWithinLimit | crates/deep-code-agent/src/image.rs:467-555 | the inspected bytes of local images sent never exceed the limit |
| ImageBudget.HydratedMessages | crates/deep-code-agent/src/image.rs:467-555 | one account that starts at the limit behind the newest image decides every image of every message: sent, resolved, exactly when the model takes images, it is among the first four, can be read and fits; otherwise it leaves the note of what failed; images and notes follow in order |
| ImageBudget.NotAcceptedSendsNothing | crates/deep-code-agent/src/image.rs:491-494 | a model that takes no images gets none, and the text is followed by one note per image, in order |
| ImageBudget.OlderMessagesDoNotMatter | crates/deep-code-agent/src/image.rs:467-525 | older messages in front change nothing about what the newer ones send |
| ImageBudget.NewestMessageIsServedFirst | crates/deep-code-agent/src/image.rs:467-525 | the newest message's readable images are all sent whenever they fit by themselves |
| ImageBudget.HydrateFor | crates/deep-code-agent/src/image.rs:467-555 | the nested reverse loops compute the specified decisions |
| ImageBudget.EvictOneMore | crates/deep-code-agent/src/image.rs:576-592 | one pass of the eviction drops exactly the next oldest image |
| ImageBudget.FitRequestToLimit | crates/deep-code-agent/src/image.rs:565-593 | for any size function, the fewest oldest images are removed at which the request with its notes fits, or all of them |
| Headings.ScanHolds | crates/deep-code-agent/src/instructions.rs:236-344 | headings come out ordered with disjoint in-range spans that touch no blank, code or comment line; each is an ATX line or title lines over its underline, with its level and title |
| Headings.AtxHeadingsExactly | crates/deep-code-agent/src/instructions.rs:236-344 | the one-line headings are exactly the ATX lines outside code and comments |
| SetextHeadings.SetextHeadingsExactly | crates/deep-code-agent/src/instructions.rs:296-343 | a paragraph and the line after it are a setext heading if and only if the paragraph opens at top level as prose, no line of it has a structure of its own, and the line is an underline |
| Headings.MarkdownHeadings | crates/deep-code-agent/src/instructions.rs:236-344 | the loop computes the specified scan |
| LineForms.IndentIff | crates/deep-code-agent/src/instructions.rs:348-351 | a line is a block exactly when at most three spaces and then neither a space nor a tab stand in front |
| LineForms.FenceIff | crates/deep-code-agent/src/instructions.rs:355-366 | a fence opens exactly with three or more backticks or tildes, no backtick behind backticks |
| LineForms.ClosesIff | crates/deep-code-agent/src/instructions.rs:370-376 | and closes exactly with at least as many of its own marker and whitespace |
| LineForms.CommentIff | crates/deep-code-agent/src/instructions.rs:286-291 | a comment opens exactly with its mark, and goes on exactly when its end mark is not behind it |
| LineForms.AtxIff | crates/deep-code-agent/src/instructions.rs:379-388 | a line is a heading of a level exactly when it is that many hashes, one to six, and nothing, a space or a tab |
| LineForms.AtxTitleIs | crates/deep-code-agent/src/instructions.rs:389-398 | its title is the trimmed rest, without a closing run of hashes that stands alone or behind a space or tab |
| LineForms.UnderlineIff | crates/deep-code-agent/src/instructions.rs:402-411 | an underline is exactly a run of `=`, level 1, or `-`, level 2, and whitespace |
| LineForms.RuleIff | crates/deep-code-agent/src/instructions.rs:457-468 | a rule is exactly three or more of one of its markers and nothing else but spaces and tabs |
| LineForms.ItemContent | crates/deep-code-agent/src/instructions.rs:416-443 | the content column of a list item, for every marker and every number of blanks behind it |
| LineForms.DefinitionIff | crates/deep-code-agent/src/instructions.rs:447-453 | a link definition is exactly a name in brackets, a colon and a destination, none of them blank |
| LineForms.TitleIff | crates/deep-code-agent/src/instructions.rs:196-201 | a title names the section exactly when it is one of the three names, the English one in any case, between whitespace, any colons behind it |
| LineForms.FileLinesCons | crates/deep-code-agent/src/instructions.rs:202 | a file's lines end at newlines, and a return right before a newline goes with it |
| Headings.SectionIsInRange | crates/deep-code-agent/src/instructions.rs:195-215 | the section's slice is always in range |
| Headings.SectionHoldsOnlyDeeper | crates/deep-code-agent/src/instructions.rs:195-215 | every heading is before the section, inside it and deeper, or at its end or later |
| Headings.SectionLinesAreDeeper | crates/deep-code-agent/src/instructions.rs:195-215 | no plain line of the section is an ATX heading of its rank or higher |
| Headings.SectionStandsAlone | crates/deep-code-agent/src/instructions.rs:195-215 | outside list items, the cut-out lines scanned alone give exactly the deeper headings the file has there |
| Sections.ReadsAloneIff | crates/deep-code-agent/src/instructions.rs:264-275 | what follows a heading reads the same on its own, for every continuation, if and only if no list item is left open |
| TrimmedLines.TrimJoin | crates/deep-code-agent/src/instructions.rs:212-213 | trimming a text drops its outer blank lines and trims the first and last of the others |
| Sections.FirstLineIff | crates/deep-code-agent/src/instructions.rs:212-214 | trimming the first line keeps the headings of every continuation if and only if the line opens a text the same way without its indentation |
| SectionText.LastLineIff | crates/deep-code-agent/src/instructions.rs:212-214 | trimming the last line keeps the headings of everything before it if and only if the line is not hashes before whitespace other than a space or tab |
| SectionText.ReturnedSectionReads | crates/deep-code-agent/src/instructions.rs:195-215 | the text the section function returns for a file, read as a file of its own under those conditions, gives exactly the deeper headings the file has in the section, so none of its rank or a higher one |
| SectionExamples.TrimExposesHeading | crates/deep-code-agent/src/instructions.rs:195-215 | a file whose level-2 section is returned as a level-1 heading |
| SectionExamples.ItemHidesHeading | crates/deep-code-agent/src/instructions.rs:264-275 | a file whose level-1 section, cut out of its list item, is a level-1 heading |
| ShellSteps.StepsFor | crates/deep-code-agent/src/shell_tools.rs:349-371 | approved text runs as one shell step; text nobody approved runs only as the parser's own argv with the parser's own gates, or not at all |
| ShellSteps.FlatIsNested | crates/deep-code-agent/src/shell_tools.rs:826-917 | the flat gated loop tries the same commands in the same order with the same status, errors and effects as the recursive reading, for every stateful host |
| ShellSteps.Group | crates/deep-code-agent/src/execution_policy/shell_lex.rs:1684-1692 | every step list that opens ungated is the flat form of a list of `&&` chains |
| ShellSteps.GroupIsUnique | crates/deep-code-agent/src/execution_policy/shell_lex.rs:1684-1692 | and of only one |
| ShellSteps.NothingStartsAfterAStop | crates/deep-code-agent/src/shell_tools.rs:826-917 | only the last attempt can be a cancel, timeout or fatal error, and the status is that of the last attempt |
| ShellSteps.RunReports | crates/deep-code-agent/src/shell_tools.rs:826-917 | every attempt is the host's answer in the world the earlier ones left; the result is that of the last attempt, and the errors shown are those of the commands that could not start |
| ShellSteps.RunSteps | crates/deep-code-agent/src/shell_tools.rs:826-917 | the loop's result, effects and attempts are those of the recursive reading |
| MessageWire.RoleIsRead | crates/deep-code-agent/src/message.rs:9-28 | a role is read exactly from its own name, or from an object that holds that name over null |
| MessageWire.Documents | crates/deep-code-agent/src/message.rs:257-297 | an assistant's turn, a tool's answer and a user's text with an image, field by field as the provider reads them |
| MessageWire.RoundTrip | crates/deep-code-agent/src/message.rs:257-325 | every message the printer accepts reads back as itself |
| MessageWire.ReadIsSendable | crates/deep-code-agent/src/message.rs:299-363 | every message the reader accepts, from any document, the printer accepts |
| Requests.RequestAlwaysSerializes | crates/deep-code-agent/src/runtime/turn_loop.rs:293-333 | whatever a session holds, its messages, resolved and without any number of their oldest images, always print and read back as themselves, and still pair every call with its result |
| MessageWire.SplitPartsLoop | crates/deep-code-agent/src/message.rs:327-363 | the loop over parts computes the specified text and images |
| MessageWire.ContentParts | crates/deep-code-agent/src/message.rs:178-211 | the parts buffer is the specified content |
| SignedEncoding.EncodingIsPrefixFree | crates/deep-code-agent/src/session_integrity.rs:190-208 | no grant's bytes begin another's, for all lengths below 2^64 |
| SignedEncoding.EncodingIsInjective | crates/deep-code-agent/src/session_integrity.rs:190-208 | equal bytes if and only if equal id, workspace and list of roots |
| SignedEncoding.BuildMessage | crates/deep-code-agent/src/session_integrity.rs:195-208 | the buffer as filled is the specified message |
| SignedEncoding.FromHexUndoesToHex | crates/deep-code-agent/src/session_integrity.rs:292-308 | reading what was written gives the bytes back |
| SignedEncoding.FromHexAcceptsExactly | crates/deep-code-agent/src/session_integrity.rs:300-308 | accepted if and only if of even length, each pair a digit or plus sign and a digit |
| SignedEncoding.ToHexUndoesFromHexIff | crates/deep-code-agent/src/session_integrity.rs:292-308 | an accepted text is the one written if and only if it has no plus sign and no capital |
| SignedEncoding.PlusSpellsTheSame | crates/deep-code-agent/src/session_integrity.rs:300-308 | two texts that name the same byte |

## Left out

- Checkpoint listing for the user: only the part of `list` that retention uses is modelled.
- Checkpoint platform code: clone ioctls, copy retries, permission bits, and writers that plant links between a check and a write. Each delete, copy, mkdir and rename is one atomic step that may fail; a recursive removal is one step that may leave any part that is still a tree.
- Checkpoint order: the walks are stated for any order that visits a directory before its contents, of which the original's is one; the restore report is a set, so its sorting is not modelled.
- FileTree.InterruptedRestoreConverges: a stat through a recorded link answers the same before and after the interruption; a link that points into the workspace being cleared can break that.
- Checkpoint.RetriedRestoreConverges: the same for all attempts; Checkpoint.RetriedRestoreWhateverLinksReach needs it only within one attempt.
- Checkpoint.CheckpointStore.Restore: assumes of every stored checkpoint what `snapshot` makes true of it: it holds no skipped name and no uncapturable entry. The storage lies inside the workspace, and the copy back skips nothing, so a checkpoint directory planted or edited by hand that holds `.git` would overwrite that skipped subtree. It also assumes that a stat through a recorded link does not change its answer during one restore, which matters only when something uncapturable lies below such a link.
- Checkpoint.CheckpointStore.Snapshot: takes the time as a parameter, within 128 bits, and asks that the staging name of its id is free.
- SSE: UTF-8 validity of a line and the decoding of a payload are parameters; HTTP, timeouts and the asynchronous plumbing are not modelled.
- SseStandard.DecoderMeetsStandardIff: gives no exact condition for streams with a return that is not followed by a line feed, or with a byte order mark; SseStandard.MarkHidesData and SseStandard.LoneReturnSplits are two that differ.
- TurnProtocol.RunInvariant: assumes fresh turn ids, tokens and approval ids, and that a task ends its turn only before it parks (a panic after parking is not modelled); the bodies of the turns are not modelled. Any number of `begin_turn` calls may overlap.
- TurnProtocol.ParkFindsThePlaceEmpty: assumes that each turn's task is started once, as `start_turn` does with the id it was given; `drive_turn` takes whatever turn is current, and two overlapping `submit_user` calls could start one turn twice.
- SessionRun.RunInvariant: the late reply's turn id is a constant there, since nothing stated depends on it; entry identity is an address; a fold that replans on the current entries is a plan and a commit with nothing in between.
- Compaction: token estimates, thresholds, the wording of summaries and the clipping of the handover request.
- Images: files do not change during one call; inspecting a file and building its data URL are parameters, and so is the serialized size of a request.
- SectionText.ReturnedSectionReads: asks that no line of the section ends in a return once its line end is gone, because reading the returned text as a file would strip that return as well.
- Shell: the parser that makes the steps, job records, output buffers and process groups; what a command does is a function of everything before it.
- Message: JSON text itself. Objects are lists of fields, so repeated fields are part of the model.
- Signing: the message authentication code, key storage and the full record tag.
- Everything else in the repository (git worktrees, launch and configuration, pricing, prompts, the terminal interface): assembly, tables and text that would only add easy members.
