# TinyCTX in Dafny

A model of the parts of TinyCTX that are state machines, with proofs of what they promise. TinyCTX is
an agent framework: conversations are a tree of nodes, several runs of the agent can work on one
session at the same time, and a handful of loops around them assemble prompts, admit requests, cache
embeddings, stream replies, keep users, store uploads and fire scheduled jobs.

| files | what they model |
|---|---|
| `Forks`, `ForkInvariant`, `ForkGuarantees`, `Runtime` | the concurrent-forks protocol: its steps, the invariant every step keeps, what follows for whole runs of the program, and the runtime's classes, each method proved to take exactly one step |
| `ConversationTree`, `SessionState`, `CheckpointHistory`, `BranchFlags`, `ConversationDb` | the conversation tree, the session state read from it, histories with and without checkpoints, branch flags, and the database class |
| `History`, `TurnMerge`, `TokenTrim`, `TrimLeftovers`, `ContextAssembly` | prompt assembly: filter, transform, merge, trim and what it leaves behind, and the account of lost tags |
| `Admission`, `AdmissionProofs`, `RequestQueue` | the priority queue with its workers, wake-ups and streams |
| `Recency`, `EmbedCache` | the shared embedding cache with batching, retries and eviction |
| `MarkdownStream`, `MarkdownBlocks` | the append-only Markdown renderer, and where it cuts |
| `UserDirectory`, `UserStore` | users, platform identities, their index and two caches |
| `Suppression` | greedy non-maximum suppression |
| `Uploads` | the content-addressed upload directory |
| `TurnProtocol`, `TurnCounts`, `TurnGuarantees`, `TurnRecord`, `GenerationLoop` | the bounded generation loop of one turn: which step is due when, what that adds up to over every whole turn, what the turn writes into the conversation, and the class that takes exactly the due steps |
| `Cron`, `CronWakeups` | the scheduler's store and loop, and its wake-up protocol |
| `Outcomes`, `Sequences`, `Arithmetic`, `PythonText` | stock results, lists, products and Python strings |

Code that changes state step by step is a class or a loop here too, tied by its postcondition to a
function or to a step of a state machine; what the program promises is proved about those. Concurrency
is a state machine over atomic steps. That is faithful because no session lock is held across an
await, and the queue's condition is released while it is waited on, so asyncio never switches tasks
inside a step. The forks protocol also has steps for what happens to the tree outside runs: nodes
stored by commands, cursors and the gateway (TinyCTX/utils/commands.py:282,
TinyCTX/bridges/discord/cursors.py:151, TinyCTX/gateway/__main__.py:158) and rewritten state deltas.

Assumptions, each on something outside the modelled code:

- Node ids, run ids and job ids are new every time; they are numbers in creation order, so a parent's
  id is smaller than its child's. SQLite refuses a node whose parent is missing.
- State deltas are JSON objects. Malformed delta text counts as an empty one.
- The token count is any function of the entry list. Hooks are pure functions that return copies.
- The embedding of a text is a function of (model, kind, text): clients that share a model also share
  its templates. An item of an API answer that names a place of its batch has the vector of the text there.
- The content hash is injective. `croniter` returns a time strictly after its base, the clock never
  runs backwards, and writes to the cron store succeed.
- Scores and box geometry are real numbers and overlap ratios exact rationals, rounded only where the
  code calls `round`. The comparison with 0.45 is meant exactly.
- A user name drawn at random is eventually one that is free. `str.lower` is any function that leaves
  the letters of a slug as they are.

Where the code does less than its documentation or its evident intent, the model follows the code, and
the exact condition is proved:

- `push` records the attach point of a new session before it knows that the node exists. A first
  message with a missing tail makes the session reject all later ones (`PushKeepsSettledNodesIff`,
  `BadlySeededSessionIsDead`).
- The environment delta of a message is computed at the message's own tail but stored under the
  session's attach point (`EnvironmentIsReadBack`).
- `set_state` on a node above a checkpoint can go unseen below it (`WriteAboveCheckpointIsLost`). Over a
  whole history checkpoints go unnoticed exactly when every write reaches all it would reach without
  them (`CheckpointsAreErasableIff`); for new keys, exactly when no checkpoint stands below the written
  node, which can be looked up before the call (`NewKeysAreErasableIff`).
- The trim keeps the text of an assistant turn that also has tool calls, and then leaves the results of
  those calls behind: over all its rounds it comes to a list that begins with a given result exactly when
  the turn that made the call has text (`ResultIsLeftBehindIff`, `ResultsFollowTheirCallIffItHasNoText`).
- `merge_users` with twice the same name deletes the user under its index entries
  (`MergeKeepsPartitionIff`, `MergeUsers`).
- `update_user` with a stale user object breaks the identity index (`UpdateKeepsPartitionIff`).
- After a stored upload was deleted and its name used again, uploading the deleted content again is
  answered with the other file (`RemovalCanMixUpUploads`). Over every history the sidecar stays truthful
  exactly when no write lands on a name that an entry of other content still leads to (`StaysTruthfulIff`).
- The embedding client sorts the items of an answer but does not check them. An answer that is short,
  repeats a place, or is too long gives later texts wrong vectors, in the result and in the cache
  (`ShortAnswersShift`, `RepeatedPlaceIsWrong`); `SourcesAreRightIff` is the exact condition.
- A turn that first answers with the token for silence, is then woken by a peer and answers with text,
  is still marked as suppressed (`AnswerAfterSilenceIsSuppressed`); the flag speaks for the last reply
  exactly when that is the token or the turn was never woken from silence (`SilenceIsOfTheLastReplyIff`).
- A cron job removed after the loop has loaded it and before its turn, by a thread or while an earlier job
  is running, still runs once (`RemovedDuringTheRound`): it fires after its removal exactly when it was
  due and its run got to the push (`Cron.Runner.Poll`). A job removed before the round never fires.

## Model

| member | source | states |
|---|---|---|
| ForkGuarantees.NeverNeither | TinyCTX/runtime.py:582-600 | the docstring's "never neither" over whole runs: once a run has finished, the root of every run of its session that was still going or starts later covers it for ever, by its head on the ancestor chain or by a digest given to a run on that chain |
| ForkGuarantees.SessionNeverMisses | TinyCTX/runtime.py:469-494 | once a run has finished, its session's attach point covers it at every later moment |
| ForkInvariant.NextKeepsInv | TinyCTX/runtime.py:469-699 | every step of the protocol keeps the whole invariant: well-formed runs, disjoint paths, honest inboxes, slot count, nobody misses a finished run; so do nodes inserted and deltas rewritten outside any run |
| ForkGuarantees.InvHolds | TinyCTX/runtime.py:469-699 | the invariant holds in every state of every behaviour, from a fresh process over any database |
| ForkInvariant.FinishMissesNobody | TinyCTX/runtime.py:582-600 | the fan-out step alone: a peer either sees the advanced tail or is handed the digest |
| ForkInvariant.ReleaseMissesNobody | TinyCTX/runtime.py:602-613 | releasing a dead run without a digest loses no finished run |
| ForkInvariant.SpawnMissesNobody | TinyCTX/modules/concurrency/__main__.py:117-124 | a fork spawned off a live cycle's own head inherits everything the parent covers |
| ForkInvariant.PushMissesNobody | TinyCTX/runtime.py:469-494 | neither a passive nor a triggering message loses a finished run |
| ForkInvariant.CoversCarries | TinyCTX/runtime.py:582-600 | covering is inherited by descendants and never lost as the tree, the runs and the inboxes grow |
| ForkGuarantees.StartRunCoversIff | TinyCTX/runtime.py:541-580 | started from an arbitrary branch point, a run covers a finished run exactly when the branch point did |
| ForkGuarantees.GrowsOver | TinyCTX/runtime.py:469-699 | no node, no run, no inbox entry and no final status is ever taken back |
| ForkGuarantees.LiveRunsAreTheUnended | TinyCTX/runtime.py:652-699 | `_runs` is exactly the accepted runs that have not ended; `_active` is the number of executing runs and never exceeds the semaphore |
| ForkGuarantees.NobodyIsStuck | TinyCTX/runtime.py:652-699 | in every state a waiting run can be admitted or some run that holds a slot can give it back |
| ForkGuarantees.SlotsAreGivenBack | TinyCTX/runtime.py:652-699 | every run that holds a slot can end by a reply, a failure or an abort, or, once it has replied, by returning |
| ForkGuarantees.EndingIsFinal | TinyCTX/runtime.py:652-699 | an ended run stays out of `_runs` under the one status it ended with |
| ForkGuarantees.EndingAdvancesSession | TinyCTX/runtime.py:582-613 | each run that ends leaves its session at a node at or below the run's own root, one that dies at the last node it wrote |
| ForkGuarantees.DigestsReachPeersOnce | TinyCTX/runtime.py:591-599 | over a whole history a finished run's digest reaches each run once if it was a running peer at that moment, and no other run |
| ForkGuarantees.LettersStayInSession | TinyCTX/runtime.py:591-632 | no digest or nudge in any inbox crosses sessions, and no digest reaches its own sender |
| ForkGuarantees.ConcurrentMessagesAreSiblings | TinyCTX/runtime.py:470-494 | triggering messages with no settled move between them are siblings under one parent |
| ForkGuarantees.MessagesContinueTheSession | TinyCTX/runtime.py:469-486 | with no settled move between, the next message of a session hangs off the last passive message, the head the last run finished with, or the last node of the run that died |
| ForkGuarantees.RunsWriteDisjointChains | TinyCTX/context.py:406-416 | a run's nodes form one path below its root, and no two runs share a node |
| ForkGuarantees.WrittenNodesAreOnThePath | TinyCTX/context.py:406-416 | every node a cycle writes stays on that path |
| ForkGuarantees.PushKeepsSettledNodesIff | TinyCTX/runtime.py:469-480 | settled nodes stay in the tree exactly when the attach point of the message is a node |
| ForkGuarantees.OthersKeepSettledNodes | TinyCTX/runtime.py:541-613 | no other step points a session at a missing node |
| ForkGuarantees.RunsHaveAttachPointsAlways | TinyCTX/runtime.py:469-494 | the session of every registered run has an attach point in the tree, in every state |
| ForkGuarantees.BadlySeededSessionIsDead | TinyCTX/runtime.py:469-480 | the attach point is recorded before the insert is known to succeed: a session whose first message names a missing node rejects every later message while no node takes that id |
| Runtime.Runtime.Push | TinyCTX/runtime.py:378-497 | the method takes exactly the protocol's push step; it fails exactly when the attach point is missing and then only records it; otherwise a passive message moves the session to its node, a triggering one leaves it at the attach point, and the new node reads each entry of the message's environment back exactly when the attach point and the message's tail agree on it |
| ForkGuarantees.MessageReadsItsEnvironmentIff | TinyCTX/runtime.py:469-494 | the same of the push step itself |
| ForkGuarantees.ReadsStay | TinyCTX/context.py:406-416 | no step but a rewritten delta changes what an old node reads, and a node a run starts on or writes reads what its parent reads |
| ForkGuarantees.OutsideWritesAreSteps | TinyCTX/utils/commands.py:282 | the behaviours include every insertion of a row and every rewritten delta outside runs, at any moment, and these touch only the tree |
| ForkGuarantees.NudgeStep | TinyCTX/runtime.py:615-632 | a run is given a nudge exactly when a run of its session nudges it while it is running, and then has it in its inbox |
| Runtime.Runtime.StartRun | TinyCTX/runtime.py:541-580 | exactly the start step; fails exactly when the branch point is missing and then changes nothing |
| Runtime.Runtime.FinishRun | TinyCTX/runtime.py:582-600 | the loop over the live runs takes exactly the finish step: status, settled node, one digest per running peer of the session, removal |
| Runtime.Runtime.FanOut | TinyCTX/runtime.py:593-599 | after the loop each running peer has the digest appended once and every other inbox is untouched |
| Runtime.Runtime.EndProcess | TinyCTX/runtime.py:672-699 | after a finished, a crashed and an aborted run: the slot is free, the run is out of `_runs`, and the session of a run that did not finish is at the run's own tail |
| Runtime.Runtime.Nudge | TinyCTX/runtime.py:615-632 | accepted exactly for a running target of the same session; then the nudge is the last entry of its inbox and every other inbox is as before |
| Runtime.Runtime.Admit | TinyCTX/runtime.py:655-660 | a waiting run takes a free slot |
| Runtime.Runtime.CycleAdd | TinyCTX/context.py:390-420 | the new node hangs off the cycle's tail and becomes the tail |
| Runtime.Runtime.DrainInbox | TinyCTX/agent.py:443-456 | the loop writes every entry as a node under the previous one, oldest first, empties the inbox, and says whether it wrote anything |
| Runtime.Runtime.ComputeStateDelta | TinyCTX/runtime.py:705-724 | the entries of the environment that the state at the message's tail lacks |
| SessionState.EnvironmentIsReadBack | TinyCTX/runtime.py:470-478 | the delta is taken at the message's tail but stored at the attach point: the new node reads an entry of its environment exactly when the attach point agrees with the tail on it |
| SessionState.CheckpointIsInvisible | TinyCTX/db.py:490-508 | a checkpoint holding the loaded state changes no key at no node |
| SessionState.CheckpointShortensWalks | TinyCTX/db.py:490-508 | it cuts every walk through its node there, to depth 1 from the node itself, and leaves all other walks as long as they were |
| ConversationTree.FalsyIff | TinyCTX/db.py:480-481 | a `_checkpoint` entry ends the walk unless it is one of the six JSON values that Python takes for false |
| SessionState.WalkDepthCountsNodes | TinyCTX/db.py:459-488 | the depth that decides on a checkpoint is the number of nodes the walk visits |
| SessionState.CheckpointStateIsForced | TinyCTX/db.py:490-508 | a checkpoint is invisible exactly if it holds the loaded state |
| CheckpointHistory.SetIsUnnoticedIff | TinyCTX/db.py:332-362 | one `set_state` leaves all reads as they would be without the checkpoints exactly when it reaches every node it would reach without them, or tells that node what it reads already |
| CheckpointHistory.CheckpointsAreErasableIff | TinyCTX/db.py:452-508 | over every history of inserts, `set_state` calls and checkpoints: leaving all checkpoints out changes no read at any moment exactly when every `set_state` is of that kind |
| CheckpointHistory.NewKeysAreErasableIff | TinyCTX/db.py:332-508 | when the keys set are new and markers come from checkpoints only: exactly when no `set_state` lands on a node with a checkpoint below it, a condition to check before the call |
| CheckpointHistory.CheckpointsAreErasable | TinyCTX/db.py:452-508 | whatever the keys, a history whose `set_state` calls have no marker below them never notices its checkpoints |
| CheckpointHistory.WriteAboveCheckpointIsLost | TinyCTX/db.py:332-362 | a concrete history where `set_state` above a checkpoint is not seen below it, though it would be without the checkpoint |
| SessionState.SetKeyIsReadExactlyBelow | TinyCTX/db.py:332-362 | after `set_state` exactly the nodes whose walk reaches the node first read the value; every other read and every walk length is unchanged |
| ConversationDb.Database.AddNode | TinyCTX/db.py:215-257 | inserts one row under an existing parent, else raises and changes nothing |
| ConversationDb.Database.LoadSessionState | TinyCTX/db.py:452-488 | the loop returns exactly the tip-wins state cut off at the first checkpoint, and the number of nodes it visited |
| ConversationDb.Database.SetState | TinyCTX/db.py:332-362 | one key of one row's delta changes; false and no change for a missing row |
| ConversationDb.Database.WriteCheckpointIfNeeded | TinyCTX/db.py:490-508 | replaces the delta only past the threshold and only of an existing row |
| ConversationDb.Database.FlagBranch | TinyCTX/db.py:417-446 | the early-stopping loop flags and returns exactly the unflagged stretch of the chain |
| BranchFlags.EarlyStopIsSoundIffClosed | TinyCTX/db.py:417-446 | stopping at the first flagged node agrees with flagging the whole chain, from every node, exactly when the flagged set is closed under parents |
| BranchFlags.FlaggingKeepsClosed | TinyCTX/db.py:417-446 | `flag_branch` keeps the flagged set closed under parents |
| BranchFlags.FlaggingWorkIsBounded | TinyCTX/db.py:215-446 | over every history of inserts and calls the lengths of all returned lists add up to the number of flagged nodes |
| BranchFlags.ReturnedListsAreDisjoint | TinyCTX/db.py:417-446 | no node is returned by two calls of one history |
| ContextAssembly.Assemble | TinyCTX/context.py:707-880 | the whole pipeline: before cleaning and trimming the entries hold every letter, block, call and answer of the system prompt, of what the hooks kept, and of the deferred prompts in front of the trailing user turns, with no mergeable neighbours; the cleaned system prompt comes first in the result; system entries intact, a suffix of the rest, within budget or nothing but system entries; the tags seen are the disjoint union of surviving and invalidated tags |
| ContextAssembly.FilterAndTransform | TinyCTX/context.py:707-761 | the loop keeps what every filter passes, folds the transforms, and collects every tag of every intermediate version |
| ContextAssembly.AnyFilterDrops | TinyCTX/context.py:712-718 | dropped exactly when some filter says so |
| ContextAssembly.RunTransforms | TinyCTX/context.py:720-724 | each transform sees the result of the one before; no intermediate tag is missed |
| ContextAssembly.KeptAreThosePassing | TinyCTX/context.py:707-761 | kept are, in order, exactly the entries every filter passes at their age, each as the transforms left it and with the content its label gives it |
| ContextAssembly.VersionsAlong | TinyCTX/context.py:720-724 | each transform sees the version the one before left; one that returns nothing leaves it; the tags along the way are those of all versions |
| ContextAssembly.SeenTagsAreThoseCarried | TinyCTX/context.py:708-724 | a tag was seen exactly if an entry carried it, or a version of an entry that every filter passed |
| ContextAssembly.InsertDeferred | TinyCTX/context.py:773-779 | deferred prompts go in front of the whole trailing run of user turns |
| ContextAssembly.Sanitize | TinyCTX/context.py:819-833 | every entry is cleaned once, in place and in order |
| ContextAssembly.KeptTagsWereSeen | TinyCTX/context.py:708-761 | no surviving entry carries a tag that was not seen |
| TurnMerge.MergeAdjacent | TinyCTX/context.py:781-798 | the in-place loop computes the fold that the lemmas below are about |
| TurnMerge.MergeLeavesNoPair | TinyCTX/context.py:781-798 | after the merge no adjacent pair could still be merged |
| TurnMerge.NoTextsLeftToJoin | TinyCTX/context.py:785-793 | two neighbours of the user or of the assistant are left apart only where one of them has tool calls or content blocks |
| TurnMerge.MergeIsIdempotent | TinyCTX/context.py:781-798 | merging again changes nothing |
| TurnMerge.MergeCanBeResumed | TinyCTX/context.py:781-798 | merge(merge(xs) + ys) = merge(xs + ys) |
| TurnMerge.MergeKeepsMarks | TinyCTX/context.py:793-796 | every letter, block and tool call stays, in order and under its role; only white space changes |
| TurnMerge.JoinLeavesBlankLine | TinyCTX/context.py:794-796 | two merged texts stand one after the other with a blank line between them |
| PythonText.StripLeavesTheMiddle | TinyCTX/context.py:795-795 | `strip` takes off all white space at both ends and nothing else |
| TurnMerge.MergeKeepsTags | TinyCTX/context.py:793-796 | the union of the tags is unchanged |
| TurnMerge.MergeCount | TinyCTX/context.py:781-798 | exactly the pairs that were adjacent and mergeable at the start are merged |
| TokenTrim.Trim | TinyCTX/context.py:835-865 | the loop ends; it stops within the limit or with system entries only, and every earlier list of its drop sequence was over the limit |
| TokenTrim.DropRound | TinyCTX/context.py:843-863 | one round, with its inner loop, removes exactly one head entry or its calls, and adjacent results |
| TokenTrim.DropShrinks | TinyCTX/context.py:843-863 | the termination measure: entries plus entries with tool calls |
| TokenTrim.TrimKeepsSystemAndSuffix | TinyCTX/context.py:835-865 | however many rounds run, all system entries stay in order, and of the others a suffix whose first entry may have lost its tool calls |
| TokenTrim.TrimKeepsSystemPrefix | TinyCTX/context.py:835-865 | system entries that come first stay first |
| TokenTrim.ResultsFollowTheirCallIffItHasNoText | TinyCTX/context.py:849-861 | a turn with text and calls loses only its calls and leaves their results behind; a turn without text takes adjacent results along |
| TokenTrim.HasTextIff | TinyCTX/context.py:849-849 | a turn has text exactly if its content is a text with anything but white space in it |
| TrimLeftovers.ResultIsLeftBehindIff | TinyCTX/context.py:835-865 | over all rounds, for a conversation whose results follow their calls: some round leaves a list that begins, after its system entries, with a given tool result, its call gone, exactly when the turn that made the call has text |
| TrimLeftovers.DroppedIsRemaining | TinyCTX/context.py:835-865 | after any number of rounds what is left is the system entries and everything from one place on, the entry there possibly without its calls |
| TrimLeftovers.StopsAtResultOfText | TinyCTX/context.py:848-861 | no round ever leaves a result first whose turn has no text |
| TrimLeftovers.StopsAt | TinyCTX/context.py:835-865 | every other entry that is no system entry is first after some number of rounds |
| TokenTrim.TrimLosesTagsOnly | TinyCTX/context.py:835-865 | trimming adds no tag |
| AdmissionProofs.OnlySmallerOvertake | TinyCTX/ai.py:92-96 | while a request waits in the heap only requests with a smaller (priority, seq) pair are admitted, between any two moments of any run |
| AdmissionProofs.EqualPriorityIsFifo | TinyCTX/ai.py:55-64 | requests of equal priority are admitted in the order they were made |
| AdmissionProofs.AdmittedExactlyOnce | TinyCTX/ai.py:78-107 | a request is in the heap or was admitted once, never both, never twice |
| AdmissionProofs.OneRequestPerWorker | TinyCTX/ai.py:78-107 | the number of workers never changes, and no two of them run the same request |
| AdmissionProofs.NoLostWakeup | TinyCTX/ai.py:92-119 | no request waits while a worker sleeps and none is on its way to the heap |
| AdmissionProofs.SleepsUntilWoken | TinyCTX/ai.py:88-91 | in every run a worker that waits on the condition sleeps until a submission notifies it |
| AdmissionProofs.WorkersMoveOn | TinyCTX/ai.py:88-108 | in every state a worker that does not sleep can park, admit a request, forward an event or finish; it parks exactly on an empty heap |
| AdmissionProofs.RequestsAreAlwaysTaken | TinyCTX/ai.py:110-119 | a request can be made in any state |
| AdmissionProofs.NextKeepsAwake | TinyCTX/ai.py:92-119 | with a sleeping worker, the woken ones are at least as many as the waiting requests |
| AdmissionProofs.ConsumerSeesTheGenerator | TinyCTX/ai.py:98-143 | a consumer sees its generator's events in order, none skipped or repeated, and is served exactly when it saw all of them and the generator's own end |
| AdmissionProofs.CallerGetsItsOutcome | TinyCTX/ai.py:101-119 | a future gets the outcome of its own coroutine once that has run, unless it is no longer awaited |
| AdmissionProofs.AbandonedIsNeverServed | TinyCTX/ai.py:100-108 | a requester that gave up stays so: its future gets neither a result nor an exception later |
| AdmissionProofs.AdmissionIsFinal | TinyCTX/ai.py:78-107 | a request that left the heap never returns to it; priorities and work never change |
| AdmissionProofs.NextKeepsInv | TinyCTX/ai.py:55-143 | every step of requesters, workers and consumers keeps the whole invariant |
| AdmissionProofs.InvHolds | TinyCTX/ai.py:55-143 | the invariant holds in every state of every interleaving |
| RequestQueue.Queue.constructor | TinyCTX/ai.py:45-75 | at least one worker, all about to look at an empty heap |
| RequestQueue.Queue.Enqueue | TinyCTX/ai.py:110-135 | pushes the item and wakes a sleeping worker: exactly the submission step |
| RequestQueue.Queue.Top | TinyCTX/ai.py:96-96 | the item on top of the heap is the least by (priority, seq) |
| RequestQueue.Queue.LookAtHeap | TinyCTX/ai.py:92-96 | a woken worker sleeps again on an empty heap, else takes the least item |
| RequestQueue.Queue.RunItem | TinyCTX/ai.py:97-107 | the worker loop forwards every event and then the end, touches no other request, and frees the worker |
| RequestQueue.Queue.Get | TinyCTX/ai.py:137-143 | the consumer takes the oldest signal |
| EmbedCache.Cache.Embed | TinyCTX/ai.py:516-602 | a hit gets its stored vector; the misses share out what was fetched, in order, whatever other callers did meanwhile; what the cache holds afterwards and in which order. Hits are those of the key (model, kind, text). With a right cache and all answers in place, result i is the model's vector of text i, nothing exactly when it missed, its batch failed and its own retry failed, and the cache stays right |
| EmbedCache.SourcesAreRightIff | TinyCTX/ai.py:576-625 | over any API behaviour: each missing text is given its own vector, or nothing where its batch and retry failed, exactly when every successful answer, sorted, begins with each place of its batch once and none but the last has items to spare |
| EmbedCache.FetchedIsRight | TinyCTX/ai.py:594-602 | then the vector of each missing text is the model's for that text |
| EmbedCache.FullAnswerIsInPlaceIff | TinyCTX/ai.py:623-625 | an answer as long as its batch is in place after sorting exactly when it names every place once, whatever the order it came in |
| EmbedCache.SortedAscends | TinyCTX/ai.py:623-625 | the answer is sorted by place before it is used |
| EmbedCache.ShortAnswersShift | TinyCTX/ai.py:594-602 | a concrete call with short answers: the second text gets the third text's vector, the cache keeps it under the second text, and the third gets none |
| EmbedCache.RepeatedPlaceIsWrong | TinyCTX/ai.py:623-625 | an answer of full length that names one place twice gives the second text the first one's vector |
| EmbedCache.Cache.Run | TinyCTX/ai.py:576-592 | the batching loop: one call per batch, answers one after the other as they are, short or long |
| EmbedCache.Cache.CallBatch | TinyCTX/ai.py:569-591 | one call with its sorted answer, or one retry per text when it fails |
| EmbedCache.Cache.Record | TinyCTX/ai.py:595-601 | computed vectors go to the missed positions in order, as far as both reach, and the cache holds for each key the last one given to it; hits stay |
| EmbedCache.ComputedAreTouched | TinyCTX/ai.py:595-599 | and so is every miss that was given a vector |
| EmbedCache.Cache.LookUp | TinyCTX/ai.py:553-562 | hits come from the cache and are marked as used; nothing is added or evicted |
| EmbedCache.HitsAreTouched | TinyCTX/ai.py:558-562 | every hit is marked as used once, in the order of the texts, and nothing else |
| EmbedCache.Cache.Find | TinyCTX/ai.py:556-560 | a hit is marked as recently used, a miss changes nothing |
| EmbedCache.Cache.Store | TinyCTX/ai.py:598-601 | afterwards exactly the most recently touched keys up to the capacity are held, the new one with its vector and the others with theirs |
| EmbedCache.Cache.Evict | TinyCTX/ai.py:600-601 | the eviction loop leaves the newest keys up to the capacity, each with its vector |
| EmbedCache.HoldsTheMostRecent | TinyCTX/ai.py:446-464 | the cache holds a key exactly when it was touched and fewer distinct keys than fit were touched since |
| Recency.TouchNewest | TinyCTX/ai.py:598-602 | evicting loses nothing a later touch could bring back: a bounded cache agrees with an unbounded recency list cut to size |
| Recency.HeldIffRecentlyTouched | TinyCTX/ai.py:446-464 | membership of the bounded recency list, independent of how it is computed |
| EmbedCache.MissAtRank | TinyCTX/ai.py:561-562 | the n-th missing position is where the n-th computed vector belongs |
| MarkdownStream.ChunkingDoesNotShow | TinyCTX/bridges/cli/__main__.py:361-373 | however a text is cut into chunks, the blocks printed and the text held back are those of the whole text |
| MarkdownStream.SplitCanBeResumed | TinyCTX/bridges/cli/__main__.py:307-338 | splitting a, then what a left over followed by b, gives the blocks and the rest of a + b |
| MarkdownStream.SplitLosesOnlyBlankLines | TinyCTX/bridges/cli/__main__.py:307-338 | blocks and rest together hold every line in order except blank lines outside fences, and every block is whole |
| MarkdownStream.SplitBlocks | TinyCTX/bridges/cli/__main__.py:307-338 | the loop computes the function that the lemmas here are about |
| MarkdownBlocks.SplitCutsAtBoundaries | TinyCTX/bridges/cli/__main__.py:307-338 | of every text: the blocks are exactly the stretches of lines from one boundary to the next, a boundary being a blank line outside fences or a closing fence, with none inside; no line is left out but those blank ones; what comes after the last boundary is held back, a suffix of the text |
| MarkdownBlocks.ParagraphIsPrinted | TinyCTX/bridges/cli/__main__.py:330-335 | a paragraph is a block as soon as the blank line after it is there |
| MarkdownBlocks.FenceIsPrinted | TinyCTX/bridges/cli/__main__.py:322-329 | a fenced block, blank lines and all, as soon as the line that closes it is complete |
| MarkdownBlocks.FenceIff | TinyCTX/bridges/cli/__main__.py:322-322 | a fence line begins with three backticks, possibly after white space |
| MarkdownBlocks.BlankIffAllSpace | TinyCTX/bridges/cli/__main__.py:330-330 | a blank line has nothing but white space: blanks, tabs and returns count, no printable ASCII character does |
| MarkdownStream.Printer.EmitText | TinyCTX/bridges/cli/__main__.py:361-366 | prints the complete blocks and keeps the rest |
| MarkdownStream.Printer.FlushStream | TinyCTX/bridges/cli/__main__.py:368-373 | prints what is left unless it is blank, and empties the buffer |
| MarkdownStream.Printer.Reply | TinyCTX/bridges/cli/__main__.py:361-373 | a whole reply prints the blocks of its concatenated text, whatever its chunks |
| MarkdownStream.UnfinishedLinesCanBeReread | TinyCTX/bridges/cli/__main__.py:307-338 | reading the unfinished lines again leads back to the same scanner state |
| UserDirectory.MergeKeepsPartitionIff | TinyCTX/users/store.py:496-527 | merging keeps "index[(platform, id)] = u exactly when u lists that identity" exactly when the two names differ or the user has no identity |
| UserDirectory.MergeChangesOnlyIdentities | TinyCTX/users/store.py:496-519 | name, metadata and overrides of the merged user are the primary's, its identities those of both, each unchanged; other rows stay; the index changes only for the other user's identities |
| UserDirectory.UpdateKeepsPartitionIff | TinyCTX/users/store.py:483-494 | writing a user back keeps the partition exactly when its identities have the keys of its row, each once |
| UserDirectory.UpdateWritesOneRow | TinyCTX/users/store.py:483-493 | only the user's own row changes, if there is one |
| UserDirectory.RenameKeepsPartition | TinyCTX/users/store.py:529-547 | renaming to a free name keeps it, also when no such user exists |
| UserDirectory.RenameMovesOneRow | TinyCTX/users/store.py:529-542 | the row moves under its new name, and what the index says of it; nothing else changes |
| UserDirectory.InsertKeepsPartition | TinyCTX/users/store.py:586-601 | a new user with an unknown identity keeps it |
| UserDirectory.JoinedKeys | TinyCTX/users/store.py:505-509 | the merged identity list has exactly the keys of both users, each once |
| UserDirectory.RefreshKeepsKeys | TinyCTX/users/store.py:618-630 | updating an identity's names changes no key and no other identity |
| UserStore.Store.ResolveUser | TinyCTX/users/store.py:369-408 | returns the stored owner of the identity with its names as seen, or creates one under an untaken picked name; never reaches the deleted-user branch; both caches keep agreeing with the rows |
| UserStore.Store.MaybeUpdateIdentity | TinyCTX/users/store.py:605-631 | the loop updates the one matching identity and writes only when a name changed |
| UserStore.Store.PickUsername | TinyCTX/users/store.py:633-640 | the first usable slug, else the first random name that is free |
| UserStore.SlugIsStable | TinyCTX/users/store.py:60-64 | a slug has at most 32 allowed characters and is its own slug |
| UserStore.SlugLettersOneByOne | TinyCTX/users/store.py:62-63 | of the lower-cased text the letters a-z, digits, hyphens and underscores are kept, one by one and in order, and nothing else |
| UserStore.SlugIsTheStart | TinyCTX/users/store.py:64-64 | and of those the first 32 |
| UserStore.Store.InsertUser | TinyCTX/users/store.py:586-601 | both inserts or neither: an identity already indexed rolls back |
| UserStore.Store.CreateUser | TinyCTX/users/store.py:410-463 | exact name or a conflict; an identity already indexed fails without a trace |
| UserStore.Store.GetUser | TinyCTX/users/store.py:465-468 | the row, from cache or table |
| UserStore.Store.GetByPlatform | TinyCTX/users/store.py:470-481 | the owner's row exactly when the identity is indexed |
| UserStore.Store.UpdateUser | TinyCTX/users/store.py:483-494 | the store stays valid, tables and caches, exactly when the written identities have the keys of the row |
| UserStore.Store.MergeUsers | TinyCTX/users/store.py:496-527 | errors for missing users; otherwise the three statements, with both caches clean again; merging a user with itself deletes it and fails |
| UserStore.Store.RenameUser | TinyCTX/users/store.py:529-547 | conflict on a taken name; assertion failure on a missing user; otherwise the row moves and both caches follow |
| UserStore.Store.Invalidate | TinyCTX/users/store.py:648-651 | afterwards the user is in neither cache, provided it names all identities of its row |
| UserStore.Store.InvalidateByUsername | TinyCTX/users/store.py:653-657 | dropping a user by name drops all its platform entries |
| UserStore.Store.PopulateCache | TinyCTX/users/store.py:659-662 | afterwards both caches hold the user's row under every identity, whether or not it was cached by name before |
| UserStore.Store.CachedIsOwner | TinyCTX/users/store.py:384-389 | a platform-cache hit is the current row of the user the index names |
| Suppression.Postprocess | TinyCTX/modules/comfyui/filter.py:152-193 | from the detector's rows to the reports: scores fall, reported boxes pairwise overlap below 0.45, every report comes from a row whose best class scores enough, and every such row is reported or overlaps a reported box of at least its score at 0.45 or more |
| Suppression.Best | TinyCTX/modules/comfyui/filter.py:166-169 | the first class with the highest score |
| Suppression.Round | TinyCTX/modules/comfyui/filter.py:171-174 | the nearest integer, halves to the even one |
| Suppression.ReportsCover | TinyCTX/modules/comfyui/filter.py:190-193 | rounding the scores uncovers no candidate |
| Suppression.ScoresAreHundredths | TinyCTX/modules/comfyui/filter.py:191-191 | a reported score is a whole number of hundredths |
| Suppression.Suppress | TinyCTX/modules/comfyui/filter.py:182-188 | the shrinking-list loop keeps what a single pass against all earlier-kept boxes keeps |
| Suppression.KeptBoxes | TinyCTX/modules/comfyui/filter.py:182-193 | a box is kept exactly when nothing kept that ranks before it overlaps it too much |
| Suppression.GreedyDecides | TinyCTX/modules/comfyui/filter.py:182-188 | position by position: in the result exactly when no earlier kept element clashes |
| Suppression.StrikingOutIsSafe | TinyCTX/modules/comfyui/filter.py:185-188 | striking out what clashes with a kept box does not change what is kept later |
| Suppression.ByScoreRanks | TinyCTX/modules/comfyui/filter.py:183-183 | the order is by falling score, ties in detection order |
| Suppression.OverlapIsARatio | TinyCTX/modules/comfyui/filter.py:196-203 | the overlap ratio is symmetric and lies in [0, 1] for any two boxes, negative sizes included |
| Suppression.OverlapIsShareOfPixels | TinyCTX/modules/comfyui/filter.py:196-203 | for boxes without negative sizes the overlap is the share of the pixels of either box that lie in both |
| Suppression.IntersectionCountsPixels | TinyCTX/modules/comfyui/filter.py:196-201 | the shared area counts the pixels that lie in both boxes |
| Suppression.DetectUndoesFit | TinyCTX/modules/comfyui/filter.py:170-174 | a detection's box has the row's size and centre in pixels of the image, up to rounding |
| Suppression.DetectTakesBestClass | TinyCTX/modules/comfyui/filter.py:165-169 | and the first class with the highest score |
| Suppression.IntersectionIsPart | TinyCTX/modules/comfyui/filter.py:196-202 | no more is shared than either box has; boxes of negative size share nothing |
| Uploads.Uploads.SaveUpload | TinyCTX/utils/attachments.py:157-214 | a hit returns the recorded file and writes nothing; otherwise the first free name, and the directory after a write that is not begun, breaks off, or succeeds with or without the sidecar; no file is overwritten and the sidecar is never the destination |
| Uploads.Uploads.FirstFree | TinyCTX/utils/attachments.py:196-202 | the counter loop ends, at the first candidate that is free |
| Uploads.CandidatesDiffer | TinyCTX/utils/attachments.py:198-202 | different counters give different names |
| Uploads.CandidatesStayInside | TinyCTX/utils/attachments.py:171-183 | no upload name leads out of the directory, to the sidecar or to its temporary file |
| Uploads.DirectoriesAreStripped | TinyCTX/utils/attachments.py:171-173 | directories in front of a file name make no difference to the name stored |
| Uploads.UnusableNames | TinyCTX/utils/attachments.py:172-176 | a path without a name is stored as "unnamed", and the sidecar's names get an extension |
| Uploads.UsableNameIsKept | TinyCTX/utils/attachments.py:172-176 | every other name is kept |
| Uploads.CounterKeepsExtension | TinyCTX/utils/attachments.py:196-202 | a counter goes in front of the extension |
| Uploads.CounterWithoutExtension | TinyCTX/utils/attachments.py:196-202 | at the end where there is none, or where the only dot is the first or the last character |
| Uploads.StoringIsTruthfulIff | TinyCTX/utils/attachments.py:204-214 | recording an upload keeps the sidecar truthful exactly when no entry of other content is left on the name |
| Uploads.WritingIsTruthfulIff | TinyCTX/utils/attachments.py:204-209 | the same for bytes that are written, wholly or in part, and not recorded |
| Uploads.NothingIsOverwritten | TinyCTX/utils/attachments.py:157-214 | over every history a file keeps its bytes until it is removed |
| Uploads.UploadsStayTruthful | TinyCTX/utils/attachments.py:157-214 | as long as nothing is removed every entry leads to a file with its content |
| Uploads.StaysTruthfulIff | TinyCTX/utils/attachments.py:157-214 | over every history with removals and failed writes: the sidecar is truthful throughout exactly when no write lands on a name that an entry of other content still leads to |
| Uploads.WithoutRemovalsWritesAreClean | TinyCTX/utils/attachments.py:157-214 | which is so as long as nothing is removed |
| Uploads.AnswerHasTheBytes | TinyCTX/utils/attachments.py:157-214 | after clean writes only, removals or not, the returned file, if it exists, holds the uploaded bytes, or what could be written of them |
| Uploads.SameFileIffSameBytes | TinyCTX/utils/attachments.py:160-164 | and, until its file is removed, a recorded upload shares it with a later upload exactly when their bytes are equal |
| Uploads.RemovalCanMixUpUploads | TinyCTX/utils/attachments.py:186-194 | concrete history: remove a file, reuse its name, upload the first content again: the answer is the second content |
| GenerationLoop.Turn.Run | TinyCTX/agent.py:227-437 | the loop takes exactly the turn that the protocol determines for its configuration and world: each step is the one due, and the last is a terminal event |
| GenerationLoop.Turn.Ask | TinyCTX/agent.py:234-266 | the inbox is read, then the model is asked, and nothing else is done in between |
| GenerationLoop.Turn.Complete | TinyCTX/agent.py:329-421 | what a usable completion leads to: tools answered, or the reply kept and the inbox read |
| GenerationLoop.Turn.RunTools | TinyCTX/agent.py:381-419 | one result per call, in order, with its id and its tool's output, or with the reminder on the last cycle |
| GenerationLoop.Turn.Record | TinyCTX/agent.py:329-362 | the assistant node is written before any follow-up |
| GenerationLoop.Turn.GiveUp | TinyCTX/agent.py:458-476 | the error is noted if configured, then reported; nothing follows |
| TurnGuarantees.InferencesAreBounded | TinyCTX/agent.py:227-302 | a turn makes at most max_cycles x (1 + max_empty_retries) inferences |
| TurnGuarantees.InferencesAreTheModels | TinyCTX/agent.py:228-239 | each inference is the model's next answer, made while the abort flag was down, right after the inbox was read |
| TurnGuarantees.HowATurnEnds | TinyCTX/agent.py:227-476 | an error is the abort, the error of the last inference, or 1 + max_empty_retries blank completions in a row, and says which; a reply carries the last reply's text unless it was streamed or is the token, and the flag if any reply was the token, with the cycles used up or an empty last look into the inbox |
| TurnGuarantees.UndisturbedTurnReplies | TinyCTX/agent.py:227-437 | without an abort, a model error or a run of blank completions the turn ends in a reply |
| TurnGuarantees.TurnIsDetermined | TinyCTX/agent.py:227-437 | there is only one turn for a configuration and a world |
| TurnGuarantees.EveryCallIsAnswered | TinyCTX/agent.py:381-419 | before every inference and at the end, the ids of all results are the ids of all calls, in order |
| TurnRecord.ResultsHoldTheOutputs | TinyCTX/agent.py:381-395 | each result node holds the output of its own tool run, in the last cycle the reminder to summarize |
| TurnRecord.AssistantNodeIsAnswered | TinyCTX/agent.py:329-419 | an assistant node holds the completion's text with its reasoning in front; then come its follow-ups as user turns and a result for each of its calls, in order and with nothing in between |
| TurnRecord.DrainsAreTheInbox | TinyCTX/agent.py:443-456 | each look into the inbox finds what is in it then |
| TurnRecord.ErrorIsNotedIff | TinyCTX/agent.py:458-476 | an error is written into the conversation right before it is reported if that is switched on, and nowhere else |
| TurnCounts.LedgerIsCounted | TinyCTX/agent.py:225-421 | the counters of the loop count its steps, and the replies are the texts of the completions without calls |
| TurnGuarantees.OneTerminalEvent | TinyCTX/agent.py:227-437 | a finished turn has exactly one error or final event, its last step |
| TurnGuarantees.TurnNeverStalls | TinyCTX/agent.py:227-437 | after any steps of a turn another one is due exactly until the terminal event |
| TurnGuarantees.UsableCompletionsAreRecorded | TinyCTX/agent.py:304-349 | an assistant node follows an inference exactly when that returned text or calls and no error, and holds just those; none is written for a blank completion |
| TurnGuarantees.SilenceIsOfTheLastReplyIff | TinyCTX/agent.py:364-379 | over every turn that ends in a final event: it is marked silent exactly when the last reply is the token or the turn was woken after offering it, so the mark speaks for the last reply exactly when that is the token or the turn was never woken so |
| TurnGuarantees.AnswerAfterSilenceIsSuppressed | TinyCTX/agent.py:364-379 | a concrete turn of nine steps: the token, a peer's message, an answer, and a final event that suppresses the answer |
| Cron.Runner.Poll | TinyCTX/modules/cron/__main__.py:466-502 | one round fires exactly the loaded jobs that were due and got to the push, in order; nothing fires that was removed before the round; a job removed after the reload and before its turn, by a thread or while an earlier one runs, fires since its removal exactly when it was due and gets to the push; every row of a job that was due has its next due time, or is a one-shot switched off, and the other rows are as they were; over the runner's whole life one-shots fire at most once, recurring jobs at strictly increasing due times |
| Cron.RemovedOneFires | TinyCTX/modules/cron/__main__.py:466-502 | a job removed in mid-round fires afterwards exactly when it was loaded, due, and its run gets to the push |
| Cron.RemovedDuringTheRound | TinyCTX/modules/cron/__main__.py:466-502 | a concrete round in which the first job removes the second, which then fires all the same |
| Cron.Runner.TakeTurn | TinyCTX/modules/cron/__main__.py:474-493 | the turn of one loaded job: what threads did before it, its run if it is due, and every job that was removed by then |
| Cron.Runner.Others | TinyCTX/modules/cron/__main__.py:257-294 | what others add and remove before a job's turn or while a run is awaited, one change after the other, and when each removal took place |
| Cron.Runner.RunJob | TinyCTX/modules/cron/__main__.py:523-696 | skipped, pushed and broken-off runs: what is fired, the status and times the job gets; a one-shot that took place is switched off, and any other job stays on and gets its schedule's next time after a moment of the run, strictly after the one that was due; and that its row is updated only if it is still there |
| Cron.Runner.Save | TinyCTX/modules/cron/__main__.py:296-311 | the last write of a run deletes or updates the job's own row and no other, and never brings a deleted row back |
| Cron.FiringKeepsOrder | TinyCTX/modules/cron/__main__.py:523-696 | the firing of a job that is ahead of all earlier firings keeps them in order and leaves every other job ahead |
| Cron.ResultIsAhead | TinyCTX/modules/cron/__main__.py:682-696 | the job that comes out of a run is ahead of the firing |
| Cron.DueFromThenOn | TinyCTX/modules/cron/__main__.py:472-475 | an enabled job is due from its next due time on |
| Cron.Runner.Reload | TinyCTX/modules/cron/__main__.py:424-425 | every row once, in creation order |
| Cron.Runner.NextWake | TinyCTX/modules/cron/__main__.py:434-440 | the least next run of an enabled job |
| Cron.Runner.Add | TinyCTX/modules/cron/__main__.py:257-275 | a new id, never one that was removed |
| Cron.Runner.Delete | TinyCTX/modules/cron/__main__.py:291-294 | the row is gone for good |
| CronWakeups.NoWakeupIsLost | TinyCTX/modules/cron/__main__.py:405-422 | an unread write always has its notification under way or its flag up, or the loop is about to reload |
| CronWakeups.ReloadBeforeTheNextFullSleep | TinyCTX/modules/cron/__main__.py:504-519 | between a notification and the next full-delay sleep there is a reload that reads everything written before it |
| CronWakeups.SleepsOnlyOnAReadStore | TinyCTX/modules/cron/__main__.py:504-519 | with all notifications in, the loop sleeps only on a store it has read, unless it can wake at once |
| CronWakeups.WakeupsArePaidFor | TinyCTX/modules/cron/__main__.py:405-422 | every write is notified once, every notification sets the flag once, and the loop wakes up early no more often than that |
| CronWakeups.LoopGoesRound | TinyCTX/modules/cron/__main__.py:466-519 | the loop reloads, waits and wakes up in turn whatever the tools do, works with what it read when it reloaded, and starts over with the flag down |
| CronWakeups.NobodyIsHeldUp | TinyCTX/modules/cron/__main__.py:405-519 | writers, notifications and the loop can always go on |

## Left out

- HTTP, SSE, Discord, Telegram, Docker, onboarding, configuration parsing and logging: plumbing around library calls.
- SQLite, asyncio, heapq and JSON themselves: tables are maps, the heap is a set with a least element, deltas are maps.
- Role, content, author and timestamps of nodes: no property here depends on them. `delete_node`: the forks guarantees need that no row is deleted (`GrowsOver`, `RunsHaveAttachPointsAlways`), and only `Context.delete` and `strip_tool_calls` delete one, which nothing in the program calls.
- `get_ancestors`, `get_children` and other plain reads of the node table.
- `seed_session` and shutdown cancellation: they start a new history on purpose.
- The abort-event table, the reply queue of a run, and the text of digests, nudges and roster prompts.
- The lock objects of sessions: a critical section is one step.
- `Context.delete`, `_dependents`, `strip_tool_calls` and `edit`: rewriting of the in-memory dialogue by hooks.
- Rendering, author labels and the special-token sanitizer: any function of an entry that keeps its tags, role and calls.
- The tokenizer, BM25, regular expressions, OCR and document extraction, and image preprocessing.
- `build_content_blocks`, permission checks, command lookup, reply chunking: true but easy.
- Migration of old user databases, creation times of users, and rows that are not valid JSON.
- The templates of an embedding client: a vector stored by a client with other templates for the same model and kind is outside the assumption above.
- Growing or shrinking the embedding cache after its first use.
- `_validate_schedule`, the formatting of job lists, the isolated-branch cursor of a job, and the recomputation of missing due times at start.
- ForkGuarantees.NeverNeither: claims that a digest is delivered to a run on the chain, not that it is read, because a digest can arrive after a run's last drain and before it finishes.
- Runtime.Runtime.EndProcess: status change and release are one step, because the session lock is never contended and every reply queue is unbounded, so that putting the error of a crashed cycle never waits. With a bounded queue a peer could finish in between, hand the failed run no digest, and be lost to the session by the release.
- AdmissionProofs.EqualPriorityIsFifo: drawing the sequence number and pushing the item are one step, because nothing is awaited between them.
- UserStore.Store.MaybeUpdateIdentity: users are values, so it does not capture that a caller may change a cached user object in place before writing it back.
- Uploads.Uploads.SaveUpload: does not model symbolic links, subdirectories, null bytes in a name, or an upload directory that is the root of the file system.
- Cron.Runner.RunJob: does not model a process that stops between the push and the saving of the outcome, after which a restart fires the job again.
- CronWakeups.ReloadBeforeTheNextFullSleep: assumes that the reload itself does not raise; if it does, the next poll reads the store.
- GenerationLoop.Turn.Run: one inference stands for the whole chain of fallback models, and thinking and text chunks, hooks and outbound events appear only through what they lead to.
- MarkdownStream.Printer.EmitText: the printed block is the block's text; how Rich renders it is not modelled.
