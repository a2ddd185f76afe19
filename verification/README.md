# A verified model of the voice agent's hard cores

This project models five parts of a telephone voice agent and proves what they
promise:

* **Flows.** A published flow document is a graph of nodes and edges; a cursor
  walks it during a call. `Flow` models documents and their publish-time
  validation, `FlowWalk` says as functions what a cursor does, `FlowCursor` is
  the cursor itself, a mutable object proved to do exactly that, and `WalkLaws`,
  `TurnLaws`, `RunLaws`, `SafetyLaws`, `HangLaws` and `PublishedLaws` prove what
  follows for one walk, one turn, whole runs, and published documents.
  `AcceptLaws` writes out which documents validation accepts, `MatchLaws` what an
  utterance matches, and `SpeechLaws` what a turn says. `ChoiceLaws` says which
  edges an utterance can take, `ReachLaws` which nodes and edges runs reach, and
  `RunTheorems` exactly when every run is safe.
* **Recording.** `Record` is the stereo call recorder, `RecordLaws` its laws over
  every history of writes and frames.
* **Audio files and prompts.** `Wav` is the WAVE reader and writer (RIFF and WAVE
  as in chapters 2 and 3 of the Multimedia Programming Interface and Data
  Specifications 1.0), `PromptStore` the store of uploaded prompts with its
  decode cache.
* **Edge downlink.** `Downlink` is the playout queue as a state machine with any
  interleaving of writers, flushers and the sender; `EdgeConn` has the methods,
  each tied to the steps it takes.
* **Voice detection and feeding.** `Vad` is the energy detector, `Feeder` the
  integer resampler and framer, `Framing` the framing it shares with the edge.

`Bytes`, `Text`, `Arith` and `Wrappers` hold what these share.

Code that works by mutation is modelled by classes, methods and loops. Each such
method is proved equal to a specification function of the old state, and the
laws are proved of those functions.

## What turned out not to hold

Each of these is a result about the code as it is, proved with the input that
shows it and, where there is one, the exact condition under which it does hold.

* Validation trims node ids and the entry id and the cursor does not, so an
  accepted document can send the cursor to a node it does not know, or not let it
  start (`PublishedLaws.SpacedFails`, `PublishedLaws.SpacedEntryFails`). No call
  of any run is lost so exactly when the entry and the target of every edge some
  run tries are spelled as the cursor keys them (`RunTheorems.RunsNeverLostIff`,
  and `RunTheorems.MovesSafeIff` without regard to what runs reach).
* Validation accepts a transfer intent on an edge that leaves the transfer node;
  the cursor looks at the edge that led there (`PublishedLaws.OutgoingFails`). No
  run fails for it exactly when every edge some run tries into such a transfer
  brings an intent of the matrix (`RunTheorems.RunsServedIff`).
* Validation does not look for cycles of automatic nodes, and a call on a cursor
  can go on for ever (`PublishedLaws.LoopingHangs`). Every call of every run
  returns exactly when no run comes to where binding answers drive the cursor
  round a cycle (`RunTheorems.RunsReturnIff`).
* Validation does not look at the words of a repair policy, so that an unclear
  utterance can fail instead of asking again (`PublishedLaws.WordlessFails`); it
  asks again exactly when those words are blank or have a text
  (`PublishedLaws.AsksAgainIff`).
* A frame size that is odd loses a byte of each leg with every frame
  (`RecordLaws.EvenFramesOrLoss`), and a backlog longer than the final drain is
  cut off (`RecordLaws.DrainLosesNothingIff`).
* `WaitMark` is documented to block until the playout is drained. A flush that
  overtakes a frame in flight leaves the marks one short, so it can return with a
  frame unplayed (`Downlink.WaitMarkCanReturnEarly`);
  the marks are exact exactly when that has not happened since the leg was last
  drained (`Downlink.MarksExactIff`). That takes one `WritePCM` and one `Flush`
  each as a whole: between the two locks of `WritePCM`, a flush or the sender
  leaves a mark no frame owes (`Downlink.FlushInsideWriteSticks`,
  `Downlink.SentBeforeCreditSticks`). Lock by lock, a drained leg has no mark left
  exactly when its surplus is zero (`Downlink.DrainedHasNoMarkIff`), which without
  flushes means that no frame was marked before its credit
  (`Downlink.DrainedHasNoMarkUnlessEarly`).
* A file replaced by one with the same stamp and other audio goes unnoticed by
  the prompt cache (`PromptStore.StampReuseGoesUnnoticed`). Loads are right
  exactly when files of one path that share a stamp decode alike, or the cached
  one never decodes (`PromptStore.LoadAgreesIff`).

## Model

| member | source | states |
|---|---|---|
| `Flow.Validate` | internal/flow/validate.go:51-235 | accepts exactly the documents that satisfy every publish rule, and otherwise names the first rule the document breaks, in the order of the checks, and where |
| `Flow.FirstFaultIsOnly` | internal/flow/validate.go:51-235 | a document has one first fault, and none when it is acceptable: with `Validate`, the fault reported is determined |
| `AcceptLaws.AcceptedIff` | internal/flow/validate.go:51-235 | the accepted documents, written out item by item: the known kinds, the two tools, distinct trimmed ids and intents, the one entry, edge ends, default texts, declared bindings, complete rows, the ten dispositions, and a row for the intent of every transfer |
| `AcceptLaws.HangupKeepsAccepted` | internal/flow/validate.go:93-98 | turning any Tool node of an accepted document into a hangup, however spaced, keeps it accepted |
| `AcceptLaws.NodeKeepsAccepted` | internal/flow/validate.go:79-106 | so does adding a complete node with a fresh id, of every known kind but Entry |
| `AcceptLaws.EdgeKindKeepsAccepted` | internal/flow/validate.go:146-148 | so does giving an edge any known kind |
| `AcceptLaws.DispositionKeepsAccepted` | internal/flow/validate.go:197-199 | so does giving a row any of the ten dispositions, or none |
| `Flow.CheckNodes` | internal/flow/validate.go:77-106 | accepts exactly node lists with known kinds, complete tools and Informs and pairwise different trimmed ids; gives the map by trimmed id and the number of entries |
| `Flow.CheckNode` | internal/flow/validate.go:79-104 | one node: its fields are complete and its trimmed id is new |
| `Flow.CheckNodeFields` | internal/flow/validate.go:87-104 | known kind, a tool that is transfer or hangup on a Tool, a binding on an Inform |
| `Flow.CheckEntry` | internal/flow/validate.go:107-123 | accepts exactly when there is one Entry node and the entry id names it |
| `Flow.CheckBindings` | internal/flow/validate.go:125-139 | accepts exactly when every Inform binding is declared |
| `Flow.CheckEdges` | internal/flow/validate.go:141-155 | accepts exactly when every edge has an id, a known kind and ends among the trimmed node ids |
| `Flow.CheckPrompts` | internal/flow/validate.go:157-172 | accepts exactly when every prompt a node uses has text in the default locale |
| `Flow.CheckMatrix` | internal/flow/validate.go:174-201 | accepts exactly matrices of complete rows with pairwise different intents; gives their intents |
| `Flow.CheckRow` | internal/flow/validate.go:176-200 | one row: its fields are complete and its intent is new |
| `Flow.CheckRowFields` | internal/flow/validate.go:184-199 | owner, target and number present, action transfer, disposition blank or listed |
| `Flow.CheckTransfers` | internal/flow/validate.go:203-229 | accepts exactly when the intent of every transfer node, its own or that of its first outgoing edge with one, has a row |
| `Flow.FindPublishedIntent` | internal/flow/validate.go:209-218 | the intent of a transfer node, else that of the first outgoing edge that has one |
| `Flow.CheckIntent` | internal/flow/validate.go:219-232 | refuses exactly intents without a row; the checks of the row's number and of an empty matrix that follow can never fail |
| `Flow.TrimmedIdsDiffer` | internal/flow/validate.go:84-86 | two acceptable nodes with the same trimmed id are the same node |
| `Flow.RowFor` | internal/flow/validate.go:181-183 | an intent of an acceptable matrix has exactly one row, and it is complete |
| `FlowCursor.Cursor.New` | internal/runtime/graph/cursor.go:62-86 | succeeds exactly on accepted documents, with a fresh, unarmed cursor at the raw entry id, in the trimmed locale given or else the default locale |
| `FlowCursor.Cursor.Bootstrap` | internal/runtime/graph/cursor.go:113-117 | new state and result are those of the walk from where the cursor stands |
| `FlowCursor.Cursor.HandleUtterance` | internal/runtime/graph/cursor.go:122-137 | new state and result are those of the utterance in the state machine, at choice and language nodes, matched or unclear, in every error case |
| `FlowCursor.Cursor.SwitchBy` | internal/runtime/graph/cursor.go:170-198 | takes a language edge with its locale, tools blocked on the way and unblocked afterwards whether or not the walk succeeds |
| `FlowCursor.Cursor.RepairTurn` | internal/runtime/graph/cursor.go:213-258 | counts an unclear utterance, asks again while the policy allows it, else resets the count and takes the only repair edge |
| `PublishedLaws.AsksAgainIff` | internal/runtime/graph/cursor.go:213-239 | on an accepted document an unclear utterance below the maximum is counted, and asks again without moving, exactly when the policy has no words of its own or they have a text |
| `FlowCursor.Cursor.Leave` | internal/runtime/graph/cursor.go:146-168 | takes a chosen edge and walks on, as one turn from the node left |
| `FlowCursor.Cursor.AdvanceSilent` | internal/runtime/graph/cursor.go:276-368 | the loop, with its recursion through failed Informs, does the whole walk: same state, same turn, same failure |
| `FlowCursor.Cursor.FailInform` | internal/runtime/graph/cursor.go:381-400 | leaves an Inform node without an answer as the walk does |
| `FlowCursor.Cursor.LineOf` | internal/runtime/graph/cursor.go:370-379 | what an automatic node says; an Inform without binding, lookup or answer says nothing and fails |
| `FlowCursor.Cursor.Arrive` | internal/runtime/graph/cursor.go:316-336 | ends the walk at a Listen, End or Tool node; a blocked tool is not armed, an armed one stays armed even when its prompt fails |
| `FlowCursor.Cursor.ArmTool` | internal/runtime/graph/cursor.go:402-450 | arms a hangup or a transfer, or fails, and is armed afterwards exactly when it was or succeeded |
| `FlowCursor.Cursor.ResolvePrompt` | internal/runtime/graph/cursor.go:471-487 | the text of the active locale, else of the default locale, else a failure; nothing for a blank reference |
| `SpeechLaws.ResolveMeans` | internal/runtime/graph/cursor.go:471-487 | what that is in the document's own texts: the trimmed non-blank text of the active locale, only without one that of the default locale, and a failure exactly when there is neither; a blank reference says nothing |
| `FlowCursor.Cursor.TakeSole` | internal/runtime/graph/cursor.go:452-459 | follows the only edge of a kind, or fails and stays when there is none, more than one, or its target is unknown |
| `FlowCursor.Cursor.TakeEdge` | internal/runtime/graph/cursor.go:452-459 | moves along an edge with a known target, else changes nothing |
| `ChoiceLaws.LocaleIsTagIfAny` | internal/runtime/graph/cursor.go:562-588 | the locale of a language edge is the first of its trimmed fields that is a language tag (a hyphen, no blank, no tab), intent before option; when neither is, the first that is not blank |
| `FlowCursor.Cursor.RowOf` | internal/runtime/graph/cursor.go:423-429 | the first row of an intent |
| `FlowCursor.OutEdgesOf` | internal/runtime/graph/cursor.go:461-469 | the edges leaving a node, in document order |
| `MatchLaws.OutEdgesAre` | internal/runtime/graph/cursor.go:461-469 | those edges are exactly the ones of the document that leave the node, each at its own place, in document order |
| `FlowCursor.Cursor.CallSetLocale` | internal/runtime/graph/cursor.go:96-102 | a blank locale changes nothing, another one replaces it trimmed |
| `FlowCursor.Cursor.CallSetLookup` | internal/runtime/graph/cursor.go:140-144 | replaces the lookup and nothing else |
| `FlowCursor.SoleOf` | internal/runtime/graph/cursor.go:260-274 | the edge of a kind when there is exactly one |
| `MatchLaws.SoleIff` | internal/runtime/graph/cursor.go:489-503 | that is, when one place has the kind and no other place does |
| `FlowCursor.MatchChoice` | internal/runtime/graph/cursor.go:505-533 | the accumulator loop finds what the best-match specification says |
| `MatchLaws.MatchIsWinner` | internal/runtime/graph/cursor.go:505-560 | without scores: an utterance takes the first edge with its very words, else the first with a key that contains it or is contained in it, and none exactly when it is blank or touches no key |
| `SpeechLaws.WinnerIsTaken` | internal/runtime/graph/cursor.go:146-198 | at a listen node a successful turn leaves by that edge, and at a language node speaks its locale from then on |
| `FlowCursor.MatchIsFirstBest` | internal/runtime/graph/cursor.go:505-533 | an utterance matches the earliest of the edges that fit it best, and none exactly when it is blank or fits none |
| `ChoiceLaws.MatchableIff` | internal/runtime/graph/cursor.go:505-560 | some utterance matches an edge exactly when it has a non-blank key that no edge before it has |
| `ChoiceLaws.MatchedHasLocale` | internal/runtime/graph/cursor.go:170-179 | a matched language edge always names a locale, so that failure never happens |
| `FlowCursor.MergedIsPrepend` | internal/runtime/graph/cursor.go:200-211 | merging a first move with the walk after it puts that move in front, with the walk's last edge as the turn's |
| `WalkLaws.WalkDichotomy` | internal/runtime/graph/cursor.go:276-368 | from any state the silent walk stops, with fewer edges than there are nodes, or goes on for ever; which one a bounded search tells |
| `WalkLaws.StopsWithinNodes` | internal/runtime/graph/cursor.go:276-368 | a walk that stops takes no edge or fewer than there are nodes |
| `WalkLaws.AcyclicWalksStop` | internal/runtime/graph/cursor.go:276-368 | without a cycle of automatic edges (next, and repair out of Inform) every walk stops, whatever the lookup answers |
| `HangLaws.StopsIffNoDrivenCycle` | internal/runtime/graph/cursor.go:276-400 | all walks stop, for every lookup, exactly when no answers to the bindings drive the cursor round a cycle |
| `HangLaws.HangsIff` | internal/runtime/graph/cursor.go:276-368 | a walk has no result exactly when it does not stop |
| `HangLaws.AcyclicIsEnough` | internal/runtime/graph/cursor.go:276-400 | no cycle of automatic edges, no cycle driven by answers |
| `RunTheorems.StandsIff` | internal/runtime/graph/cursor.go:113-258 | the nodes a run can leave the cursor on are exactly those reached from the entry by legs: an edge an utterance can choose, then the edges some answers drive it along |
| `ReachLaws.WalkEnds` | internal/runtime/graph/cursor.go:276-400 | a walk that stops took exactly the edges its answers drive it along, and says why it went no further |
| `ReachLaws.EffectIsNext` | internal/runtime/graph/cursor.go:284-366 | at each node the walk takes the edge due there, or halts at a wait, End or Tool node, or fails: for want of one such edge, on an unknown target, or at a node that is not implemented |
| `ChoiceLaws.Choose` | internal/runtime/graph/cursor.go:146-258 | every edge an utterance can choose is taken by some run: by the words of its key, or by blank utterances until the policy is exhausted |
| `ReachLaws.RunStaysPlaced` | internal/runtime/graph/cursor.go:113-258 | after every run whose calls returned, failed ones included, the cursor is on such a node, by the edge it last tried |
| `RunTheorems.RunsReturnIff` | internal/flow/validate.go:141-155 | on an accepted document every call of every run from the start returns exactly when no run can come to where answers drive the cursor round a cycle |
| `RunTheorems.NoCycleIsEnough` | internal/runtime/graph/cursor.go:276-400 | without any such cycle in the graph no run comes to one |
| `TurnLaws.WalkReports` | internal/runtime/graph/cursor.go:276-368 | a successful walk reports a contiguous path of document edges to a Listen, End or Tool node, its last edge, and exactly the non-empty texts of the nodes on it, in order; only node, last edge and arm change |
| `SpeechLaws.WalkRecites` | internal/runtime/graph/cursor.go:276-368 | the lines of a successful walk are the non-empty ones of what the nodes on its path say: the texts of the document in the active locale and the answers of the lookup to binding, query and locale |
| `SpeechLaws.UtterRecites` | internal/runtime/graph/cursor.go:146-258 | so are those of a successful utterance that moves, with the words heard as the query and in the locale the turn leaves behind |
| `SpeechLaws.TurnLeads` | internal/runtime/graph/cursor.go:146-211 | every successful turn leads by edges of the document, each with its own id, ends and kind, from the old node to the new one |
| `SpeechLaws.WordlessSpeakFails` | internal/runtime/graph/cursor.go:297-301 | a Speak node whose prompt has no text fails the walk |
| `SpeechLaws.WordlessToolIsArmed` | internal/runtime/graph/cursor.go:325-333 | a tool whose prompt has no text is armed although the turn fails |
| `TurnLaws.UtterAnswers` | internal/runtime/graph/cursor.go:146-258 | every successful utterance either stays and asks again, or reports such a path of at least one edge; choice, language, exhausted repair and failed Inform alike |
| `TurnLaws.SwitchAnswers` | internal/runtime/graph/cursor.go:170-198 | so does a language turn, which also arms nothing and speaks the new locale on the way |
| `TurnLaws.BlockedNeverArms` | internal/runtime/graph/cursor.go:321-324 | while tools are blocked no walk arms one |
| `RunLaws.CallKeepsRetries` | internal/runtime/graph/cursor.go:146-258 | every call, failed ones included, leaves counts only at the node the cursor listens at, within the maximum where exactly one repair edge is drawn, and the tool block cleared |
| `RunLaws.RunKeepsRetries` | internal/runtime/graph/cursor.go:146-258 | so does every run |
| `RunLaws.UnclearRunCounts` | internal/runtime/graph/cursor.go:213-240 | up to the maximum, unclear utterances count one each and the cursor stays, whatever else is called between them |
| `RunLaws.NextUnclearTakesRepairEdge` | internal/runtime/graph/cursor.go:240-258 | the utterance after the maximum departs along the repair edge with the count reset, whether or not the walk behind it succeeds |
| `RunLaws.ChancesThenRepair` | internal/runtime/graph/cursor.go:213-258 | three unclear utterances when the policy does not say how many, none when it says less than one, and the next one departs |
| `RunLaws.UnclearWithoutPolicy` | internal/runtime/graph/cursor.go:214-220 | without a policy an unclear utterance is only reported, with a malformed one it fails, and neither counts |
| `RunLaws.NotListeningRefuses` | internal/runtime/graph/cursor.go:126-136 | away from choice and language nodes an utterance is refused without a trace |
| `RunLaws.CallArms` | internal/runtime/graph/cursor.go:321-336 | with prompts that resolve, a cursor becomes armed exactly in a call that returns an armed tool, and then rests at a tool |
| `RunLaws.SwitchArms` | internal/runtime/graph/cursor.go:189-194 | a turn that matched a language never arms, successful or not |
| `RunLaws.ArmedIsFinal` | internal/runtime/graph/cursor.go:402-405 | once armed, every turn fails and the cursor never moves |
| `RunLaws.OneArmPerRun` | internal/runtime/graph/cursor.go:402-450 | over any run at most one turn returns an armed tool, and the cursor is armed exactly when one has |
| `PublishedLaws.ReachableStates` | internal/runtime/graph/cursor.go:62-137 | all of this from the start of every accepted document, over every run |
| `PublishedLaws.PublishedNeverLost` | internal/runtime/graph/cursor.go:452-459 | on an accepted document without white space around its ids no call of any run fails on an unknown node |
| `RunTheorems.RunsNeverLostIff` | internal/runtime/graph/cursor.go:452-459 | no call of any run from the start fails on an unknown node exactly when the entry and the target of every edge some run tries are known |
| `RunTheorems.MovesSafeIff` | internal/flow/validate.go:80-123 | for accepted documents: the entry is known and every edge a cursor may take leads to a known node, exactly when the entry is known and no call from a state on a known node fails on an unknown one |
| `SafetyLaws.PlainIdsAreSafe` | internal/flow/validate.go:77-155 | plain ids give known targets and an Entry at the start |
| `SafetyLaws.CallNotLost` | internal/runtime/graph/cursor.go:452-459 | with known targets no call fails on an unknown node, and the last edge led to the current one |
| `SafetyLaws.NeverLost` | internal/runtime/graph/cursor.go:452-459 | nor does any call of any run |
| `SafetyLaws.AcceptedPromptsResolve` | internal/flow/validate.go:157-172 | the prompt of every node of an accepted document has a text in every locale |
| `SafetyLaws.ArmIff` | internal/runtime/graph/cursor.go:402-450 | an unarmed transfer arms exactly when the intent it acts on has a row, and carries that row, the only one, with a non-blank number and a blank or listed disposition |
| `SafetyLaws.TransferArmsIff` | internal/runtime/graph/cursor.go:321-336 | so does the turn that reaches it, on an accepted document |
| `SafetyLaws.OwnIntentArms` | internal/flow/validate.go:203-229 | a transfer with an intent of its own always arms, with that intent's row |
| `SafetyLaws.HangupArms` | internal/runtime/graph/cursor.go:408-414 | a hangup always arms on an accepted document, with nothing to transfer to and the disposition of a completed call |
| `PublishedLaws.GoodbyeArms` | internal/runtime/graph/cursor.go:408-414 | an accepted document that hangs up, and its first walk returns the hangup armed |
| `RunTheorems.RunsServedIff` | internal/runtime/graph/cursor.go:415-432 | no call of any run fails for want of a transfer's intent exactly when every edge some run tries into a transfer without one brings an intent of the matrix |
| `PublishedLaws.SpacedFails` | internal/flow/validate.go:80 | an accepted document whose first move finds no node |
| `PublishedLaws.SpacedEntryFails` | internal/flow/validate.go:113-123 | an accepted document whose cursor does not find its entry |
| `PublishedLaws.OutgoingFails` | internal/runtime/graph/cursor.go:416-422 | an accepted document whose transfer cannot be armed |
| `PublishedLaws.LoopingHangs` | internal/runtime/graph/cursor.go:297-315 | an accepted document on which the first call never returns |
| `PublishedLaws.WordlessFails` | internal/runtime/graph/cursor.go:224-234 | an accepted document on which the first unclear utterance fails for want of its words |
| `Record.TakeFront` | internal/runtime/record/record.go:329-342 | the first n bytes of a backlog, zero-padded, and what is left of it |
| `Record.Interleave` | internal/runtime/record/record.go:308-311 | the samples of both legs alternately, left first |
| `Record.Recorder.New` | internal/runtime/record/record.go:116-170 | off when disabled, refused without a session, without a file or below 500 Hz, else an empty recorder at the given rate and frame length, 8000 Hz and 20 ms when they are not positive, whose frame holds the audio of one cadence, short of it by less than a byte a millisecond |
| `Record.Recorder.Write` | internal/runtime/record/record.go:235-259 | the write joins the history unless it is empty or the recorder is closed; the state is that of the history |
| `Record.Recorder.WriteFrame` | internal/runtime/record/record.go:300-325 | one frame off both legs into the file, or lost and the recorder stopped when the disk fails |
| `Record.Recorder.Tick` | internal/runtime/record/record.go:264-296 | a tick writes exactly the frames that are due, at most 250, stopping at the first disk failure, and patches the header exactly when it wrote some and five seconds have passed |
| `Record.Recorder.DrainTail` | internal/runtime/record/record.go:365-374 | writes exactly as many frames as empty both backlogs, at most 500 |
| `Record.Recorder.PatchHeader` | internal/runtime/record/record.go:398-430 | the header announces the bytes written so far, or stays when the disk fails |
| `Record.Recorder.Close` | internal/runtime/record/record.go:346-387 | drains and leaves a file that describes itself and ends in all audio written; changes nothing but the closing flag when the mux loop does not stop; a second call writes nothing |
| `Record.FramesForStep` | internal/runtime/record/record.go:366-373 | one frame brings two backlogs one frame closer to empty |
| `RecordLaws.Conservation` | internal/runtime/record/record.go:235-342 | for each leg and every history, what was emitted followed by what is buffered is what was accepted, byte for byte |
| `RecordLaws.OfferedIsAcceptedOrDropped` | internal/runtime/record/record.go:245-258 | every byte offered was accepted or counted as dropped, and no backlog exceeds its bound |
| `RecordLaws.WriteTakesOrDrops` | internal/runtime/record/record.go:246-258 | a leg takes a write whole while it then holds at most 480000 bytes, and otherwise counts it as dropped |
| `RecordLaws.OnTimeNeverAccumulates` | internal/runtime/record/record.go:156-342 | a leg fed exactly one cadence's audio a tick never accumulates, and one that starts empty loses nothing |
| `RecordLaws.FrameOf` | internal/runtime/record/record.go:329-342 | a leg's share of a frame is a prefix of its backlog followed only by zeros, and by none unless it took all |
| `RecordLaws.SilenceOnlyWhenDrained` | internal/runtime/record/record.go:329-342 | a frame that carries silence leaves nothing accepted unwritten |
| `RecordLaws.LanesAreFrames` | internal/runtime/record/record.go:300-325 | de-interleaving the file gives back each leg's frames, for even frame sizes |
| `RecordLaws.EvenFramesOrLoss` | internal/runtime/record/record.go:308-311 | and exactly for those, or when there is no frame |
| `RecordLaws.WholeSamples` | internal/runtime/record/record.go:308-311 | both lanes of the file are equally long |
| `RecordLaws.LaneLength` | internal/runtime/record/record.go:308-311 | how long: the whole samples of every frame written |
| `RecordLaws.DrainLosesNothingIff` | internal/runtime/record/record.go:361-374 | closing leaves nothing a leg accepted unwritten exactly when its backlog fits 500 frames |
| `RecordLaws.ClosedRecordingDecodes` | internal/runtime/record/record.go:376-430 | the closed file decodes, at the recorder's rate, to the mean of the two legs' frames sample by sample |
| `RecordLaws.NeverAhead` | internal/runtime/record/record.go:278-290 | on any clock that does not go back the recording never runs ahead of it |
| `RecordLaws.LagShrinks` | internal/runtime/record/record.go:282-285 | on a steady clock a lag shrinks by 249 frames a tick |
| `RecordLaws.LagClears` | internal/runtime/record/record.go:282-285 | so it is gone after its 249th part of ticks, rounded up |
| `Wav.DecodeWAV` | internal/audio/audio.go:109-192 | returns what the declarative reading of the file's chunk list says, error by error, on arbitrary bytes |
| `Wav.ScanChunks` | internal/audio/audio.go:124-155 | the offset loop ends and computes the scan |
| `Wav.ScanIsLast` | internal/audio/audio.go:124-155 | the scan finds the last format and the last data chunk of the list, unless some format chunk is too short |
| `Wav.LastOfIs` | internal/audio/audio.go:138-150 | the last chunk of an id is the one no later chunk shares it with |
| `Wav.ChunksOfPutChunks` | internal/audio/audio.go:124-155 | the reader recovers every list of well-formed chunks exactly, odd bodies padded |
| `Wav.DecodeOfChunks` | internal/audio/audio.go:109-192 | decoding a container is reading its chunk list |
| `Wav.OnlyLastChunksMatter` | internal/audio/audio.go:138-150 | containers with the same last format and data chunk decode alike |
| `Wav.OverrunData` | internal/audio/audio.go:129-137 | a data chunk that overruns the file is cut to what is there |
| `Wav.OverrunStops` | internal/audio/audio.go:129-137 | any other chunk that overruns the file ends the reading |
| `Wav.DecodesIff` | internal/audio/audio.go:157-191 | a file of one format and one data chunk decodes exactly when it is 16-bit PCM, plain or extensible, of one or two channels, between 8000 and 48000 Hz, with at least one frame |
| `Wav.NotWavIff` | internal/audio/audio.go:111-113 | refused as no WAVE file is exactly what lacks 12 bytes or one of the two tags |
| `Wav.FormatNeeded` | internal/audio/audio.go:139-159 | a format chunk that is too short is fatal wherever it stands, and so is having none |
| `Wav.DownmixToMono` | internal/audio/audio.go:73-89 | fills the buffer with the downmix |
| `Wav.MonoSample` | internal/audio/audio.go:80-87 | whose every sample is the truncated mean of its frame |
| `Wav.AverageInRange` | internal/audio/audio.go:86 | the mean stays in the 16-bit range, so the cast is exact |
| `Wav.TruncDivIs` | internal/audio/audio.go:86 | division truncates toward zero |
| `Wav.EncodeWAV` | internal/audio/audio.go:195-216 | the canonical header for the audio, which describes the file, then the audio |
| `Wav.HeaderDescribes` | internal/audio/audio.go:195-216 | read back field by field, a header has the tags of RIFF/WAVE, the file length less 8 and less 44 as its sizes, 16-bit PCM, a block align of channels times bits over 8 and a byte rate of the rate times block align |
| `Wav.FillHeader` | internal/runtime/record/record.go:411-430 | the 44 header bytes, nothing after them touched |
| `Wav.ChunksOfCanonical` | internal/runtime/record/record.go:411-430 | the independent reader finds exactly the two chunks the header announces, the second cut when the file was |
| `Wav.DecodeCanonical` | internal/audio/audio.go:109-216 | what a canonical file decodes to, in every case |
| `Wav.RoundTrip` | internal/audio/audio.go:109-216 | decoding an encoding gives back audio and rate exactly for non-empty whole samples at an accepted rate |
| `Wav.DecodedIsNormal` | internal/audio/audio.go:168-191 | whatever decodes is non-empty whole-sample mono at an accepted rate, no longer than the file |
| `Wav.NormaliseIdempotent` | internal/audio/audio.go:109-216 | encoding a decoded file and decoding again changes only the channel count of the source |
| `PromptStore.Store.Put` | internal/fallback/fallback.go:198-238 | refuses exactly what is empty, too large, undecodable or too long; else installs the normalised file, forgets the cached one, and a load answers what the upload decoded to |
| `PromptStore.UploadTakenIff` | internal/fallback/fallback.go:198-214 | an upload is taken exactly when it decodes, is at most 10 MiB and one minute long, and the disk takes it |
| `PromptStore.Store.Delete` | internal/fallback/fallback.go:241-250 | forgets the cached prompt and removes the file; a missing one is no error, and a load finds none afterwards |
| `PromptStore.Store.LoadFile` | internal/fallback/fallback.go:326-355 | answers from the cache on an unchanged stamp, else decodes; either way what the file holds now, if the files the path held are harmless |
| `PromptStore.Store.Resolve` | internal/fallback/fallback.go:284-308 | serves the candidate the probe finds, labelled with the scenario asked for, and changes no file |
| `PromptStore.ResolveOrder` | internal/fallback/fallback.go:284-308 | that is the tenant's prompt of the scenario, else its generic one, else the default tenant's, else the default generic one |
| `PromptStore.ProbeFindsFirst` | internal/fallback/fallback.go:289-308 | the probe finds the first of the candidates that loads, although each load may change the cache |
| `PromptStore.ResolveServesFirstDecodable` | internal/fallback/fallback.go:280-308 | which is the first whose file decodes now, if the files of each are harmless |
| `PromptStore.LoadAgreesWithDisk` | internal/fallback/fallback.go:325-355 | after any uploads, deletions, outside changes and loads, a load answers what the file holds now, if the files the path held are harmless |
| `PromptStore.LoadAgreesIff` | internal/fallback/fallback.go:325-355 | among given files every load of every run answers what the path holds, exactly when files that share a stamp decode alike or the cached one never decodes |
| `PromptStore.ForgottenAfter` | internal/fallback/fallback.go:233-245 | after an upload or a deletion the next file is read whatever its stamp |
| `PromptStore.StampReuseGoesUnnoticed` | internal/fallback/fallback.go:338-340 | a run with two files that are not, in which a load answers with the old one |
| `PromptStore.InvRun` | internal/fallback/fallback.go:139-150 | every cached entry is the decode of a file the path once held under that stamp |
| `PromptStore.UploadKeepsAudio` | internal/fallback/fallback.go:216-218 | the stored form of an upload decodes to what the upload decoded to, but for the channel count |
| `PromptStore.TenantDir` | internal/fallback/fallback.go:168-189 | a tenant's directory is one non-empty element of at most 64 plain characters |
| `PromptStore.TenantDirIs` | internal/fallback/fallback.go:168-189 | its trimmed name with every character that is not plain an underscore, cut to 64, or _default when it is blank |
| `Downlink.WholeRun` | internal/edge/modaudiostream/conn.go:251-399 | under any interleaving: every frame offered is sent, dropped, flushed, queued or in flight; the queue is bounded; frames go out in the order accepted; stale frames never outnumber flushes |
| `Downlink.ConservedStep` | internal/edge/modaudiostream/conn.go:251-399 | every critical section accounts for every frame |
| `Downlink.OrderedStep` | internal/edge/modaudiostream/conn.go:251-399 | and keeps the queue, the frame in flight and the frames sent in accepted order |
| `Downlink.OneStaleFramePerFlush` | internal/edge/modaudiostream/conn.go:284-292 | from any reachable state on, frames older than a flush that still reach the wire are at most the one already past the generation check |
| `Downlink.AfterFlush` | internal/edge/modaudiostream/conn.go:380-399 | after a flush at most one frame queued before it can still be heard |
| `Downlink.MarksMatchAlways` | internal/edge/modaudiostream/conn.go:233-249 | over whole calls marks never exceed the frames that owe one, so a drained or closed leg has none left and `WaitMark` can exit |
| `Downlink.MarksExactIff` | internal/edge/modaudiostream/conn.go:402-423 | the marks are exact unless a flush overtook a frame in flight since the leg was last drained, and then one short |
| `Downlink.MarksBalance` | internal/edge/modaudiostream/conn.go:233-399 | under any interleaving of critical sections, marks and open credits exceed the frames that owe a mark by the surplus: early marks, frames flushed, less the marks cleared |
| `Downlink.DrainedHasNoMarkIff` | internal/edge/modaudiostream/conn.go:233-279 | lock by lock, on a drained leg with no open credit the marks left are the surplus, so `WaitMark` can return exactly when it is zero |
| `Downlink.DrainedHasNoMarkUnlessEarly` | internal/edge/modaudiostream/conn.go:233-249 | without flushes and before closing: exactly when no frame was marked before its credit |
| `Downlink.WaitMarkCanReturnEarly` | internal/edge/modaudiostream/conn.go:402-423 | a run in which `WaitMark` returns with a frame still queued |
| `Downlink.FlushInsideWriteSticks` | internal/edge/modaudiostream/conn.go:364-370 | a flush between the two locks of `WritePCM` leaves a mark no frame owes |
| `Downlink.SentBeforeCreditSticks` | internal/edge/modaudiostream/conn.go:364-370 | so does a frame sent between them |
| `Downlink.UtteranceQueuedWhole` | internal/edge/modaudiostream/conn.go:350-363 | the frames of an utterance that fits join to its PCM and trailing silence of less than a frame |
| `Downlink.QueueFillsUp` | internal/edge/modaudiostream/conn.go:349-363 | an utterance that does not fit fills the queue to 3000 frames with its first ones, in order, and the rest are dropped |
| `EdgeConn.Conn.WritePCM` | internal/edge/modaudiostream/conn.go:326-377 | takes exactly the append, credit and drop steps, or none when closed or without a frame size |
| `EdgeConn.Conn.AppendFrames` | internal/edge/modaudiostream/conn.go:349-363 | queues the frames that fit and drops the rest |
| `EdgeConn.Conn.FlushOne` | internal/edge/modaudiostream/conn.go:251-279 | takes exactly the sender's steps, with a failed encoding, a superseded, failed or successful write, and releases one mark in each |
| `EdgeConn.Conn.FinishFrame` | internal/edge/modaudiostream/conn.go:272-278 | counts a frame that was lost, and releases its mark either way |
| `EdgeConn.Conn.WriteAudio` | internal/edge/modaudiostream/conn.go:284-292 | writes only a frame of the current generation on an open leg |
| `EdgeConn.Conn.WriteRaw` | internal/edge/modaudiostream/conn.go:295-323 | counts failures, and closes the leg at the fifth in a row |
| `EdgeConn.Conn.Flush` | internal/edge/modaudiostream/conn.go:380-399 | empties the queue, opens a new generation and releases all marks, also on a closed leg |
| `EdgeConn.Conn.MarkDone` | internal/edge/modaudiostream/conn.go:236-249 | releases marks, never below none |
| `EdgeConn.Conn.SignalClose` | internal/edge/modaudiostream/conn.go:505-517 | closes the leg and releases all marks, once |
| `Vad.EnergyDetector.Process` | internal/runtime/vad/vad.go:54-86 | says Speech exactly when the most recent qualifying run of frames since the reset is a loud one, however quotients are rounded |
| `Vad.EnergyDetector.Reset` | internal/runtime/vad/vad.go:48-52 | starts a new history |
| `Vad.RmsAbs` | internal/runtime/vad/vad.go:88-103 | the mean magnitude of the whole samples, its quotient rounded in any way |
| `Vad.EnergyOfLevel` | internal/runtime/vad/vad.go:88-103 | PCM whose samples all swing to one level has that level as its energy, and PCM without a sample has none |
| `Vad.MagnitudeAppend` | internal/runtime/vad/vad.go:93-97 | magnitudes add up sample after sample |
| `Vad.MagnitudeOfOne` | internal/runtime/vad/vad.go:95-96 | and that of one sample is its distance from zero |
| `Vad.EnergyDetector.Loud` | internal/runtime/vad/vad.go:55-69 | a frame is loud at the threshold, or at 500 when that is not positive |
| `Vad.OneMoreFrame` | internal/runtime/vad/vad.go:69-81 | how one more frame changes whether the last qualifying run is loud |
| `Vad.SwitchOnNeedsFullHold` | internal/runtime/vad/vad.go:69-74 | speech begins only at the end of a full hold of loud frames |
| `Vad.SwitchOffNeedsFullHold` | internal/runtime/vad/vad.go:75-81 | and ends only at the end of a full hold of quiet ones |
| `Feeder.ResampleLinear` | internal/edge/file/feeder.go:169-189 | fills the buffer with the resampling |
| `Feeder.ResampleIs` | internal/edge/file/feeder.go:169-189 | which copies when there is nothing to do, else takes whole samples of the source one by one |
| `Feeder.OutCountIs` | internal/edge/file/feeder.go:175-179 | as many as the input lasts at the new rate, cut to whole samples, and at least one |
| `Feeder.SourceIndexIs` | internal/edge/file/feeder.go:182 | each the input sample sounding when the output sample begins |
| `Feeder.ResampledAt` | internal/edge/file/feeder.go:181-187 | whose every sample is the source sample at its index |
| `Feeder.SourceInRange` | internal/edge/file/feeder.go:182-185 | every source index is in range, so the clamp never acts |
| `Feeder.SourceIndexMonotone` | internal/edge/file/feeder.go:182 | samples keep their order |
| `Feeder.UpCount` | internal/edge/file/feeder.go:175-179 | how many samples a whole factor up, and back, gives |
| `Feeder.UpThenDown` | internal/edge/file/feeder.go:169-189 | up by a whole factor and back gives the PCM, exactly when it does not end in half a sample |
| `Feeder.RunFeeder` | internal/edge/file/feeder.go:74-105 | hands out the frames in order, numbered from 1, up to the end or until the session goes away, before a frame or while pacing after one; says eof exactly when it did not notice |
| `Framing.CutChunk` | internal/edge/file/feeder.go:85-90 | one frame, the last one zero-padded |
| `Framing.FrameCount` | internal/edge/file/feeder.go:79-100 | frames are of one size and there are just enough of them |
| `Framing.FramesJoin` | internal/edge/file/feeder.go:79-100 | joined, they are the PCM and its padding |

## Left out

Weaker than the program, or under a condition of the model:

- FlowCursor.Cursor.Bootstrap: requires that the call returns, because a Dafny method must end; exactly when every call does is `RunTheorems.RunsReturnIff`.
- FlowCursor.Cursor.HandleUtterance: the same, and so do the methods it calls.
- Downlink.MarksMatchAlways: holds of whole `WritePCM` and `Flush` calls, as does `MarksExactIff`; what holds lock by lock is `MarksBalance` and `DrainedHasNoMarkIff`.
- Record.Recorder.Tick: the due frames and the header patch read one clock reading, and no write comes between two frames of a tick; every interleaving of writes and frames is a history, and the laws are about all histories.
- Record.Recorder.Close: does not write `meta.json`.
- Record.Recorder: its legs are sequences that the methods reassign; that the program shifts them within one backing array is not modelled.
- EdgeConn.Conn.FlushOne: nothing interleaves within it; the interleavings are those of the steps in `Downlink`.
- Feeder.RunFeeder: requires a frame size of at least one byte; with zero the loop does not end.

Not part of this model:

- JSON: documents, prompts and repair policies start as datatypes; a malformed repair policy is a value of its own.
- The Inform lookup is any deterministic function of binding, query and locale that may fail.
- Lower-casing is any function on characters; white space is Unicode's, strings are sequences of characters rather than UTF-8 bytes.
- Integers are unbounded (retry counts, byte counts, generations); the 32-bit fields of WAVE headers wrap as in the program.
- File system, socket and encoder are booleans that say whether a step succeeds; a failed write leaves the file as it was. A write that fails half way is not modelled.
- Locks, goroutines, tickers and contexts, but for the interleavings of the downlink's critical sections and of the recorder's writes and frames.
- The edge's uplink, its control verbs (hangup, transfer), its message encoding and its floating-point resampler; `WritePCM` starts from PCM at the peer's rate.
- The file feeder's own WAVE reader and its pacing.
- `UpdatedAt` of assets, listing and raw download of prompts, classification of errors into scenarios.
- Recording paths, retention sweeps and methods on a nil recorder.
- HTTP, persistence, the talk composer, session runtime and vendor gateways.
