# Verified model of the speaking-exam service

This project models the stateful core of the speaking-exam backend in Dafny and proves what that core keeps.
One module stands for one component; `Text`, `Numbers`, `Sorting` and `Permutations` hold the string, number and
list operations that several components share.

| modules | component |
|---|---|
| `EditDistance`, `WordErrorRate` | word error rate with one table row overwritten in place; edit scripts and metric laws |
| `ReferenceConfidence` | three rewrites of one transcript, their medoid, and a confidence |
| `TurnLog`, `ArchiveStore` | the checkpoint of one answer: append and last-value channels, the archive graph, the readers |
| `TurnPublisher`, `PublishWindows`, `PublishPhases`, `PublishDecisions` | the two-phase publish of a turn as interleaved steps of any number of calls; how often a turn goes out; what its two events carry; what it leaves on record |
| `DialogueLimit` | the brakes on a dialogue and the bound they give |
| `QuestionSession` | the live session, its resume from the checkpoint, and the recovery of a pending turn |
| `TurnBatch`, `ExamConsumer`, `ConsumerOutcome` | batch evaluation with targeted retries; the consumer loop under faults, and how each message ends |
| `AlertTrace`, `AlertPolicy`, `FrameAlerts` | hysteresis and cooldown of proctoring alerts, against a predicate on the frame trace and on the detections |
| `PeerRegistry` | offers, evictions, state callbacks, deletions and cleanups of proctoring peers, interleaved |
| `TaggedTranscript` | the `[XX: text]` notation: one writer, three scanners |
| `TranscriptAccumulator` | utterances of a turn, with `consume_turn` split at its await |
| `Consensus` | three judges, one criterion or several |
| `DifficultyScale` | raw difficulty, ranks on any scale, feature profiles |
| `NearestQuestion` | nearest stored question with exclusions |
| `LogprobConfidence` | confidence of an utterance from token log-probabilities |

## How it is modelled

Code that changes state is a class or a method whose `ensures` ties the new state to a specification function;
protocols that await are state machines whose steps run from one await to the next, and a run is any sequence of
steps. `await coro()` does not yield by itself, so the test for the current connection and the start of the cleanup
it guards are one step. LLM answers, recognisers, Kafka, Postgres and clocks are parameters, and a call to the
outside may take effect and return, take effect and raise, raise without effect, or be cancelled.
Writes to one thread id are serialised. Turns are archived in any order, also ahead of their decisions; where recovery is compared with the
live path, their orders start at 1. Background tasks are cancelled after 30 seconds unless they ask for more
(`src/realtime/background.py:31`), and a cancelled publish call stops between any two of its steps.

Floats are reals. Text case is folded on ASCII letters only. The text normaliser of the confidence score, the sets of
word characters and the rounding of the difficulty scale are parameters, and the claims hold for all of them (for
every set of word characters that separates words at spaces, and every rounding to a nearest integer).

## Where the code and its documentation differ

- `publish_turn_if_new` promises "exactly once" (`src/infra/message_broker/publishers/turn_publisher.py:160`).
  Overlapping calls publish twice without any failure (`OverlapPublishesTwice`, `WindowsCanOverlap`), and so does a
  call cut off between publish and marker (`CutOffPublishesAgain`). `EventsAccountedFor` counts events exactly, and
  `PublishedExactlyOnce` says when there is one, in runs in which no send of the turn is kept from happening.
- A failure report names the last message that could be turned into a dictionary, not always the message that failed
  (`StaleIdsAreReported`); a rejected message before any valid one ends the consumer (`RejectedMessage`).
- No peer is orphaned if and only if no eviction finishes, within the quota, after its session has been taken again
  (`OnePeerPerSession`), and a
  current peer has its identity unless the session ended over its head (`IdentityLostToLateCleanup`).
- A finished turn is decided again on recovery if and only if neither the last one nor a later one was archived and the
  transcript of the turn the rebuilt session stands at was stored (`DecidedAgainExactly`).
- A pending turn is decided on recovery if and only if its transcript was stored and the last completed turn is the last
  one archived (`PendingDecidedExactly`). An archive request for a turn that is not decided yet
  (`src/controller/archive_controller.py:20-63`) breaks this: the turn is skipped, and the question is ended by a
  decision nobody made (`ArchivedEarlyIsReached`). The same answer comes when the record of a decision was lost
  (`RepeatedDecision`).
- A rebuilt session asks the decision graph without the remaining graded time: the resume state does not carry it under
  the name it is read by (`src/realtime/question/session.py:68`, `src/infra/database/archive_store.py:302-316`). Its
  question prompt is that of the turn archived last (`RecoveryAsksAlike`, `ArchiveReplacesPrompt`).
- An utterance whose final text is later than the wait appears in two turns (`LateFinalIsReached`);
  `SaidMoreThanOnce` says exactly when the words of a speech are committed more than once.
- Words of a speech are never committed if and only if no final text of it comes and they were cleared each time before
  they were taken (`NeverSaid`, `DropMeaning`), as when a turn ends in the middle of a speech (`UnfinishedSpeechIsLost`).
- The two events of a turn carry the same text but count its words in two ways (`PhasesCountAlike`, `PhasesCountApart`),
  and the preliminary event of a continued turn carries the next turn's prompt (`PhasesCarryPrompts`).
- The "median" of two valid scores is the greater one (`GreaterOfTwo`).
- The two tests for a clarification reason differ in trimming and case (`CopiesDifferExactly`).

## Model

| member | source | states |
|---|---|---|
| WordErrorRate.Compute | src/utils/speech_client.py:313-332 | the one-row loops return d/n, where d is the cost of a cheapest insert/delete/substitute script from reference to hypothesis; none for two empty lists, 1 for an empty reference |
| WordErrorRate.OverwriteRow | src/utils/speech_client.py:321-331 | the inner loop turns row i-1 into row i in the same buffer |
| EditDistance.DistanceIsLeastCost | src/utils/speech_client.py:313-332 | what the recurrence computes is attained by a script and no script is cheaper |
| EditDistance.NoScriptIsCheaper | src/utils/speech_client.py:326-330 | taking only the diagonal on equal words loses nothing: every script costs at least the recurrence's value |
| EditDistance.AdjacentCells | src/utils/speech_client.py:326-330 | neighbouring table cells differ by at most one, the reason the diagonal-only case is safe |
| EditDistance.ZeroExactlyOnEqual | src/utils/speech_client.py:313-332 | distance 0 if and only if the word lists are equal |
| EditDistance.Symmetric | src/utils/speech_client.py:313-332 | distance is symmetric, by inverting scripts |
| EditDistance.Triangle | src/utils/speech_client.py:313-332 | triangle inequality, by composing scripts |
| EditDistance.LengthBounds | src/utils/speech_client.py:313-332 | the distance lies between the difference and the greater of the two lengths |
| ReferenceConfidence.Compute | src/utils/confidence_utils.py:170-215 | the loops over pairs, the score table and the medoid choice give the verdict of the specification for any normaliser |
| ReferenceConfidence.ComparePairs | src/utils/confidence_utils.py:185-197 | the similarity list and the symmetric table hold exactly the three pairwise agreements |
| ReferenceConfidence.SelectMedoid | src/utils/confidence_utils.py:202-205 | the selected index is the first with the greatest pair sum |
| ReferenceConfidence.MedoidAgreesMost | src/utils/confidence_utils.py:202-206 | no candidate agrees more with the other two, and every earlier one agrees strictly less |
| ReferenceConfidence.SimilarityRange | src/utils/confidence_utils.py:190-194 | pairwise agreement is symmetric, in [0,1], 1 exactly on equal word lists, absent exactly when both are empty |
| ReferenceConfidence.AgreementFromEdits | src/utils/confidence_utils.py:188-197 | for n and m words that d edits at least turn into each other, the agreement is 1 - d(n + m)/2nm, clipped; 1 - d/n at equal lengths |
| ReferenceConfidence.EmptyAgreesWithNone | src/utils/confidence_utils.py:188-197 | a rewrite without a word does not agree at all with one that has some |
| ReferenceConfidence.StabilityOfVerdict | src/utils/confidence_utils.py:199-207 | the stability of a verdict on three rewrites with words is the mean of their agreements, by the edits between them |
| ReferenceConfidence.ConfidenceOfVerdict | src/utils/confidence_utils.py:206-215 | its drift is the least number of edits from transcript to chosen rewrite per transcript word, its confidence the smaller of stability and 1 less the drift |
| ReferenceConfidence.NoVerdict | src/utils/confidence_utils.py:174-200 | without three usable rewrites, or with two that have no word, there is no confidence and the first usable rewrite, or the transcript, is the reference |
| ReferenceConfidence.TextOfVerdict | src/utils/confidence_utils.py:174-222 | the reference settled on is one of the rewrites without the space around it, the transcript exactly when all are blank |
| ReferenceConfidence.ConfidenceMeaning | src/utils/confidence_utils.py:170-215 | a reported confidence is in [0,1], and it is 1 if and only if there are three usable references and they and the raw transcript normalise to the same non-empty words |
| ReferenceConfidence.WeakestLink | src/utils/confidence_utils.py:206-215 | a reported confidence is the smaller of stability and clipped nearness of the medoid, one of the usable references, to the raw transcript |
| ReferenceConfidence.StabilityIgnoresOrder | src/utils/confidence_utils.py:180-207 | stability does not depend on the order in which the references are listed |
| ReferenceConfidence.MedoidIgnoresOrderExactly | src/utils/confidence_utils.py:202-206 | the chosen reference is the same in every order if and only if no other text ties with it |
| ReferenceConfidence.VerdictIgnoresOrder | src/utils/confidence_utils.py:170-215 | without a tie the whole verdict, and so the confidence, is the same in every order |
| TurnLog.TurnsStoredOnce | src/node/followUpDecisionGraph/graphConfig.py:155-176 | over any writes, retried and crashed archive runs included, turn orders are pairwise distinct and a stored turn never changes or leaves |
| TurnLog.RetriedArchiveAddsNothing | src/node/followUpDecisionGraph/graphConfig.py:161-176 | archiving a stored turn again leaves the stored turns as they were |
| TurnLog.ArchivedTurn | src/node/followUpDecisionGraph/graphConfig.py:57-176 | a turn archived for the first time carries the realtime words when there are any, else the recogniser's, their count of word-character runs, its prompt, audio, kind and duration; it is blank only if both texts are |
| TurnLog.FailedArchiveStoresNothing | src/node/followUpDecisionGraph/graphConfig.py:57-80 | an archive run without audio, or one cut short after its first node, stores no turn |
| TurnLog.TranscriptReadBack | src/infra/database/archive_store.py:203-262 | a recorded transcript is read back, unless one was recorded for the turn before |
| TurnLog.SnapshotIsResumed | src/infra/database/archive_store.py:128-168 | a question snapshot comes back on resume, until an archive run or another snapshot, and the remaining time stays in the checkpoint |
| TurnLog.BudgetIsResumed | src/infra/database/archive_store.py:193-200 | the reported budget, never negative, stays stored until another report |
| TurnLog.ResumeHandsOn | src/infra/database/archive_store.py:302-316 | a resume hands on stored budget, active prompt and transcripts, and exists only where a question or a turn is stored |
| TurnLog.ReadersIgnoreDoubling | src/node/followUpDecisionGraph/graphConfig.py:37-44 | although every node appends the other append channels to themselves, every reader answers as over the log without that |
| TurnLog.OneEntryMultiplied | src/node/followUpDecisionGraph/graphConfig.py:37-44 | the size of the effect: one recorded transcript is held 2^k times after k node runs |
| TurnLog.ArchiveMultipliesAll | src/node/followUpDecisionGraph/graphConfig.py:37-44 | one archive run holds markers, decisions and transcripts four times over, and adds its turn once |
| TurnLog.ResumedTurns | src/infra/database/archive_store.py:265-317 | the resumed turns are the stored ones merged with their last decisions, in increasing turn order |
| TurnLog.ResumedOrders | src/infra/database/archive_store.py:265-317 | a resume neither loses nor invents a turn order |
| TurnLog.FindTurnMeaning | src/infra/database/archive_store.py:89-101 | the search for a turn finds one of that order, and finds none only if there is none |
| ArchiveStore.Thread.PersistRealtimeTranscript | src/infra/database/archive_store.py:203-249 | a persist appends one entry or, when its write fails, changes nothing |
| ArchiveStore.Thread.PersistSpeechBudgetElapsed | src/infra/database/archive_store.py:193-200 | the spent budget is stored, never negative |
| ArchiveStore.Thread.InvokeArchive | src/node/followUpDecisionGraph/graphConfig.py:232-252 | one archive run is the two nodes through the channel reducers, the second only without an error |
| ArchiveStore.Thread.GetRealtimeTranscript | src/infra/database/archive_store.py:252-262 | the scan returns the first entry of the turn, text and confidence |
| ArchiveStore.Thread.GetResumeState | src/infra/database/archive_store.py:265-317 | dictionary building, merging turn by turn and sorting give the specified resume state, none when nothing was stored |
| ArchiveStore.WaitForTurn | src/infra/database/archive_store.py:104-125 | whatever is written between the polls, the wait answers with the first poll that shows the turn and gives up only after 51 polls that do not |
| PublishDecisions.DecisionOnRecord | src/infra/message_broker/publishers/turn_publisher.py:181-195 | over any run the decision on record for a turn is that of the call whose write landed last for it; there is none if none landed |
| PublishDecisions.PromptOnRecord | src/infra/message_broker/publishers/turn_publisher.py:181-195 | over any run the active prompt is the one that went with the write that landed last |
| PublishDecisions.LostWriteChangesNothing | src/infra/message_broker/publishers/turn_publisher.py:191-195 | a decision write that is lost changes nothing in the checkpoint, and the call goes on |
| PublishDecisions.DecisionIsResumed | src/infra/database/archive_store.py:265-317 | an archived turn comes back with reason, direction and next prompt of the call whose write landed last for it, and the session with the active prompt written last |
| PublishDecisions.EventsCarryReason | src/infra/message_broker/publishers/turn_publisher.py:223-266 | every event in Kafka gives the reason that was given to the call that sent it |
| PublishDecisions.CallsAreBegins | src/infra/message_broker/publishers/turn_publisher.py:150-180 | calls are what was begun, in order, and keep what they were given |
| TurnPublisher.EventsAccountedFor | src/infra/message_broker/publishers/turn_publisher.py:150-302 | over every interleaving, failure and cut-off, the events of a turn and phase in Kafka are its durable markers plus the calls lost between publish and marker plus those between the two now |
| TurnPublisher.ChannelsHoldMarkers | src/infra/message_broker/publishers/turn_publisher.py:218-302 | the marker channels, doubled by archive runs or not, hold exactly the markers written |
| TurnPublisher.MarkerImpliesEvent | src/infra/message_broker/publishers/turn_publisher.py:218-302 | a turn is marked in a phase only if that phase's event reached Kafka |
| TurnPublisher.LateCallIsSilent | src/infra/message_broker/publishers/turn_publisher.py:197-206 | a call that has not read the checkpoint when the full marker is durable publishes nothing, whatever follows |
| TurnPublisher.NoSecondPreliminary | src/infra/message_broker/publishers/turn_publisher.py:202-215 | a call that has not read the checkpoint when the preliminary marker is durable sends no preliminary event, whatever follows |
| PublishWindows.PublishedExactlyOnce | src/infra/message_broker/publishers/turn_publisher.py:234-302 | when every call that decides to send the full event gets to send it, a marked turn with no call about to send has gone out exactly once if and only if its publish windows never overlapped and no call was lost between publish and marker |
| PublishWindows.PublishedOnce | src/infra/message_broker/publishers/turn_publisher.py:234-302 | in any run whose publish windows of a turn do not overlap, full events number at most 1 + the calls lost between publish and marker, and a marked turn has exactly one if and only if no call was lost |
| PublishWindows.SerialCallsAreDisjoint | src/infra/message_broker/publishers/turn_publisher.py:150-302 | calls of which at most one at a time has not ended have windows that do not overlap |
| PublishWindows.OverlapPublishesTwice | src/infra/message_broker/publishers/turn_publisher.py:245-302 | two calls in the window publish twice with no failure at all |
| PublishWindows.WindowsCanOverlap | src/infra/message_broker/publishers/turn_publisher.py:245-267 | such an overlap is reached from the empty checkpoint |
| PublishWindows.CutOffPublishesAgain | src/infra/message_broker/publishers/turn_publisher.py:256-302 | after a call is cut off between publish and marker the next call publishes the turn again |
| PublishWindows.CutOffIsReached | src/infra/message_broker/publishers/turn_publisher.py:245-297 | the state before such a cut-off is reached from the empty checkpoint |
| PublishPhases.CallSendsPreliminary | src/infra/message_broker/publishers/turn_publisher.py:208-231 | a call that finds a realtime transcript and no marker sends the preliminary event with that text and its reason, marks it, and waits |
| PublishPhases.LaterCallGoesOn | src/infra/message_broker/publishers/turn_publisher.py:219-237 | a call that finds the preliminary marker sends nothing for it and goes on to the archived turn |
| PublishPhases.RaisedSendIsLost | src/infra/message_broker/publishers/turn_publisher.py:224-233 | a send that raised after reaching Kafka ends the call without a marker, whatever follows |
| PublishPhases.FailedSendLeavesNothing | src/infra/message_broker/publishers/turn_publisher.py:224-233 | a send that did not reach Kafka changes neither Kafka nor the checkpoint and ends the call |
| PublishPhases.CallPublishes | src/infra/message_broker/publishers/turn_publisher.py:245-297 | a call that finds its turn archived and not published sends the full event, with the stored turn and its reason, and marks it |
| PublishPhases.GivesUpAfter51 | src/infra/database/archive_store.py:104-125 | a call gives up exactly at the fifty-first poll that does not show its turn |
| PublishPhases.PreliminaryComesFirst | src/infra/message_broker/publishers/turn_publisher.py:197-231 | the full event of a call that saw a realtime entry or a preliminary marker comes after a preliminary event of the same turn |
| PublishPhases.PhasesTellTheSameSpeech | src/infra/message_broker/publishers/turn_publisher.py:92-127 | preliminary and full event of a turn with a spoken realtime transcript carry the same text, whatever the recogniser heard; the first counts its chunks, the second its runs of word characters |
| PublishPhases.PhasesCarryPrompts | src/infra/message_broker/publishers/turn_publisher.py:92-127 | the full event carries the answered prompt, the preliminary one the prompt the session has moved on to; they agree if and only if that is the answered one |
| PublishPhases.PhasesCountAlike | src/infra/message_broker/publishers/turn_publisher.py:66-125 | the two counts agree if and only if the chunks hold as many words as there are chunks: always with one word each, never with at least one each and some with more |
| PublishPhases.PhasesCountApart | src/infra/message_broker/publishers/turn_publisher.py:125-125 | the text it's goes out as one word and then as two |
| Text.TwoWordCounts | src/utils/text_utils.py:4-5 | the words of a text are those of its space-separated chunks, and how their number compares with the number of chunks |
| PublishPhases.PayloadKeepsSpeech | src/infra/message_broker/publishers/turn_publisher.py:35-78 | a payload is blank only if both the stored and the realtime transcript are; a kept transcript keeps its count, a replaced one is counted anew and holds a word; everything else is the turn's, and the reason the call's |
| DialogueLimit.OpenExactly | src/realtime/turn/processor.py:256-316 | a turn leaves the question open if and only if the model means to go on and none of the four brakes applies; else the first brake that applies stops it with its reason and without a next prompt |
| DialogueLimit.FlagsEndTheDialogue | src/realtime/turn/processor.py:286-316 | in any dialogue an exchange that reports a spent budget, or the last turn without a limit, is the last one |
| DialogueLimit.ClarificationNames | src/realtime/turn/processor.py:43-47 | which reasons are clarifications, and that an empty or other reason is none |
| DialogueLimit.EndsWithinThreeM | src/realtime/turn/processor.py:256-316 | for any decisions of the model and a client that reports the true count and a limit M >= 1, a question ends after at most 3M turns |
| DialogueLimit.RemainingTurns | src/realtime/turn/processor.py:256-316 | from any point, the turns left are at most 3(M - assessments) - trailing clarifications |
| DialogueLimit.ThreeMIsReached | src/realtime/turn/processor.py:256-316 | the bound is exact: some dialogue has 3M turns |
| DialogueLimit.NoLimitNoBound | src/realtime/turn/processor.py:256-316 | without the structured limit and the flags no number of turns is a bound |
| DialogueLimit.CountTrailing | src/realtime/turn/processor.py:33-40 | the backward loop counts the clarifications after the last assessment turn |
| DialogueLimit.CopiesDifferExactly | src/node/followUpDecisionGraph/followup_graph_helper.py:4-10 | for every reason, when the two tests for a clarification answer differently: by leading space, by case in the family name, by case in a fixed name, or by space after a fixed name |
| DialogueLimit.CopiesAgreeOnCanonicalReasons | src/node/followUpDecisionGraph/followup_graph_helper.py:4-10 | in particular they agree on every trimmed lower-case reason |
| DialogueLimit.CopiesDisagree | src/node/followUpDecisionGraph/followup_graph_helper.py:4-10 | they disagree on a reason with a capital letter |
| DialogueLimit.CopiesDisagreeOnPadding | src/realtime/turn/processor.py:43-47 | they disagree on a reason with a leading space |
| QuestionSession.PolicySurvivesStorage | src/realtime/turn/processor.py:58-87 | whatever the client sent, the stored transcript entry gives the same turn limit policy back |
| QuestionSession.RecoveryReplaysLivePath | src/realtime/turn/processor.py:155-207 | for any session driven live from its start: with its turns and decisions stored and no later turn archived ahead of its decision, recovery on a rebuilt session completes the same turn with the same clamped decision as the live path |
| QuestionSession.PendingDecidedExactly | src/realtime/turn/processor.py:155-207 | for any checkpoint, recovery decides the pending turn if and only if its transcript was stored and the last completed turn is the last one stored |
| QuestionSession.DrivenRunsFromStart | src/realtime/question/session.py:118-167 | whatever is said and decided, a live session has exactly the turns 1 to n and stands at n + 1 |
| QuestionSession.ResumeStandsAtLiveTurn | src/realtime/question/session.py:86-109 | for any checkpoint, a rebuilt session stands at the live turn if and only if the last completed turn is the last one stored, past it if and only if a later turn is stored, and one past it if and only if the pending turn is the last one stored |
| QuestionSession.DecidedAgainExactly | src/realtime/turn/processor.py:155-207 | for any checkpoint, recovery decides a finished turn again, under its own order, if and only if neither the last completed turn nor a later one was archived and the transcript of the turn the rebuilt session stands at was stored; without such a transcript the session stays as it is |
| QuestionSession.RepeatedDecision | src/realtime/turn/processor.py:192-207 | after any writes, recovery that decides nothing anew answers about the last stored turn with the decision recorded for it, if one was, and else with a stop without a reason |
| QuestionSession.TurnsStoredUndecided | src/node/followUpDecisionGraph/graphConfig.py:119-134 | archived turns carry no decision of their own, whatever was written |
| QuestionSession.ArchivedEarlyIsReached | src/realtime/turn/processor.py:155-207 | from the empty checkpoint: a pending turn with a stored transcript, archived ahead of its decision, is not decided on recovery, which answers with a stop nobody decided |
| QuestionSession.RecoveryAsksAlike | src/realtime/question/session.py:86-147 | on recovery the graph is asked with the live turn order, reasons, transcript and active prompt, with the prompt the checkpoint holds last, and without the remaining time |
| QuestionSession.ArchiveReplacesPrompt | src/node/followUpDecisionGraph/graphConfig.py:232-252 | an archive run puts its turn's prompt in the place of the question's, and its own question, paper item and language |
| QuestionSession.UnarchivedTurnIsReached | src/realtime/turn/processor.py:155-207 | such a checkpoint is reached by one live turn whose recording is not archived, and turn 1 is decided again |
| QuestionSession.TurnOrderStaysAhead | src/realtime/question/session.py:86-167 | completing, resuming and recovering keep the next turn order above every recorded one |
| QuestionSession.ResumedTurnsMatchLive | src/realtime/question/session.py:86-116 | the rebuilt turns have the live turns' orders and recorded reasons |
| QuestionSession.ResumedPosition | src/realtime/question/session.py:48-109 | a rebuilt session stands just after the greatest stored turn order, at 1 when there is none |
| QuestionSession.FailedGraphStops | src/realtime/turn/processor.py:209-254 | a decision graph that fails ends the question with its error as the reason and without a next prompt; one that answers is followed but for the brakes |
| QuestionSession.TurnRecorded | src/realtime/question/session.py:118-167 | the recorded turn has its order, kind, answered prompt, transcript, count, duration and reason |
| QuestionSession.PromptMovesOn | src/realtime/question/session.py:157-165 | the prompt moves on only in a dialogue that goes on, to the rewritten prompt or else the next one |
| QuestionSession.PromptOfLastDecision | src/realtime/question/session.py:157-165 | a live session stands at the prompt of the last decision that went on with one, or else at the question's own |
| QuestionSession.PromptOnResume | src/realtime/question/session.py:99-109 | a rebuilt session stands at the stored active prompt, else at the prompt of the greatest stored order, else at the question's own |
| QuestionSession.RecoveredTurn | src/realtime/turn/processor.py:176-190 | a recovered turn is recorded from its stored entry, its words counted anew |
| QuestionSession.BudgetIsKept | src/realtime/question/session.py:86-95 | a rebuilt session keeps the greater of its own and the stored budget |
| QuestionSession.PolicyRead | src/realtime/turn/processor.py:58-80 | how counts and flags of the turn limit policy are read from a message |
| QuestionSession.Session.CompleteTurn | src/realtime/question/session.py:149-167 | the turn with its reason is appended, the order advances, and the prompt moves on only if the dialogue continues |
| QuestionSession.Session.ApplyResumeState | src/realtime/question/session.py:86-116 | the greater budget is kept; turns, order and prompt follow the stored turns |
| QuestionSession.Session.DecideAndCompleteTurn | src/realtime/turn/processor.py:209-254 | the base decision is clamped by policy and trailing clarifications, then the turn is completed |
| QuestionSession.Session.CheckpointSpeechBudget | src/realtime/question/coordinator.py:122-143 | the spent budget never decreases, and is stored exactly when the report raises it |
| TurnBatch.EvaluateTurnBatch | src/infra/message_broker/external_events_handlers/exam_consumer.py:81-136 | returns if and only if every turn succeeds alone within its retries, with results in input order and no evaluation after a success; otherwise raises the failure with the least (attempt, index) |
| TurnBatch.AloneMeaning | src/infra/message_broker/external_events_handlers/exam_consumer.py:81-136 | a turn on its own succeeds if and only if its outcomes are at most R transient failures followed by a success |
| TurnBatch.BatchFailureIsFirst | src/infra/message_broker/external_events_handlers/exam_consumer.py:104-136 | there is a batch failure if and only if some turn fails alone, and it is the earliest by attempt, then index |
| TurnBatch.FirstFailureUnique | src/infra/message_broker/external_events_handlers/exam_consumer.py:104-136 | only one failure is the earliest |
| TurnBatch.Gather | src/infra/message_broker/external_events_handlers/exam_consumer.py:99-102 | one round evaluates every pending turn exactly once, failures included |
| ExamConsumer.HandleMessage | src/infra/message_broker/external_events_handlers/exam_consumer.py:910-1064 | the retry loop over one message, with the two variables no message resets |
| ExamConsumer.RunAttempt | src/infra/message_broker/external_events_handlers/exam_consumer.py:913-1031 | one attempt through the batch, the aggregate evaluation, the publish and the commit |
| ConsumerOutcome.MessageOutcome | src/infra/message_broker/external_events_handlers/exam_consumer.py:910-1064 | a valid message completes in attempt k if and only if the attempts before fail for now and attempt k is evaluated, published and committed; it is reported as failed if and only if such an attempt fails for good, or the last one for now, and the report goes through; k + 1 attempts either way |
| ConsumerOutcome.AttemptEnds | src/infra/message_broker/external_events_handlers/exam_consumer.py:913-1031 | an attempt ends as its faults say: completed, failed for now or failed for good |
| ConsumerOutcome.FaultlessMessageCompletes | src/infra/message_broker/external_events_handlers/exam_consumer.py:1027-1031 | without faults a valid message leaves exactly its completion and the commit, in one attempt |
| ConsumerOutcome.FatalTurnIsRetried | src/infra/message_broker/external_events_handlers/exam_consumer.py:1032-1044 | a fatal error of a turn is tried again, not reported at once |
| ExamConsumer.Consume | src/infra/message_broker/external_events_handlers/exam_consumer.py:910-1064 | messages are taken in order until one of them ends the consumer |
| ExamConsumer.MessageSafety | src/infra/message_broker/external_events_handlers/exam_consumer.py:912-1064 | any faults: at most max + 1 attempts, every commit after a terminal event of the message, own ids on Completed, max + 1 retries on Failed |
| ExamConsumer.StreamSafety | src/infra/message_broker/external_events_handlers/exam_consumer.py:910-1064 | the same for every message of every stream, and which message a Failed event names |
| ExamConsumer.TerminalEventsCounted | src/infra/message_broker/external_events_handlers/exam_consumer.py:912-1064 | terminal events are one for the end plus one per attempt that raised after its publish |
| ExamConsumer.StaleIdsAreReported | src/infra/message_broker/external_events_handlers/exam_consumer.py:1048-1052 | a message that cannot be turned into a dictionary is reported under the ids of the request before it |
| ExamConsumer.RejectedMessage | src/infra/message_broker/external_events_handlers/exam_consumer.py:1032-1064 | a rejected message ends the consumer if and only if no request has been validated before it or its report does not go through |
| ExamConsumer.BoundPublisherHasPayload | src/infra/message_broker/external_events_handlers/exam_consumer.py:915-934 | the failure publisher is bound if and only if some earlier request passed validation, and then a payload is known |
| ExamConsumer.ExhaustedTurnEndsTheMessage | src/infra/message_broker/external_events_handlers/exam_consumer.py:1032-1064 | a turn that stays transient ends its message in the first attempt, reported as max + 1 retries |
| AlertTrace.AlertIffTrace | src/infra/webrtc/proctoring_frame_processor.py:128-180 | an alert goes out on a frame if and only if the condition held on the last N frames and either no alert went out in this holding run or the cooldown has passed since the last one |
| AlertTrace.CloseAlertsAreSeparateRuns | src/infra/webrtc/proctoring_alert_policy.py:77-111 | two alerts closer than the cooldown have a non-holding frame between them, at least N frames before the second |
| AlertTrace.StreakMeaning | src/infra/webrtc/proctoring_alert_policy.py:101-111 | the streak is the length of the current holding run |
| AlertTrace.ActiveMeaning | src/infra/webrtc/proctoring_alert_policy.py:77-98 | the active flag is set if and only if an alert went out in the current holding run |
| AlertTrace.LastMeaning | src/infra/webrtc/proctoring_alert_policy.py:77-92 | the remembered time is that of the last alert |
| AlertPolicy.Policy.ProcessFrame | src/infra/webrtc/proctoring_frame_processor.py:128-180 | for every session and type, the alerts of a frame are those the trace predicate asks for, in the fixed order, and no other session is touched |
| AlertPolicy.Policy.ShouldEmitAlert | src/infra/webrtc/proctoring_alert_policy.py:77-92 | emits if and only if not active or the cooldown has passed, and then remembers both |
| AlertPolicy.Policy.ClearAlert | src/infra/webrtc/proctoring_alert_policy.py:95-98 | ends the active state of one session and type, and nothing else |
| AlertPolicy.Policy.ConditionConfirmed | src/infra/webrtc/proctoring_alert_policy.py:101-107 | lengthens one streak and compares it with N |
| AlertPolicy.Policy.ResetStreak | src/infra/webrtc/proctoring_alert_policy.py:110-111 | zeroes one streak, and nothing else |
| AlertPolicy.Policy.ClearSession | src/infra/webrtc/proctoring_alert_policy.py:147-152 | every gate of the session is as new and the other sessions keep theirs |
| FrameAlerts.HoldsMeaning | src/infra/webrtc/proctoring_frame_processor.py:92-165 | what the gates take for a type's condition: no confident person, at least two, a confident phone, a confident book or laptop |
| FrameAlerts.AlertNeedsShownFrames | src/infra/webrtc/proctoring_frame_processor.py:92-180 | an alert goes out only after the last N frames have all shown, in their detections, what it is about |
| FrameAlerts.FirstShownFramesAlert | src/infra/webrtc/proctoring_frame_processor.py:92-180 | the first N frames of a session that all show it raise it |
| FrameAlerts.CloseAlertsNeedAGap | src/infra/webrtc/proctoring_alert_policy.py:77-98 | two alerts of a type within the cooldown have a frame between them that did not show it |
| FrameAlerts.AlertNamesTheBest | src/infra/webrtc/proctoring_frame_processor.py:140-177 | the alert of an object names the most confident one with its confidence; one about persons names nothing |
| FrameAlerts.KindMeaning | src/infra/webrtc/proctoring_alert_policy.py:50-62 | a phone has an alert of its own, books and laptops share one, keyboard and mouse have none |
| AlertPolicy.Policy.ProcessDetections | src/infra/webrtc/proctoring_frame_processor.py:77-180 | a frame from its detections on: the loop over them, then the gates |
| AlertPolicy.Summarize | src/infra/webrtc/proctoring_frame_processor.py:92-115 | the person count and, for each type, the most confident candidate, the first of them on a tie |
| AlertPolicy.AlertsOfMeaning | src/infra/webrtc/proctoring_frame_processor.py:128-180 | one alert for each open gate, at most one a type, in the fixed order |
| FrameAlerts.ObjectsBeforePersons | src/infra/webrtc/proctoring_frame_processor.py:128-180 | in one frame's alerts the phone comes before any other object and objects before persons; never two person alerts |
| PeerRegistry.RegistryStaysConsistent | src/infra/webrtc/proctoring_session.py:93-171 | under every interleaving a mapped peer is in pcs and not closed, no peer serves two sessions, the quota holds, and the registry closes a peer at most once |
| PeerRegistry.OpenPeersAccountedFor | src/infra/webrtc/proctoring_session.py:112-171 | every open peer is mapped, overwritten, being cleaned up or stuck after a failed close; every peer made is mapped, closed or overwritten, one of these only |
| PeerRegistry.ClosedMeaning | src/controller/webrtc.py:79-139 | over any run the registry has asked a peer to close if and only if, while it was registered, its own state callback, a deletion or sweep of its session or an evicting offer came |
| PeerRegistry.CallbackClosesOnlyItself | src/controller/webrtc.py:122-139 | in one step, a state callback closes its own peer, and only while that peer is registered; the other sessions keep theirs |
| PeerRegistry.ReplacedPeerIsHarmless | src/infra/webrtc/proctoring_session.py:93-109 | a replaced peer stays replaced and its later callbacks do nothing |
| PeerRegistry.ReconnectKeepsTheSession | src/controller/webrtc.py:79-120 | over a whole reconnect, whatever comes between offer and finished eviction without ending the session: the old peer is asked to close, the new one is registered under its identity, the log only grows and the alert memory stays until a frame |
| PeerRegistry.IdentityMeaning | src/infra/webrtc/proctoring_session.py:39-66 | over any run a session has an identity if and only if its last registration gave it and the session has not ended since |
| PeerRegistry.MemoryMeaning | src/infra/webrtc/proctoring_session.py:112-171 | over any run the alert memory of a session is what its last frame left, unless the session has ended since |
| PeerRegistry.CleanupEndsTheSession | src/infra/webrtc/proctoring_session.py:137-171 | a finished cleanup removes log, identity and alert memory of its session and of no other |
| PeerRegistry.SessionSurvives | src/infra/webrtc/proctoring_session.py:85-171 | over any run in which a session does not end, its event log only grows, and its alert memory stays unless a frame is processed |
| PeerRegistry.LogHoldsBroadcasts | src/infra/webrtc/proctoring_session.py:86-90 | while a session does not end its log gains exactly the events broadcast to it, in order |
| PeerRegistry.LogSinceTheEnd | src/infra/webrtc/proctoring_session.py:86-166 | an ended session's log holds what was broadcast since |
| PeerRegistry.OnePeerPerSession | src/controller/webrtc.py:79-120 | no peer is orphaned if and only if no eviction finishes, within the quota, while its session is already mapped again |
| PeerRegistry.CompetingOffersLeaveAnOrphan | src/controller/webrtc.py:79-120 | two offers competing for a connected session leave an open peer no session maps |
| PeerRegistry.IdentityLostToLateCleanup | src/infra/webrtc/proctoring_session.py:137-171 | a mapped session lacks its identity if and only if at some step of the run it ended while a peer was mapped for it, and no later step registered it |
| PeerRegistry.LateCleanupStripsReconnected | src/infra/webrtc/proctoring_session.py:137-171 | an offer that arrives while the old peer is being closed loses its identity |
| PeerRegistry.Registry.OnConnectionLost | src/controller/webrtc.py:122-139 | only the registered peer's callback takes it out of the map to be closed; any other leaves the registry as it is |
| PeerRegistry.Registry.BeginEviction | src/infra/webrtc/proctoring_session.py:112-127 | the old peer leaves map and pcs before it is closed |
| PeerRegistry.Registry.AcceptOffer | src/controller/webrtc.py:93-120 | a new peer is registered with its identity exactly when the quota, counted after the eviction, allows it |
| PeerRegistry.Registry.BeginCleanup | src/infra/webrtc/proctoring_session.py:146-171 | the peer leaves the map before it is closed; without one the session is cleared at once |
| PeerRegistry.Registry.FinishCleanup | src/infra/webrtc/proctoring_session.py:149-171 | event log, identity and alert memory go, whoever holds the session by then |
| TaggedTranscript.ScanIsLossless | src/utils/speech_client.py:26-30 | scanning any text loses nothing, its tags are matches of the pattern, and no match starts at a plain character |
| TaggedTranscript.ScanIsUnique | src/utils/speech_client.py:26-30 | a text has only one such scan |
| TaggedTranscript.MatchMeaning | src/utils/speech_client.py:29-30 | the match at a position is the one tag the text begins with there |
| TaggedTranscript.UnchangedIffUntagged | src/utils/speech_client.py:32-76 | unwrapping removes six characters a tag, changes a text if and only if there is a tag to extract, and stripping leaves an untagged text alone |
| TaggedTranscript.RenderingIsUndone | src/utils/speech_client.py:441-452 | unwrapping a rendered transcript gives the plain segments joined by spaces, and extracting gives exactly the foreign segments in order |
| TaggedTranscript.StrippedWords | src/utils/speech_client.py:32-39 | stripping a rendered transcript keeps exactly the words of the target language, in order |
| TaggedTranscript.RatioMeaning | src/utils/speech_client.py:51-63 | the ratio before rounding is foreign words over all words of what was said, 0 when there are none |
| TaggedTranscript.WrittenDown | src/utils/speech_client.py:441-452 | a target and a foreign segment are written as text, space, bracketed capital code and text, and are readable without brackets |
| TaggedTranscript.LocaleCode | src/utils/speech_client.py:165-167 | the code of a locale is its two letters as capitals, and XX where there are none |
| TaggedTranscript.LocaleInTarget | src/utils/speech_client.py:441-444 | a segment is in the target language exactly when its locale starts with the target's letters |
| TaggedTranscript.WrappedReadBack | src/utils/speech_client.py:165-167 | a foreign text is read back from its tag if and only if the code has two capital letters and the text has no closing bracket |
| TranscriptAccumulator.EveryUtteranceInOneTurn | src/realtime/turn/transcript_accumulator.py:32-90 | over all interleavings every committed utterance is in exactly one batch or still held, in order, and each turn's snapshot is the summary of its own batch |
| TranscriptAccumulator.OnlyResetsDiscard | src/realtime/turn/transcript_accumulator.py:84-90 | without explicit resets every batch was delivered to a turn |
| TranscriptAccumulator.SpeechIsCommittedWhole | src/realtime/turn/transcript_accumulator.py:32-58 | a speech is committed once, by its final text or else by all its partials together, without remains of an earlier speech |
| TranscriptAccumulator.TurnConfidenceWithin | src/realtime/turn/transcript_accumulator.py:48-80 | a turn has a confidence if and only if an utterance had one, and it lies between the least and the greatest of those |
| TranscriptAccumulator.MeanOfTwo | src/realtime/turn/transcript_accumulator.py:48-80 | of two rated utterances each confidence weighs as much as its utterance has words |
| TranscriptAccumulator.WeightIsWordCount | src/realtime/turn/transcript_accumulator.py:52-52 | an utterance weighs its number of words |
| TranscriptAccumulator.WaitsOnlyForAFinal | src/realtime/turn/transcript_accumulator.py:39-72 | the end of a turn waits if and only if a speech has ended whose final text has not come |
| TranscriptAccumulator.SaidMoreThanOnce | src/realtime/turn/transcript_accumulator.py:32-82 | for every speech of every run, in any interleaving of speeches and turns: its words are committed more than once if and only if the live partial was committed with words of it before its own final text, or twice; and at most once per spoken partial and once more |
| TranscriptAccumulator.StateAfterIsRun | src/realtime/turn/transcript_accumulator.py:32-90 | a run of events that name their speeches is the run of its actions |
| TranscriptAccumulator.PartialsSaidOnce | src/realtime/turn/transcript_accumulator.py:32-82 | no partial text is said twice |
| TranscriptAccumulator.NeverSaid | src/realtime/turn/transcript_accumulator.py:32-90 | for every speech of every run: its words are never committed if and only if no final text of its own comes and, each time words of it became pending, they were lost or still are |
| TranscriptAccumulator.WordsAccountedFor | src/realtime/turn/transcript_accumulator.py:32-90 | words that became pending have been said, been lost, or are pending |
| TranscriptAccumulator.DropMeaning | src/realtime/turn/transcript_accumulator.py:32-90 | pending words are lost exactly by the start of a speech, a turn's end that does not wait, an answered wait, a reset, and a final event with a text of its own |
| TranscriptAccumulator.UnfinishedSpeechIsLost | src/realtime/turn/transcript_accumulator.py:32-90 | a turn that ends while a speech goes on, whose final event then brings no text, loses what was heard of it |
| TranscriptAccumulator.PiecesMakeThePartial | src/realtime/turn/transcript_accumulator.py:32-72 | the live partial is made of the partial texts, speech by speech, since it was last cleared |
| TranscriptAccumulator.SayingCommits | src/realtime/turn/transcript_accumulator.py:43-72 | a step that says a speech commits one utterance, the trimmed partial or final text |
| TranscriptAccumulator.SpeechCommittedTwice | src/realtime/turn/transcript_accumulator.py:32-82 | in any run a stretch from a speech's start, begun while nothing is awaited, with one end of speech and one final event, commits at most twice, and twice if and only if a wait ran out on a non-blank partial before the final settled |
| TranscriptAccumulator.CommittedMoreThanOnce | src/realtime/turn/transcript_accumulator.py:32-82 | from any state, a stretch with one final event commits more than once if and only if a promoted partial is followed by the settling final or by another promoted partial |
| TranscriptAccumulator.LateFinalIsHeardTwice | src/realtime/turn/transcript_accumulator.py:60-82 | an utterance whose final text comes after the wait ran out is said in two turns |
| TranscriptAccumulator.LateFinalIsReached | src/realtime/turn/transcript_accumulator.py:60-82 | such a run exists from the start: both of its turns say the whole speech |
| TranscriptAccumulator.LateFinalAfterNextStart | src/realtime/turn/transcript_accumulator.py:32-82 | so does one in which the next speech starts before the late final text |
| TranscriptAccumulator.TranscriptAccumulator.OnFinalTranscript | src/realtime/turn/transcript_accumulator.py:43-58 | the final text, or the partial in its place, is appended and weighted; the wait is released |
| TranscriptAccumulator.TranscriptAccumulator.BeginConsume | src/realtime/turn/transcript_accumulator.py:60-68 | a snapshot and a reset at once, or a wait that changes nothing |
| TranscriptAccumulator.TranscriptAccumulator.FinishConsume | src/realtime/turn/transcript_accumulator.py:69-82 | on a timeout the partial is promoted without a confidence; then snapshot and reset |
| Consensus.RunConsensusJudgment | src/utils/confidence_utils.py:399-443 | the collecting loop, the stable sort and the aggregation give the specified judgment or error |
| Consensus.JudgmentIgnoresCompletionOrder | src/utils/confidence_utils.py:399-443 | selected score, spread, confidence and whether there is a judgment do not depend on which judge finishes first |
| Consensus.JudgmentsIgnoreCompletionOrder | src/utils/confidence_utils.py:461-586 | nor, for several criteria at once, does it matter which round finishes first: whether every criterion is scored, and the score, spread and confidence of each |
| Consensus.UniqueScoreSelects | src/utils/confidence_utils.py:433-434 | nor does the selected response, when the selected score is one judge's only |
| Consensus.MajorityDecides | src/utils/confidence_utils.py:433-434 | the selected score lies in every interval that holds more than half of the valid scores, with three in any that holds two |
| Consensus.GreaterOfTwo | src/utils/confidence_utils.py:433-434 | with two valid scores the greater one is selected |
| Consensus.ValidExactly | src/utils/confidence_utils.py:411-417 | the answers that count are the finite scores on the range, its ends included |
| Consensus.OneScoreHasNoConfidence | src/utils/confidence_utils.py:426-431 | one valid score is reported without confidence |
| Consensus.NoJudgmentExactly | src/utils/confidence_utils.py:418-430 | there is no judgment exactly when no answer counts; then the first failure is raised, if there is one |
| Consensus.FailuresAre | src/utils/confidence_utils.py:412-419 | a judge fails by its own error or by an unreadable score, not by one off the range |
| Consensus.FirstFailedIs | src/utils/confidence_utils.py:503-511 | of several rounds the first that failed |
| Sorting.SortByIsStable | src/utils/confidence_utils.py:433-433 | answers with equal scores keep their order of completion when sorted |
| Consensus.ConfidenceMeaning | src/utils/confidence_utils.py:426-443 | confidence is in [0,1], and 1 if and only if two or more scores are valid, all equal, and not most are ungrounded |
| Consensus.SpreadAndConfidence | src/utils/confidence_utils.py:435-443 | spread and confidence in terms of the most and the least generous judge, and the cost of a majority without grounding |
| Consensus.UngroundedMeaning | src/utils/confidence_utils.py:440-442 | the penalty counts the answers that are not grounded |
| Consensus.DeltaWithinTen | src/utils/confidence_utils.py:435-437 | on a proper range the spread is at most ten, and a spread of two leaves no confidence |
| Consensus.RunMultiCriterion | src/utils/confidence_utils.py:461-586 | succeeds if and only if every criterion has a valid score, and then judges each as if it had been asked alone; otherwise it raises the first failed round, when there is one |
| Consensus.CollectRounds | src/utils/confidence_utils.py:489-545 | the rounds are split over the criteria, each keeping exactly its own valid answers |
| Consensus.JudgeAll | src/utils/confidence_utils.py:555-586 | every criterion is aggregated, or the loop stops at one without a valid score |
| DifficultyScale.Levers | src/schemas/question_generation.py:233-247 | the easiest question has level 1, and each lever lifts the level by its own weight |
| DifficultyScale.ProfilesInOrder | src/schemas/question_generation.py:305-316 | abstract profiles about the here and now come last, and mixed ones after the others on either side |
| DifficultyScale.WhichWayIsExact | src/schemas/question_generation.py:252-341 | raw level to rank and back loses nothing if and only if there are six bands or more; rank to raw level and back if and only if there are at most six; for any tie rule of the rounding |
| DifficultyScale.HarderIsNotLower | src/schemas/question_generation.py:318-341 | ranks lie in 1..N and never fall when the raw level rises |
| DifficultyScale.EndsMeet | src/schemas/question_generation.py:252-341 | lowest meets lowest and highest meets highest on every scale, but a single band asks for the easiest level |
| DifficultyScale.NineBands | src/schemas/question_generation.py:324-327 | nine bands: exactly the ranks 1, 3, 4, 6, 7, 9 are given |
| DifficultyScale.WideScaleKeepsRaw | src/schemas/question_generation.py:318-341 | with N >= 6 bands raw_for_rank undoes difficulty_rank |
| DifficultyScale.NarrowScaleKeepsRank | src/schemas/question_generation.py:252-268 | with N <= 6 bands difficulty_rank undoes raw_for_rank |
| DifficultyScale.ProfilesHaveTheRank | src/schemas/question_generation.py:252-316 | with at most six bands every profile offered for a rank has that rank, and there is one |
| DifficultyScale.ProfilesMeaning | src/schemas/question_generation.py:292-316 | the profiles of a level are one for every way of having that level, none repeated, none missing, with two or five elements |
| DifficultyScale.LevelSizes | src/schemas/question_generation.py:281-283 | the sixty profiles spread over the six levels as 2, 9, 18, 19, 10, 2, as documented |
| DifficultyScale.FeatureProfilesForRaw | src/schemas/question_generation.py:271-316 | the nested loops and the stable sort produce exactly that list, in order of preference |
| NearestQuestion.MaxSimilarity | src/node/questionGenerationGraph/question_generation_graph_helper.py:99-145 | for every correct reply of the index to a query of size min(total, excluded + 5), the result is the brute-force greatest similarity to an active question that is not excluded, 0 if there is none, in [0,1], and the only such value however ties are broken |
| NearestQuestion.GreatestFromLeastDistance | src/node/questionGenerationGraph/question_generation_graph_helper.py:99-145 | that value is one minus the least distance to an active question that is not excluded, cut off to the unit interval |
| NearestQuestion.ReplyHoldsAllowed | src/node/questionGenerationGraph/question_generation_graph_helper.py:129-145 | pigeonhole: a reply to a query for more entries than are excluded holds an allowed one unless there is none |
| NearestQuestion.FirstAllowedIsNearest | src/node/questionGenerationGraph/question_generation_graph_helper.py:139-144 | the first allowed entry of a reply is the nearest of all allowed ones |
| NearestQuestion.ShorterQueryMisses | src/node/questionGenerationGraph/question_generation_graph_helper.py:130-130 | a query for only as many entries as are excluded can miss a perfect match |
| LogprobConfidence.BetweenTailAndWhole | src/infra/voice_live_client.py:148-166 | in log space the confidence lies between that of the least likely fifth of the tokens and that of all tokens |
| LogprobConfidence.SquareIsProduct | src/infra/voice_live_client.py:162-166 | the square of the confidence is the product of that of the whole and that of the tail; there is none without a known token |
| LogprobConfidence.KnownSkips | src/infra/voice_live_client.py:156-160 | entries without a log-probability are passed over |
| LogprobConfidence.TailMeaning | src/infra/voice_live_client.py:163-164 | the tail holds the least likely tokens: none outside it is less likely than one inside |
| LogprobConfidence.TailSize | src/infra/voice_live_client.py:163-163 | the tail is the least whole number of tokens that is at least a fifth of them |
| LogprobConfidence.OrderOfTokensIrrelevant | src/infra/voice_live_client.py:148-166 | the order of the tokens does not matter |
| LogprobConfidence.ConfidenceAtMostOne | src/infra/voice_live_client.py:148-166 | probabilities of at most one give a confidence of at most one |

## Left out

- Signal processing of audio, object detection, WebRTC media, S3, gRPC, HTTP and authentication: only their outcomes appear.
- Prompts, feedback text, response shaping, logging, usage accounting, pricing and configuration.
- Merging of validity results and de-duplication of rules in the consumer, and the construction of the completed events: they build values without state.
- `merge_decision_node` and the decision graph's own nodes: a decision is whatever the graph answers.
- `route_voice_event` and `start_question`: dispatch to the operations modelled here.
- The clamp of response seconds in `src/schemas/question_generation.py:111-128`, `rank_distribution`, `percentile` and the follow-up counters: each property would be visible in one body.
- The practice session and its coordinator: near-copies of the exam session that keep no further property.
- The websocket attempt connection: message plumbing around the coordinator.
- Floating-point rounding, including the two-digit rounding of the code-switching ratio; infinite score ranges.
- Unicode case folding and the removal of Vietnamese diacritics before word error rates: an arbitrary normaliser stands for them.
- The exponential and the square root of the log-probability confidence: it is stated in log space.
- The test whether a judge's note or evidence spans quote the transcript: whether an answer is grounded is an input.
- Approximate replies of the vector index: its replies are taken to be exact, with ties in any order.
- The default ids of a JSON object without them: the ids of a message are those its dictionary gives, or the defaults.
- SSE subscribers of a proctoring session: they see the event log that is modelled, and keep no state of their own.
- `publish_turn_if_new` as a sequential method: it is modelled by its steps, since what matters is how several calls interleave.
