# Verified model of the dakcoder extension's core logic

A Dafny model of the parts of the VS Code extension that hold real algorithms
and protocols, with proofs of what they are for. `dafny verify dfyconfig.toml`
checks the whole project.

- **Line diff** (`TextDiff.dfy`, `TextPatch.dfy`): the LCS table filled in place,
  the edit script walked out of it, context, hunks and header numbers, the
  printed text; a reader and an applier that undo it.
- **Event stream** (`Sse.dfy`, `FrameFields.dfy`): the incremental parser as an object fed chunk by
  chunk, against decoding the whole text at once. The format is that of section
  9.2 "Server-sent events" of the WHATWG HTML standard, except that a lone CR
  ends no line.
- **Run state** (`RunSpec.dfy`, `RunState.dfy`, `Ladder.dfy`, `Stream.dfy`,
  `Declared.dfy`): the object that ingests events, holds a row back for its twin,
  caps the transcript and remembers the gate ladder, proved against functions on
  values; then theorems over whole uninterrupted runs, in terms of the events
  alone.
- **Reconnecting** (`Following.dfy`, `Network.dfy`, `Loop.dfy`): a client and what
  faults do to its picture; server log, link and client as a state machine, with
  attachments, drops, repeats, skips, refusals, giving up and what aborted
  connections still deliver; and the loop itself over scripts of connections.
- **Approvals** (`Approvals.dfy`, `Polls.dfy`): the pending cards, the bounded
  memory of answered ids, and reconciliation with a poll, card by card.
- **Token refresh** (`Auth.dfy`, `Answers.dfy`, `Races.dfy`, `RaceRuns.dfy`): any
  number of windows that share one stored secret, and the gateway that spends,
  issues and revokes, as a state machine over their await points; what a refresh
  answers; what ends a family; and concrete runs.
- **Names and plans** (`Naming.dfy`, `Plurals.dfy`, `Plan.dfy`, `PlanReading.dfy`,
  `PlanRoundTrip.dfy`, `PlanSession.dfy`): identifier splitting and case
  conversion; the Markdown plan read, reordered, written and read again.
- `Text.dfy`: splitting, joining, trimming, line ends and numerals.

`Number`, `JSON.parse`, the reader of task-list lines, `Math.random`, the verdict
of approval policy and the clock behind deadlines enter as parameters.

## Findings

Where the code does less than its comments or an obvious reading promise, the
exact condition is proved:

- A diff whose path holds a line end cannot be read back, and that is the only
  case (`TextPatch.ReadBack`).
- A diff that creates or empties a file numbers its empty side one too high for
  the unified format, and that is the only case in which a strict patch by the
  format's numbers refuses it (`TextPatch.FormatAccepts`).
- The reconnect limit counts a dropped connection that did deliver events as a
  first failure, so after one such drop eleven silent connections suffice
  (`RunState.FailuresMeanSilence`).
- Giving up and being refused overwrite what the events said; exactly then, until
  the session is attached again, the panel differs from an uninterrupted run
  (`Network.OneLoop`), in its outcome, last error and mere mentions of paths
  (`Following.AlwaysAgrees`, `Following.MadeGood`).
- An event the server passes over is lost for good as soon as a later one is
  taken, and nothing in the client notices (`Network.EverySchedule`,
  `Network.MissedStays`). The replay of the runtime can pass one over: it sets its
  own mark from the log after the backlog is sent.
- A connection closes at the first `end` it delivers, so a log with an `end`
  before its last event needs another attachment (`Network.CatchesUpWhen`).
- The live text mixes two connections exactly when it spans two attachments
  (`Network.LiveTextOrigins`); a dropped link clears it, a new attachment does not
  (`Network.TextJoinsAcrossAttach`).
- The test that a held row and its plan share a turn never decides anything
  (`Following.TurnNeverDecides`).
- A poll can lose an approval it lists: with a full memory one automatic approval
  is enough (`Approvals.OneAutomaticIsEnough`; exactly when, in
  `Approvals.LostExactly`). Answering an id again does not renew its place in the
  memory (`Approvals.RepeatDoesNotRenew`).
- Presenting a spent token ends its family, so the single re-read and retry cannot
  save a window that another has overtaken: within one family nothing is granted
  after a rejection (`Auth.RetryIsFutile`). It can only save one whose user signed
  in anew (`RaceRuns.RetrySavesNewSignIn`).
- Windows that lose nothing end their family exactly when two of their refreshes
  overlap between read and store (`Races.OverlapEndsFamily`), in either direction
  (`RaceRuns.RotatedBeforeWePost`, `RaceRuns.ReadBeforeWeStore`). The single-flight
  guard is per window and does not prevent it.
- One window alone ends its family when a rotated token is lost or cannot be
  stored (`RaceRuns.LostAnswerEndsFamily`): a refresh that runs alone keeps its
  window signed in exactly when the stored secret was live (`Races.AloneIff`), and
  the steps after which it may not be are exactly those of `Races.InTouchStep`.
- A refused refresh deletes whatever is stored by then, a new sign-in's live token
  included (`RaceRuns.NewSignInIsDeleted`).
- A caller whose token was refused can be handed that token back: it joins a
  refresh that has already given up but has not been taken down
  (`RaceRuns.JoinedTooLate`). That is the only way (`Answers.CallerGetsAnother`).
- A name whose last word is `constructor` has no plural: the irregular-plural
  table is a plain object and the look-up finds an inherited function. The wizard
  accepts such a name (`Plurals.ConstructorIsAccepted`), and no other name fails
  (`Plurals.InferredNamesPass`).
- A plan that marks a unit `ALREADY_MIGRATED` does not keep it: underscores are
  stripped as markup (`PlanRoundTrip.AlreadyMigratedIsLost`). The exact condition
  for a row to be read back is `PlanRoundTrip.RowRoundTrip`.

## Model

| member | source | states |
|---|---|---|
| TextDiff.FillTable | extension/src/textdiff.ts:57-70 | the table filled bottom-up in place holds, in every entry, the number of common lines still reachable from there, within 32-bit entries |
| TextDiff.Operations | extension/src/textdiff.ts:48-94 | `null` exactly past the 3000-line cap; otherwise a script that spells both sides and has no more '+' and '-' lines than any script between them |
| TextDiff.LcsNeighbours | extension/src/textdiff.ts:62-69 | skipping one line on either side loses at most one common line and gains none, the fact that makes the greedy walk safe |
| TextDiff.KeepsAtMostLcs | extension/src/textdiff.ts:62-69 | no script at all keeps more lines than the table promises |
| TextDiff.ScriptIsOptimal | extension/src/textdiff.ts:72-93 | taking equal heads and deleting on ties costs no more than any other script between the two sides |
| TextDiff.EqualHeadsKept | extension/src/textdiff.ts:72-80 | wherever the walk stands before two equal lines it keeps them |
| TextDiff.RemovesFirst | extension/src/textdiff.ts:80-93 | on ties it deletes: no added line stands directly before a removed one |
| TextDiff.ScriptChangesNothing | extension/src/textdiff.ts:72-93 | the script has no change exactly when the two line sequences are equal |
| TextDiff.Bookkeeping | extension/src/textdiff.ts:130-133 | each side's length is the kept lines plus its own changed lines, whatever the script |
| TextDiff.SameLines | extension/src/textdiff.ts:97-103 | two texts have the same lines exactly when they differ at most in CRLF against LF and one final line end, and both or neither are empty |
| TextDiff.LinesOfJoined | extension/src/textdiff.ts:97-103 | lines joined by either line end, with a final one or without, are read as those lines |
| TextDiff.MarkContext | extension/src/textdiff.ts:135-143 | the in-place boolean array marks exactly the operations with a change within three of them |
| TextDiff.ShownWithinThree | extension/src/textdiff.ts:135-143 | an operation is shown exactly when a change lies within three of it |
| TextDiff.PrintAll | extension/src/textdiff.ts:164-196 | the loop's running line counters print exactly the hunks cut from the script, with real starts and spans |
| TextDiff.Unified | extension/src/textdiff.ts:113-199 | text, counts and the coarse mark are those of the diff that `StatIsRead`, `CoarseStat`, `ReadBack` and `DiffApplies` speak of |
| TextPatch.PatchHunks | extension/src/textdiff.ts:164-196 | applying the hunks of any script at their header starts and spans turns the lines it consumes into the lines it produces |
| TextPatch.UnpatchHunks | extension/src/textdiff.ts:164-196 | applied in reverse they turn the new lines back into the old |
| TextPatch.HunksAreApart | extension/src/textdiff.ts:164-196 | hunks are in order, disjoint, separated by a dropped line, and equally far apart on both sides |
| TextPatch.HunksHoldTheChanges | extension/src/textdiff.ts:135-143 | hunks hold every change of the script, and none is context alone |
| TextPatch.ReadPrinted | extension/src/textdiff.ts:194-195 | a reader that consumes lines by each header's spans recovers the printed hunks, whatever the lines look like |
| TextPatch.SilentDiff | extension/src/textdiff.ts:155-157 | a diff that is not coarse has an empty text exactly when no line differs |
| TextPatch.ReadBack | extension/src/textdiff.ts:158-198 | the printed text reads back to its hunks if and only if the path is on one line (or nothing was printed) |
| TextPatch.DiffApplies | extension/src/textdiff.ts:158-196 | what is read back from the text patches the old lines to the new and, reversed, the new to the old, with an empty side numbered as the code numbers it |
| TextPatch.FormatAccepts | extension/src/textdiff.ts:105-112 | by the unified format's own numbering, where an empty side names the line before it, the hunks are accepted if and only if there are none or neither text is empty |
| TextPatch.CoarseDiff | extension/src/textdiff.ts:120-127 | the coarse summary is given exactly for differing texts past the cap, and the counts always balance the two lengths |
| TextPatch.StatIsRead | extension/src/textdiff.ts:128-133 | for a diff that is not coarse the two counts are the numbers of '+' and '-' lines a reader finds in the text, and their sum is at most the changes of any script between the two sides |
| TextPatch.CoarseStat | extension/src/textdiff.ts:120-127 | past 3000 lines, and only then, the counts are the lengths of the two sides and nothing is printed |
| Sse.DecodeFrame | extension/src/client.ts:452-481 | the field loop computes the event the frame's fields stand for |
| Sse.Parser.Feed | extension/src/client.ts:413-441 | one chunk, cut anywhere, yields exactly the events that the text read so far gained over the text before it |
| Sse.Parser.Drain | extension/src/client.ts:428-440 | every complete frame in the buffer is decoded in order and what follows the last one is kept |
| Sse.ParseSse | extension/src/client.ts:393-450 | the events are those of decoding the concatenated text at once, so where chunks fall cannot matter |
| Sse.HeldCrHidesNothing | extension/src/client.ts:401-426 | holding back a final CR hides no complete frame |
| Sse.CutChunk | extension/src/client.ts:413-426 | folding line ends chunk by chunk, with the CR put back, is folding the whole |
| Sse.FramesOfConcat | extension/src/client.ts:428-440 | the frames of a longer text are those of its prefix followed by those of the remainder |
| Sse.DecodeOfPrefix | extension/src/client.ts:393-450 | more text never changes the events already yielded |
| Sse.CrLfDecodesAlike | extension/src/client.ts:401-426 | a stream with CRLF line ends decodes to the same events as with LF |
| Sse.FieldOfLine | extension/src/client.ts:457-469 | a written field line is read as that field, with only one leading blank dropped |
| FrameFields.FieldsStand | extension/src/client.ts:452-471 | for any lines: the id is the number on the last `id` line, or the inherited one; the kind is the last `event` line's; the data are those of all `data` lines, in order; comments and unknown names count for nothing |
| FrameFields.OneField | extension/src/client.ts:457-466 | a line assigns one value to one field: what is behind its first colon, less one leading blank |
| FrameFields.FrameStands | extension/src/client.ts:472-481 | a frame gives no event exactly when it has neither kind nor data; otherwise its id, and its data joined by line ends and decoded, or marked as skipped |
| FrameFields.InheritedId | extension/src/client.ts:428-440 | a frame without an id inherits that of the last event before it |
| Sse.RoundTrip | extension/src/client.ts:411-481 | events written as frames, with multi-line data and keep-alive comments between them, are received as sent, under LF and under CRLF |
| Ladder.Build | extension/src/session-state.ts:402-431 | attempts ascending and distinct, stages in first-appearance order, each cell the last stage recorded for it |
| Ladder.LadderUnique | extension/src/session-state.ts:402-431 | that description determines the ladder, so a remembered one equals any rebuild |
| Ladder.AppearancesUnique | extension/src/session-state.ts:407-416 | there is only one list of names in first-appearance order |
| RunState.RunState.AppendRow | extension/src/session-state.ts:1086-1095 | evicted batches followed by the transcript are all rows ever appended, in order, with at most 500 kept, and the tool index reaches exactly the rows it may |
| RunState.RunState.Evict | extension/src/session-state.ts:1088-1092 | the oldest row goes to the archive and its call is forgotten |
| RunState.ReachStep | extension/src/session-state.ts:880-951 | how one more row changes which tool rows a result can reach |
| RunState.ReachedIsKept | extension/src/session-state.ts:922-935 | a tool row a result can reach is still in the transcript, and it is the only one for its call |
| RunState.IndexStep | extension/src/session-state.ts:895-898 | the index stays exact: an entry for a call exactly when one of its rows can be reached |
| RunState.RunState.ReleaseHeld | extension/src/session-state.ts:1109-1115 | the held row is emitted once and the live buffer cleared for an assistant row |
| RunState.RunState.SettleHeld | extension/src/session-state.ts:829-1020 | a held row is dropped when its twin came and emitted otherwise |
| RunState.RunState.NoteMutation | extension/src/session-state.ts:1131-1145 | one report updates the recorded kind and protection of its path and of no other |
| RunState.RunState.GateLadderOf | extension/src/session-state.ts:402-431 | the memoised ladder is always the ladder of the gate history |
| RunState.RunState.OnToolResult | extension/src/session-state.ts:912-951 | a result goes into its call's row or makes a row of its own, and nothing else changes |
| RunState.RunState.OnGate | extension/src/session-state.ts:953-964 | a verification gate joins the ladder's history, a compaction does not |
| RunState.RunState.OnFinish | extension/src/session-state.ts:1009-1037 | the outcome is recorded, waiting approvals and calls cleared, and a repeated error row suppressed |
| RunState.RunState.OnEnd | extension/src/session-state.ts:1039-1075 | `end` is terminal but never overwrites the outcome `finish` set |
| RunState.RunState.IngestEvent | extension/src/session-state.ts:770-828 | a duplicate is refused before anything sees it; any other event reaches raw consumers and moves the whole state as specified (over whole runs, what that comes to is stated in `Declared` of the events alone) |
| RunState.RunState.Deliver | extension/src/session-state.ts:665-680 | a connection ingests and re-emits its events as far as the first `end`, and no further |
| RunState.RunState.Follow | extension/src/session-state.ts:661-752 | the reconnect loop leaves the state, the re-emitted events and the verdict of the walk that the network lemmas speak of; it sleeps per failure count, gives up at twelve, and a running session with only retriable drops ends no other way |
| RunState.RunState.Attend | extension/src/session-state.ts:665-707 | how one connection ends the loop or asks for another attempt, in order of precedence, and the whole state, connection and re-emitted events it leaves in every case |
| RunState.FailuresMeanSilence | extension/src/session-state.ts:662-727 | the failure count is n exactly when the last n-1 connections delivered nothing and the one before them did |
| RunState.SilentFromTheStart | extension/src/session-state.ts:662-727 | with no event since the start, only twelve silent connections in a row reach the limit |
| RunState.LostMeansSilence | extension/src/session-state.ts:710-746 | giving up means eleven silent connections after one that may have delivered, having slept at least 90,750 ms and less than 136,125 ms |
| RunState.ElevenSleeps | extension/src/session-state.ts:754-759 | the bounds on the total sleep hold whatever the jitter |
| RunState.SleepBounds | extension/src/session-state.ts:754-759 | sleeping through the first n delays lies between the table's sum and one and a half times it |
| RunState.BackoffTable | extension/src/session-state.ts:56 | the table starts at 250 ms, doubles up to 8000 and stays at 15000 |
| RunState.JitterIs | extension/src/session-state.ts:754-759 | the jitter is the roll's share of half the table's entry, rounded down |
| RunState.RunState.GiveUp | extension/src/session-state.ts:729-743 | giving up shows an error in the words of the lost runtime, detaches, and clears what waits |
| Stream.TranscriptIsDeclared | extension/src/session-state.ts:829-1037 | with no drop and no timer the rows are the declared ones: an assistant or error row is omitted exactly when the next releasing event says it again |
| Stream.DeclaredStep | extension/src/session-state.ts:829-1037 | each event keeps the transcript, the held row and the picture as declared |
| Declared.EveryRowHasItsEvent | extension/src/session-state.ts:829-1037 | over every uninterrupted run, from the events alone: each row stands for one event, in event order, with its id, turn, kind and text; user, steer, plan, tool-call, gate and `finish` events always have one, an assistant or error event as soon as the next event that lets go does not say it again, a result exactly when its call can reach no row, no other event ever |
| Declared.EverySentenceStands | extension/src/session-state.ts:829-1037 | once an event has let go, every assistant or error sentence stands in a row: its own, or that of the plan or `finish` that repeats it |
| Declared.FiguresAre | extension/src/session-state.ts:834-1037 | turn, mode, attempt, plan, usage, last error, gates, compactions and attachment are what the last events that name them say |
| Declared.OutcomeIs | extension/src/session-state.ts:1009-1075 | status and summary are those of the event that decided the outcome, which a turn started since opens again |
| Declared.WaitingAre | extension/src/session-state.ts:890-951 | the calls in flight and the approvals waiting are exactly those not settled since |
| Declared.PathsAre | extension/src/session-state.ts:1131-1150 | a path is listed exactly when some event speaks of it, with the kind and protection its changes give it |
| Declared.PathStoryTold | extension/src/session-state.ts:1131-1145 | deleted last means deleted; created and not deleted since means created; any other change means modified |
| Declared.ResultsStand | extension/src/session-state.ts:912-951 | each row that has a result has the last one that went to it: to the row its call could reach, or to one of its own |
| Declared.LiveTextIs | extension/src/session-state.ts:803-1127 | the live text is the deltas since it was last cleared |
| Declared.CursorIs | extension/src/session-state.ts:800-827 | the cursor is the id of the last stored event that has one |
| Stream.TwinIsSaidAgain | extension/src/session-state.ts:866-868 | in an uninterrupted run a held row is dropped exactly when the event says it again |
| Stream.TurnOfWaiting | extension/src/session-state.ts:866-868 | no turn can start while a row is held |
| Stream.PathStory | extension/src/session-state.ts:1131-1150 | for every sequence of reports: delete if last, else create if one stands since the last delete, else modify; protected once reported; path-only reports change no kind |
| Stream.VerdictStep | extension/src/session-state.ts:1138-1142 | one more mutation changes the declared kind exactly as the code does |
| Stream.TouchedIsTold | extension/src/session-state.ts:912-1037 | the touched set of a whole run is what all its reports, in order, say |
| Network.EverySchedule | extension/src/session-state.ts:578-752 | for every log and every schedule of attachments, drops, reconnects, repeats, skips, refusals, timers and leftovers of aborted connections: what is passed on is in log order, each event once; the picture is that of those events and the faults met in their order; row ids ascend; and there is no gap if and only if no event was taken before an earlier one |
| Network.NetSoundStep | extension/src/session-state.ts:661-752 | each step of the network, the loop and the client keeps this |
| Network.MissedStays | extension/src/session-state.ts:819 | an event passed over for a later one is missed for good: the guard refuses it ever after |
| Network.HeldRowIsWritten | extension/src/session-state.ts:1097-1115 | the hold timer, a detachment and a dropped link each write the held row out once and hold none |
| Network.NoSkipNoGap | extension/src/session-state.ts:661-752 | while the server skips nothing, what is passed on is a prefix of the log, leftovers of aborted connections included |
| Network.OneLoop | extension/src/session-state.ts:684-743 | until the session is attached again the picture is that of one uninterrupted delivery of what was taken, if and only if the loop has neither given up nor been refused in words that are not the last error's already |
| Network.GivesUpWhen | extension/src/session-state.ts:662-728 | over every schedule a drop gives up a going run exactly when it is the twelfth since the session was attached or an event last came on the loop's connection |
| Following.SteadyTake | extension/src/session-state.ts:800-827 | whatever events arrive in whatever order: only those above the cursor are taken, and they keep the client as one uninterrupted delivery of them would |
| Following.OneFaultShows | extension/src/session-state.ts:684-743 | giving up always shows, and a refusal exactly when its message is new |
| Following.AlwaysAgrees | extension/src/session-state.ts:684-743 | whatever faults fell wherever: turn, mode, attempt, plan, usage, gates, compactions and the changes of every path are those of the events alone |
| Following.MadeGood | extension/src/session-state.ts:1009-1075 | after the last fault a `finish` makes the outcome agree again, and short of an `end` nothing else does once the summary differs; the last error agrees again exactly when an `error` came or it agreed before |
| Following.StoreKeepsIds | extension/src/session-state.ts:829-1037 | an event above every id seen keeps row ids ascending |
| Following.TurnNeverDecides | extension/src/session-state.ts:866-868 | in every client in step the test on the turn never decides: a held row's turn is always the current one |
| Loop.LoopKeepsStep | extension/src/session-state.ts:661-752 | the loop of `Follow`, over any script of connections that carry the log: what it re-emits is a prefix, and a fault is met exactly when it gives up or is refused |
| Loop.LoopPicture | extension/src/session-state.ts:661-752 | the state `Follow` leaves shows what one uninterrupted delivery would if and only if it neither gave up nor was refused in new words |
| Network.CatchUp | extension/src/session-state.ts:665-680 | a surviving connection that skips nothing delivers the log exactly as far as the first `end` it comes to |
| Network.CatchesUpWhen | extension/src/session-state.ts:665-680 | so it delivers all of it if and only if nothing was missing or no `end` stands before the last event |
| Network.AttachGoesOn | extension/src/session-state.ts:578-590 | attaching again resumes after the cursor and gets further whenever anything is missing |
| Network.LiveTextOrigins | extension/src/session-state.ts:683-707 | over every schedule the live text is the pieces it came in, and two of them came by different connections if and only if under different attachments |
| Network.TextJoinsAcrossAttach | extension/src/session-state.ts:683-707 | no piece is joined with the next across a dropped link; whatever text is there at a new attachment is |
| Auth.EveryInterleaving | extension/src/auth.ts:205-211 | any interleaving of windows, callers, strays and the gateway: no window runs two refreshes, each makes at most two requests and deletes only after rejections, a living family has one chance left at most, and a retry is granted only in another family than was refused |
| Auth.OneWinForOneToken | extension/src/auth.ts:205-211 | of all the callers of one window that sent the same token, one at most wins a rotation |
| Answers.WhatItAnswers | extension/src/auth.ts:779-851 | over every run a refresh answers by its last step: after a stored rotation the access token issued with it, newer than the callers' and its window's own then; after it forgot, nothing; after it gave up, what its window held |
| Answers.OneRotationForOneToken | extension/src/auth.ts:205-211 | a run in which a window refreshes only for callers that sent one token holds no two rotations of it |
| Answers.ToldIsUnderway | extension/src/auth.ts:205-211 | a caller is never handed at once what it sent; one that waits waits for a running refresh of its own window |
| Answers.CallerGetsAnother | extension/src/auth.ts:205-211 | a waiting caller is handed back the token it sent if and only if the refresh it joined had already settled with it |
| Answers.SignedOutHoldsNothing | extension/src/auth.ts:876-881 | a window that signed itself out holds no access token |
| Answers.ForgetsInThreeSteps | extension/src/auth.ts:876-884 | over every run a refresh that forgets makes three deletes, the first of which alone empties the shared secret, and settles with nothing after the third |
| Answers.WinsCounted | extension/src/auth.ts:772-777 | only its own rotations count as a window's, one each |
| Auth.SingleFlightStep | extension/src/auth.ts:772-777 | no window ever has a second refresh running |
| Auth.FlightsStep | extension/src/auth.ts:779-838 | a refresh makes at most two requests, and deletes secrets only if every answer was a rejection |
| Auth.WinsStep | extension/src/auth.ts:205-211 | a refresh started on the 401 path runs only while nobody has won a rotation |
| Auth.TokensStep | extension/src/auth.ts:840-851 | an access token being stored is never the one the callers sent |
| Auth.OneChanceStep | apps/gateway/src/dakcoder_gateway/auth/service.py:221-268 | a living family has one unspent token or one refresh about to be granted its successor, and never both |
| Auth.RefusedIsBarren | apps/gateway/src/dakcoder_gateway/auth/service.py:236-263 | a refused request leaves its token's family with nothing it could still be granted |
| Auth.BarrenStays | apps/gateway/src/dakcoder_gateway/auth/service.py:236-268 | and no later step changes that |
| Auth.RetryIsFutile | extension/src/auth.ts:814-830 | so the re-read and retry is futile within a family: over every run, what it is granted it is granted for a token of another sign-in |
| Races.AloneIff | extension/src/auth.ts:779-838 | a refresh that runs alone and is answered keeps its window signed in if and only if the stored secret was live when it began; otherwise that secret's family is over |
| Races.AlwaysGoesOn | extension/src/auth.ts:779-838 | until it is over some step of its own is due, and brings a refresh nearer its end |
| Races.InTouchStep | extension/src/auth.ts:779-851 | exactly these steps take the windows out of touch with their family: an overlapping read, a failed or lost re-check, a successor lost or not stored, a stray request of the family, its sign-out, and a sign-in while a refresh is under way |
| Races.StaysInTouch | extension/src/auth.ts:779-851 | over every run without such a step all windows stay signed in to a living family |
| Races.OverlapEndsFamily | extension/src/auth.ts:25-29 | while nothing is lost, any number of windows end their family if and only if two of their refreshes overlap: one reads the secret while the other is between its own read and its store |
| RaceRuns.RotatedBeforeWePost | extension/src/auth.ts:814-836 | one direction of the race: a rotation elsewhere between our read and our request ends the family, and the retry with its successor is refused too |
| RaceRuns.ReadBeforeWeStore | extension/src/auth.ts:840-851 | the other: a read elsewhere between the gateway's answer and our store ends the family although we were granted our successor |
| RaceRuns.LostAnswerEndsFamily | extension/src/auth.ts:840-851 | no other window is needed: after one lost answer the next refresh presents the spent token, which ends the family and signs the window out |
| RaceRuns.RetrySavesNewSignIn | extension/src/auth.ts:814-830 | what the retry is good for: a run in which it is granted the token of a new sign-in |
| RaceRuns.DeletesAnotherSignIn | extension/src/auth.ts:832-838 | a secret that is live when a refused refresh deletes it is of another sign-in than the one refused |
| RaceRuns.NewSignInIsDeleted | extension/src/auth.ts:876-881 | and such a run exists: a sign-in stored after the re-read is deleted with its live token |
| RaceRuns.JoinedTooLate | extension/src/auth.ts:771-777 | a run in which a caller joins a refresh that gave up and is handed the very token refused |
| Approvals.Service.ForgetId | extension/src/approvals.ts:843-861 | the card leaves the screen and its id joins the bounded memory, which drops its oldest past 500 |
| Approvals.Service.PresentApproval | extension/src/approvals.ts:228-258 | an approval goes on screen once, never while remembered, and at once off again when policy answers it |
| Approvals.Service.Decided | extension/src/approvals.ts:556-568 | a decision that failed to send is pending again; a 410 is not |
| Approvals.Service.ReconcileWith | extension/src/approvals.ts:671-717 | the three loops over a poll's answer compute the reconciled desk; a failed poll concludes nothing |
| Approvals.ReconcileAgrees | extension/src/approvals.ts:671-717 | after a poll every card is one the server holds, and every approval it holds is on screen or was answered here |
| Approvals.ReconcileComplete | extension/src/approvals.ts:671-717 | after a poll each live approval is on screen or remembered, if and only if none was squeezed out of the memory |
| Approvals.LostExactly | extension/src/approvals.ts:671-717 | for any sound desk and distinct live ids: an id is lost if and only if, after its turn, it is not on screen and its place in the memory is less than the overflow caused by the later live approvals that policy answers at their turn |
| Approvals.RoomIsEnough | extension/src/approvals.ts:671-717 | a memory with room for the automatic approvals of the pass loses none |
| Approvals.OneAutomaticIsEnough | extension/src/approvals.ts:843-850 | a reachable run: with 500 answered ids, one new automatic approval in a poll drops the oldest, which the same poll still lists |
| Approvals.AnchorsHold | extension/src/approvals.ts:702-717 | after a poll every card whose deadline the server states counts down within two seconds of it |
| Polls.PollLeaves | extension/src/approvals.ts:671-717 | after a poll: first the cards still live, in the order they had, then the added ones in the server's order, each as the server states it |
| Polls.CardAnchors | extension/src/approvals.ts:702-717 | a card that stays is left alone while no stated deadline is more than 2000 ms from its own; otherwise it counts down to the stated one and may warn again |
| Polls.ForgetRemembers | extension/src/approvals.ts:843-861 | forgetting adds a new id last and keeps the latest 500 |
| Polls.WithoutAt | extension/src/approvals.ts:843-861 | a card taken off leaves the others as they were, in order |
| Polls.PutAt | extension/src/approvals.ts:556-568 | a card put back takes the place of the one with its id, or the last |
| Approvals.RunOk | extension/src/approvals.ts:843-850 | over every run there is one card per id and the memory is exactly the last 500 ids added to it |
| Approvals.ActOk | extension/src/approvals.ts:546-568 | each step keeps the desk sound, and a failed send restores its card |
| Approvals.RememberedIsNotShown | extension/src/approvals.ts:228-229 | over every run an id among the last 500 answered is on screen only if the last answer given for it failed to send |
| Approvals.RepeatDoesNotRenew | extension/src/approvals.ts:843-850 | forgetting an id again does not renew its place: one new id then pushes it out |
| Naming.DecomposeIsBest | extension/src/wizard.ts:273-284 | a segmentation is returned exactly when one exists, and it is the longest-head-first one among all |
| Naming.InitialismsAreLong | extension/src/wizard.ts:196-203 | every known initialism is long enough for the head search to find |
| Naming.SplitWords | extension/src/wizard.ts:222-272 | the splitter's loops compute the words that `WordsAreStretches` and `SplitRunExactly` describe |
| Naming.WordsAreStretches | extension/src/wizard.ts:222-252 | before runs are split, the words spell the source without its separators, are cut where a capital follows a small letter or digit, or follows a capital and precedes a small letter, and nowhere else |
| Naming.NeighboursCut | extension/src/wizard.ts:222-252 | two neighbouring characters are in one word exactly when no such cut lies between them |
| Naming.SplitRunExactly | extension/src/wizard.ts:259-284 | a word is taken apart exactly when it is 4 to 32 capitals, no initialism, and written with some; then longest head first |
| Naming.SolidWords | extension/src/wizard.ts:222-252 | no word is empty or holds a separator |
| Naming.SplitRunIs | extension/src/wizard.ts:259-271 | splitting a run of initialisms loses no letter |
| Naming.SnakeIsCanonical | extension/src/wizard.ts:292-309 | snake case is its own snake case and that of the kebab form, and decides the Pascal and camel forms |
| Naming.CasesOfWords | extension/src/wizard.ts:286-309 | small-letter words joined by any divider are written in the four cases as those words |
| Naming.PascalIsNotIdempotent | extension/src/wizard.ts:292-294 | Pascal case is not canonical: `id_s` gives `IDS`, then `Ids` |
| Plurals.InferredNamesPass | extension/src/wizard.ts:1068-1110 | for every accepted name a plural is inferred exactly when the lower-cased last word is not `constructor`, and then plural, table and route pass their own validators |
| Plurals.NamesTaken | extension/src/wizard.ts:1068-1099 | a name, a plural and a table are taken exactly when their recorded form is spelled as it must be, and the name is no keyword and not reserved |
| Plurals.RouteIsSlugs | extension/src/wizard.ts:1101-1108 | a route is taken exactly when, in small letters and without slashes around it, it is slugs with single dashes or slashes between them |
| Plurals.OneInheritedWord | extension/src/wizard.ts:321-327 | of the names a plain object inherits, `constructor` is the only one a lower-cased word without separators can be |
| Plurals.OnlyConstructorFails | extension/src/wizard.ts:321-333 | the look-up finds something that is no word for `constructor` and for no other word |
| Plurals.ConstructorIsAccepted | extension/src/wizard.ts:1068-1083 | the wizard accepts `constructor`, records `Constructor`, and has no plural for it |
| Plurals.PluralOfIdent | extension/src/wizard.ts:311-337 | the plural of an identifier is an identifier |
| Plurals.RegularPlural | extension/src/wizard.ts:321-330 | a word after a hiss takes `es`, one in a consonant and `y` takes `ies`, any other `s` |
| Plurals.ListedIsIrregular | extension/src/wizard.ts:205-209 | each listed word has its listed plural |
| Plurals.IrregularIsListed | extension/src/wizard.ts:205-209 | and no other word is irregular |
| Plurals.CaseRestored | extension/src/wizard.ts:332-337 | the plural takes the case of the word: all capitals, a capital first, or as it is |
| Plurals.PluralOfWords | extension/src/wizard.ts:311-319 | of several words the last is made plural and they stay joined as they were |
| Plurals.IdentsPass | extension/src/wizard.ts:1087-1110 | any identifier gives a table and a route that their validators take |
| Plan.ParsePlan | extension/src/wizard.ts:1636-1663 | the line loop computes the parse of which `UnitsAreOnTheirLines` and `FieldsRead` say what every line is read as |
| PlanReading.UnitsAreOnTheirLines | extension/src/wizard.ts:1636-1668 | for any text: the header is the first row with a path among its cells and a ruled line below it, and the units are exactly those of the rows below it and of the task lines, in document order; the lines are the text's |
| PlanReading.ColumnsRead | extension/src/wizard.ts:1610-1617 | for every header each field is the first cell with one of the field's spellings, written out per field, and absent exactly when there is none |
| PlanReading.FieldsRead | extension/src/wizard.ts:1689-1712 | for every row each field of the unit is the cleaned text of that cell |
| PlanReading.HeaderSpelling | extension/src/wizard.ts:1676-1687 | a header cell is spelled with letters in any case, markup anywhere and blanks around it |
| PlanReading.RowsAre | extension/src/wizard.ts:1665-1666 | a row is bars around a text on one line, with blanks at most outside; a ruled line has blanks, colons, bars and dashes between them |
| PlanReading.BarsDivide | extension/src/wizard.ts:1668-1674 | the cells are what the inner bars divide, each without the blanks around it |
| PlanReading.TrimExactly | extension/src/wizard.ts:1668-1674 | trimming takes the blanks off both ends and nothing else |
| PlanReading.CellText | extension/src/wizard.ts:1777-1783 | of a link the text is read, or the address when it has none; of any other cell all of it, without markup |
| PlanReading.GapsJoin | extension/src/wizard.ts:1795-1798 | in a classification each run of blanks and dashes becomes one underscore |
| PlanReading.RulesRead | extension/src/wizard.ts:1770-1775 | the rules are the pieces between commas and semicolons, trimmed, without the empty ones and the dashes |
| Plan.MappedColumnsAreApart | extension/src/wizard.ts:1676-1687 | no cell of the header is two columns |
| Plan.UnitsAreSlotted | extension/src/wizard.ts:1641-1660 | units stand on distinct lines in document order |
| Plan.RenderPlan | extension/src/wizard.ts:1807-1819 | the text joins the lines with the units written into their slots |
| Plan.OnlySlotsChange | extension/src/wizard.ts:1800-1819 | slot k holds unit k and every line the parser did not claim is as it was |
| PlanReading.TaskLine | extension/src/wizard.ts:1839-1850 | a task line is ticked for a migration, then path, classification and the fields that hold something, in order |
| Plan.Tree.Move | extension/src/wizard.ts:2170-2178 | a move puts one unit at its new place, keeps the others in order, and loses or repeats none; past an end or when locked it does nothing |
| Plan.Tree.Drop | extension/src/wizard.ts:2198-2219 | a drop permutes the units, keeps the order of the moved and of the rest, and sets the moved ones down together directly before the target, or at the end when it is absent or moved itself |
| PlanRoundTrip.RowRoundTrip | extension/src/wizard.ts:1689-1712 | a unit's rendered row reads back as the unit if and only if its fields fit, stay within their cells, and leave a letter in some cell of the row |
| PlanRoundTrip.CellExactly | extension/src/wizard.ts:1777-1783 | a text is read as written if and only if it is trimmed, free of markup and no link |
| PlanRoundTrip.ClassExactly | extension/src/wizard.ts:1795-1798 | a classification is, if and only if it also has no small letter, blank or dash |
| PlanRoundTrip.StatusExactly | extension/src/wizard.ts:1689-1712 | a status is, if and only if it also has no capital and is not empty |
| PlanRoundTrip.RulesExactly | extension/src/wizard.ts:1770-1775 | joined rules are read back as the list if and only if each is trimmed, not a dash, free of markup and separators, and the cell is no link |
| PlanRoundTrip.DelimiterExactly | extension/src/wizard.ts:1665-1666 | a rendered row is taken for a delimiter if and only if no cell has a letter |
| PlanRoundTrip.AlreadyMigratedIsLost | extension/src/wizard.ts:1777-1798 | a unit that is `ALREADY_MIGRATED` never reads back: it is read as `ALREADYMIGRATED`, everything else as written |
| PlanRoundTrip.ReorderedPlanReadsBack | extension/src/wizard.ts:1636-1819 | a plan kept in a table, rewritten with units in any order, reads as those units in that order in the same slots if and only if each fits the row of its slot |
| PlanRoundTrip.RenderedTextReadsBack | extension/src/wizard.ts:1636-1819 | the same for the rendered text, under LF and under CRLF |
| PlanSession.RenderOver | extension/src/wizard.ts:1821-1837 | a row written over another unit's row is the row written over the original line |
| PlanSession.SessionFollows | extension/src/wizard.ts:2170-2252 | parse, any sequence of moves and drops each saved and parsed again: the file reads as the units in the tree's order, none lost or repeated; its lines are the first plan's with the slots written once, and all others as they were |
| PlanSession.EverySessionReadsBack | extension/src/wizard.ts:2170-2252 | every such sequence leaves a file that reads back if and only if every unit fits the row of every slot |

## Left out

- RunState.RunState.IngestEvent: the derived figures are grouped in one record field, rows are values numbered from the last reset (a tool row's number stands for the identity of the shared row object), and time stamps are reduced to whether a run has finished.
- RunState.RunState.Follow: runs over a script of connections; what happens after the script ends is the next script. The text of the message for a lost runtime is not localised.
- Network.EverySchedule: leaves out `hydrate` (replay of a stored transcript), whose status comes from a summary the server computes, attaching to another session, which starts afresh, and local answers to approvals. Server ids are positive and increasing, as the server assigns them. Of the connection state only what decides the loop is kept.
- Loop.LoopKeepsStep: its connections carry the log without skipping and one at a time; skips and leftovers of aborted connections are steps of the schedules in `Network`.
- Auth.EveryInterleaving: minted tokens, access-token expiry inside `liveToken`, sign-in and sign-out as this extension performs them (they are single steps here), and the handler for another window's account change are not modelled; nor are the thirty-day expiry of a refresh token and a restart of the gateway, which forgets all of them.
- Approvals.Service.ReconcileWith: cards carry their id, deadline and warning mark; paths, receipts, editors, toasts and the five-second timer are left out.
- Sse.Parser.Feed: the abort signal and a consumer that stops early are left out, ids are integers, and text arrives decoded from UTF-8.
- Naming.SnakeIsCanonical: letters outside ASCII are left unchanged by case conversion, where the runtime would convert them.
- Plurals.InferredNamesPass: the outcome for `constructor` is recorded as "no plural"; for a capitalised name the code throws, for a lower-case one it joins the text of a function.
- PlanRoundTrip.RenderedTextReadsBack: plans kept in a table; a plan with task-list units is outside it, because the reader of such lines is a parameter.
- PlanSession.EverySessionReadsBack: a save that fails, and a change of the file from outside, which replaces the session, are left out.
- Plan.ParsePlan: the regular expressions that read one task-list line are a parameter; rendering such a line is modelled.
- `capped`, a cut of the finished text to the card's line budget: it decides nothing about the diff.
- Checkboxes, reclassification and the files behind the migration tree.
- The finding index, the replay ring of the chat panel, the status bar, trees and dialogs: user-interface state whose guarantees rest on code that is not part of this model.
- The Go services, the `gotools` commands and the Python back end: wiring around libraries that are not part of this model.
