# A verified model of the simulator's search, history, session and network machinery

The repository simulates trading-card games: a rules engine asks players for
decisions, and services around it search games, record them, stream them and
let players meet. This project models those services in Dafny and proves what
they promise. The rules engine is taken as a deterministic tree of decisions.

How the files follow the program:

| files | part of the program |
|---|---|
| EngineTree, ReplayProviders, TreeSearch, SearchContext, SearchProofs, SearchWitness, SearchCounts, SearchReach, SegmentSearch | the memoised replay search |
| HistorySpool, HistoryUpload, HistoryProtocol, HistoryProgress | the durable outbox of history events |
| MergePatch, ObservationStream, StoredObservations | observation deltas and the two streams built on them |
| SpectatorFrames, GameMatch | the spectator buffer and the match loop |
| ManaPayment | the search for ways to pay a cost |
| SessionView, SessionVisibility, NetworkLobby, NetworkRegistry | what a player is shown, lobbies and network games |
| RatingLedger | ratings per stratum |
| HttpFraming, HttpReading, HttpRoundTrip | requests on a kept-alive connection |
| Texts, Decimal, Numbers, Sequences, Wrappers | shared definitions |

Parts that the program changes in place are classes here (search context and
branch, replay providers, spool, spectator buffer, payment search, agent
stream, history stream, analytics ledger, connection, registry), with methods proved against
pure functions; the theorems are lemmas about those functions.

Where the code and an expected property part, the model follows the code and
proves exactly when the property holds:

* the memo key leaves out the event list, so one branch may be answered with the
  count of any other that has its key iff equal keys also mean equal pasts so far
  as they matter (`KeysFixPastIff`; `SafetyIgnoresThePastIff` says where they do).
  Then `complete` is right; otherwise it can be wrong
  (`SearchCountsTheTree`, `SharedKeyHidesSafetyLimit`);
* replay answers a repeated option id by its first place, so every choice lands
  on its own child iff repeated ids agree (`ChoicesLandIffRepeatsAgree`);
* the difference of two equal values that are not objects is an empty object,
  so a change is rebuilt iff it is recoverable (`RebuildsIffRecoverable`);
* a connection is served as its bytes alone determine iff they do not begin like
  an agent's request; if they do, it matters how they arrive (`BytesDecideIff`,
  `AgentRequestDependsOnTheCut`);
* the fewest sources offered are the fewest possible iff the search comes to some
  payment of the fewest sources before its ceiling of 64 selections cuts the way
  there (`OptionsAreMinimalIff`, `CeilingCanHideTheMinimum`);
* a lobby that lists a human seat twice can never start
  (`StartsIffEverybodyIsReady`, `RepeatedSeatNeverStarts`);
* a player who leaves a running game leaves the username at the seat until
  somebody else takes it, so joining again under that name, without asking for the
  seat, succeeds iff the seat left is then the first free one
  (`GameLeaverReturnsIff`, `LeaverCanBeRefused`); a lobby frees the name, and there
  the return always succeeds, in the first free seat (`LeaveAndReturn`);
* a refused seat update leaves the lobby as it was iff it was refused before it
  touched anything or asked for nothing new (`RefusalKeepsLobbyIff`,
  `RefusalCanCostTheDeck`);
* lists of known cards that are addressed to other players pass the projection, so
  views that differ in them are shown alike iff they do not differ
  (`OthersListsAreShownIff`, `ListNamesBlankedCard`);
* a commit can be durable and be reported as failed; its retry logs an event a
  second time iff the uploader has removed it in between (`CommitRepeatsIff`,
  `EventCanBeDeliveredTwice`). Delivery is at least once: no stream loses an event
  or its order (`StreamsEnterTheLogInOrder`), and without such commits nothing is
  logged twice (`StreamsEnterTheLogGapFree`).

Observation deltas of one player are computed under one lock and numbered under
another. In the program a stream has one publisher, the session's engine thread,
which does both in turn, so its log always reads back
(`HistoryStream.PublishPlayerObservation`). Under any other schedule it reads back
for all object observations iff every publish takes the oldest pending update
(`LogFoldsIffInOrder`).

## Model

| member | source | states |
|---|---|---|
| EngineTree.RunResumes | src/punching_bag.rs:776-817 | Replaying a ++ b from the root is running b from the node a leads to: re-running the engine for every node refines direct descent |
| EngineTree.DescendAppend | src/punching_bag.rs:776-817 | Following two scripts one after the other is following their concatenation |
| EngineTree.ChoicesAre | src/punching_bag.rs:563-670 | What a decision offers: each option id once in order, or each number within the bounds in order, and nothing else; no bounds, no choices |
| EngineTree.AnsweredIffOffered | src/punching_bag.rs:563-670 | A scripted choice is accepted if and only if it is offered, and as its first offer |
| EngineTree.OfferedChoiceAnswers | src/punching_bag.rs:563-670 | An offered choice is always accepted when replayed, and by the first offer with its label |
| EngineTree.ChoicesLandIffRepeatsAgree | src/punching_bag.rs:563-614 | Every offered choice replays to its own continuation if and only if repeated option ids lead to equal continuations |
| EngineTree.ExtensionLandsOnChild | src/punching_bag.rs:939-942 | Extending a branch that reaches a decision by any offered choice never errors and lands on that choice's child |
| ReplayProviders.BranchingReplayProvider.Choose | src/punching_bag.rs:563-614 | A scripted option is answered by its first index; an unknown or mistyped one is an error; the first unscripted decision becomes the pending branch |
| ReplayProviders.BranchingReplayProvider.ChooseNumber | src/punching_bag.rs:616-670 | The same for numbers: a scripted number outside the bounds is an error, an unscripted one opens a branch with every value in the bounds |
| ReplayProviders.DriveBranching | src/punching_bag.rs:776-817 | The engine loop under the stateful provider ends exactly as the pure replay says, with the open decision left in the provider |
| ReplayProviders.ReplayThenRandomProvider.Choose | src/punching_bag.rs:398-527 | An answer comes from the prefix while it lasts and from the tape afterwards, and is recorded either way |
| ReplayProviders.DriveThenRandom | src/punching_bag.rs:432-527 | A whole scripted-then-random run computes the pure playout and records its trace |
| ReplayProviders.TraceStartsWithScript | src/punching_bag.rs:398-527 | A run's recorded trace starts with the script it consumed |
| ReplayProviders.TraceLeadsToEnd | src/punching_bag.rs:398-527 | The recorded trace leads, choice by choice, to the leaf where the run ended |
| ReplayProviders.PlayFollowsPath | src/punching_bag.rs:398-527 | A run that is given a path to a leaf ends there, records that path and draws nothing |
| ReplayProviders.TraceReplays | src/punching_bag.rs:1309-1348 | Replaying a recorded trace reaches the same boundary and state under every other tape, and under the search's provider |
| ReplayProviders.ReplaySegment | src/punching_bag.rs:1309-1348 | A segment replay succeeds exactly when the run does and its whole script was used; the trace it returns replays |
| SearchContexts.SearchContext.ExploreChoice | src/punching_bag.rs:939-946 | One turn of the loop pushes a choice, explores it by replay exactly as direct descent into that child would, pops it again so that the shared branch is as before, and reports it at the root |
| SearchContexts.SearchContext.Replay | src/punching_bag.rs:776-817 | One run along prefix ++ branch counts one replay and returns where it ends |
| SearchContexts.SearchContext.Explore | src/punching_bag.rs:819-952 | The stateful, replaying, memoising search does to its context, and returns, exactly what direct descent into the node at that branch does; the branch is left as it was |
| SearchContexts.SearchContext.ExploreChoices | src/punching_bag.rs:931-949 | The loop over a decision's choices equals the pure loop on the children, counters, memo, witness and root reports included |
| SearchProofs.CompleteMeansNoLimit | src/punching_bag.rs:672-749 | In every total the search builds, `complete` holds iff the turn-limit, search-limit and safety counts are all zero |
| SearchProofs.ExpansionAccounting | src/punching_bag.rs:930-949 | Every expanded edge is one replay, at every node and under every limit |
| SearchProofs.SearchAccounting | src/punching_bag.rs:819-952 | From any state: runs split into leaves, limit stops, hits and new nodes; nodes stay within the limit and depth within the maximum |
| SearchProofs.WholeSearchAccounting | src/punching_bag.rs:776-952 | From a fresh search: runs = 1 + edges = leaves + limit stops + transposition hits + unique nodes, within both budgets |
| SearchProofs.StoreKeepsMemoExact | src/punching_bag.rs:925-949 | Storing an exact count keeps the whole memo exact, for all other branches sharing the key, while cut-off counts stay out of the claim |
| SearchProofs.ExploreExact | src/punching_bag.rs:819-952 | Each count returned by the budgeted, cached search is the clamped exact count of the subtree unless it met a search limit, and the memo invariant survives |
| SearchProofs.OutcomesIgnoreThePast | src/punching_bag.rs:963-978 | Outcome counts of a subtree do not depend on the events that led to it, though its safety count may |
| SearchProofs.SafetyIgnoresThePastIff | src/punching_bag.rs:878-886 | The safety count of a subtree does not depend on the past if and only if each of its leaves lies behind a loop end of its own |
| SearchProofs.KeysFixPastIff | src/punching_bag.rs:916-978 | Where equal keys mean equal continuations: they mean pasts equal so far as they matter if and only if any two branches with one key have one plain count, so that each may be answered from the memo with the count of the other |
| SearchProofs.SearchCountsTheTree | src/punching_bag.rs:819-978 | Main result: a search that met no search limit reports min(2^64-1, exact count) of the whole tree walked with no memo, replay or budget, if equal node keys mean equal continuations; if also pasts, so far as they matter, also the safety counts and `complete` |
| SearchProofs.SharedKeyHidesSafetyLimit | src/punching_bag.rs:963-978 | The hypothesis on pasts is needed: the key clears the event list, and a concrete tree with a safety-limit leaf is called complete |
| SearchCounts.CountersCountPaths | src/punching_bag.rs:672-725 | Each counter of the exact count is the number of index paths that end in a leaf of its kind: won by the learner, by another, by nobody, at the untap, at the turn limit, behind a loop end, or any |
| SearchCounts.SearchCountsPaths | src/punching_bag.rs:819-978 | Main result, of the tree alone: a search that met no search limit reports for each kind of leaf min(2^64-1, number of paths that end so), under the hypotheses of SearchCountsTheTree |
| SearchCounts.SearchFitsItsBudgets | src/punching_bag.rs:913-949 | A tree within the three budgets of depth, choices and unique nodes is searched without meeting a search limit |
| SearchCounts.SearchMeetsLimitIff | src/punching_bag.rs:913-978 | With room for all its nodes, and keys that fix continuation and depth, a search meets a search limit if and only if some decision of the tree lies too deep or offers too many choices, memo hits included |
| SearchCounts.KeysIdentify | src/punching_bag.rs:963-978 | Under a hash without collisions, decisions with one key agree in state text, ids, random generator, depth and the labels of their choices |
| SearchCounts.LabelsIdentify | src/punching_bag.rs:963-978 | Labels tell choices of one decision and kind apart, negative numbers included |
| SearchReach.ObservedDepthIsHeight | src/punching_bag.rs:819-952 | A search that met no search limit has observed exactly the height of the tree, the length of its longest path, memo hits or not, if equal keys mean equal continuations at equal depths |
| SearchReach.FailureIsOfARun | src/punching_bag.rs:776-817 | A search fails only with the error of some run through the tree; a run that ends in the branch signal itself is reported as one without a pending decision |
| SearchWitness.WinningBranchIffWins | src/punching_bag.rs:893-908 | A winning branch is recorded iff a learner win is counted, whatever the limits or the hash, and replaying it ends in a learner victory |
| SearchWitness.FirstWinIsLeast | src/punching_bag.rs:893-949 | The win a plain depth-first walk meets first comes before every winning leaf in choice order |
| SearchWitness.NoWinIffNoneCounted | src/punching_bag.rs:672-725 | The walk finds no win iff the plain count of wins is zero |
| SearchWitness.WinningBranchIsFirst | src/punching_bag.rs:893-949 | In a search that met no search limit the recorded branch is the lexicographically first winning leaf of the unmemoised tree: a memo hit is never the first to contain a win |
| SearchWitness.RootReportsAddUp | src/punching_bag.rs:727-747 | An expanded root has one report per choice, in order, and the reports add up to the tree totals |
| SegmentSearch.SegmentEndsIff | src/punching_bag.rs:776-817 | A path through a segment ends in a leaf if and only if the game, played along it before any later turn of the learner has started, is over there, out of turns there, or at the start of such a turn; the leaf says which, with winner and turn |
| SegmentSearch.UntapLineContinues | src/punching_bag.rs:1309-1348 | A line cut at an untap goes on, under a later cut, to the game behind that untap, with the same events |
| SegmentSearch.EndedLineIsALineOfTheGame | src/punching_bag.rs:1377-1560 | A line that ends the game in a segment still does under every later cut |
| SegmentSearch.SearchSegment | src/punching_bag.rs:1222-1301 | One segment's report is that of the direct search from the node its prefix leads to; a branch is returned exactly when it has wins |
| SegmentSearch.WitnessLine | src/punching_bag.rs:1399-1419 | A winning branch behind its prefix replays to a learner victory under any tape, so the check cannot fail, and the line is one of the game under every later cut |
| SegmentSearch.RandomLine | src/punching_bag.rs:1464-1490 | Of at most 128 random playouts behind the prefix: the line taken reaches the untap or a learner victory and is a line of the tree; none is taken only if all 128 ended otherwise; an error only if a run can fail |
| SegmentSearch.PlaySegment | src/punching_bag.rs:1377-1560 | One segment: its win is a win, its continuation a line to the untap that the learner has not won, its error one that the tree and the tapes justify |
| SegmentSearch.FindWin | src/punching_bag.rs:1372-1590 | A reported line leads from the opening to a learner victory; segments follow each other turn by turn, and none passed over after a complete search has a winning leaf, if equal keys mean equal continuations; every error has its cause in the last segment |
| HistorySpools.IdTextIsFaithful | src/history_queue.rs:614-637 | Two events have one id text only if stream and number agree, whatever the stream names contain |
| HistorySpools.BatchLength | src/history_queue.rs:279-323 | A loaded batch is never longer than the limit, after its first row never beyond the byte ceiling, and stops short of both only where one more row would exceed the ceiling |
| HistorySpools.InsertAllAppendsNewOnes | src/history_queue.rs:232-277 | Deduplicating inserts append exactly the events not stored yet, once each, in order |
| HistorySpools.PersistKeepsLedger | src/history_queue.rs:217-277 | A committed batch keeps both byte counters exact and the quota; it is refused iff its new bytes do not fit, and then nothing has changed |
| HistorySpools.RepersistChangesNothing | src/history_queue.rs:232-277 | Persisting events the outbox already holds changes nothing |
| HistorySpools.AcknowledgeKeepsLedger | src/history_queue.rs:325-348 | Acknowledging a batch removes exactly that prefix; the counter is exact and its clamp at zero never fires |
| HistorySpools.QuarantineKeepsLedger | src/history_queue.rs:350-400 | Quarantining moves the front row (or drops a duplicate id); the total never grows and no clamp fires |
| HistorySpools.ReopenIsIdentity | src/history_queue.rs:190-195 | Recomputing the counters on reopening is the identity |
| HistoryUpload.HistorySpool.Persist | src/history_queue.rs:217-277 | The transaction commits the specified rows and counters or leaves the spool as it was |
| HistoryUpload.HistorySpool.LoadBatch | src/history_queue.rs:279-323 | Returns the longest prefix of the outbox within the row limit and, after the first row, the byte ceiling |
| HistoryUpload.HistorySpool.Acknowledge | src/history_queue.rs:325-348 | Deletes the rows of a loaded batch and their bytes |
| HistoryUpload.HistorySpool.Quarantine | src/history_queue.rs:350-400 | Moves the front row to quarantine with its bytes |
| HistoryUpload.UploadBatch | src/history_queue.rs:729-806 | One delivery attempt: success removes the batch, a payload rejection halves the limit or quarantines a single event |
| HistoryUpload.DrainOutbox | src/history_queue.rs:729-806 | From any outbox the uploader ends; it delivers exactly the good events in order, quarantines exactly the bad ones in order, once per id, with at most 8 attempts between two removals |
| HistoryUpload.AttemptsBound | src/history_queue.rs:9-18 | A batch limit that starts at 128 can be halved at most seven times |
| HistoryProtocol.PublishKeeps | src/history_queue.rs:614-637 | A publisher's step keeps the protocol invariant in any interleaving |
| HistoryProtocol.CommitKeeps | src/history_queue.rs:677-727 | A group commit the writer hears of leaves every event of its batch in the log: none is taken for one already stored; if none was stored before, exactly the batch is added |
| HistoryProtocol.StoredKeeps | src/history_queue.rs:699-718 | Storing a batch, for the first time or again, keeps the invariant whether the writer hears of it or not: a commit that is durable but reported as failed, and the retry of its batch |
| HistoryProtocol.ConfirmKeeps | src/history_queue.rs:543-557 | Answering one publisher of a committed batch keeps the invariant |
| HistoryProtocol.AcknowledgeKeeps | src/history_queue.rs:325-348 | Removing a delivered batch keeps the outbox the end of the committed log, whether the uploader hears of it or not |
| HistoryProtocol.QuarantineKeeps | src/history_queue.rs:350-400 | So does quarantining its front event |
| HistoryProtocol.RestartKeeps | src/history_queue.rs:139-199 | A restart of the process loses channel, writer, uploader and streams, recomputes the counters, and keeps the invariant and every stored event |
| HistoryProtocol.StepKeeps | src/history_queue.rs:614-806 | Every step of publishers, writer and uploader, with failures and commits reported as failed though durable, and a restart at any time, keeps the invariant |
| HistoryProtocol.NothingConfirmedIsLost | src/history_queue.rs:543-806 | Over all interleavings and restarts: the ledger is exact and within the quota, the outbox is a suffix of the committed log, every confirmed event is in the outbox, accepted by the sink, or has its id in quarantine |
| HistoryProtocol.StreamsEnterTheLogInOrder | src/history_queue.rs:614-718 | Over all interleavings, restarts and unheard commits each stream is logged as 1..m in order, each event at least once and its repetitions next to it, and while its process lives all of them unless a publish still waits |
| HistoryProtocol.StreamsEnterTheLogGapFree | src/history_queue.rs:614-637 | In every run in which the writer hears of its commits, each stream is logged as exactly 1..m in order, each event once, and while its process lives all of them unless a publish still waits |
| HistoryProtocol.CommitRepeatsIff | src/history_queue.rs:232-276 | A commit logs nothing twice if and only if every event of its batch that was logged before is still in the outbox |
| HistoryProtocol.EventCanBeDeliveredTwice | src/history_queue.rs:699-806 | It happens: a run in which an event whose commit went unheard is delivered, logged again and delivered again |
| HistoryProtocol.EarlierEventsLeaveFirst | src/history_queue.rs:279-348 | No event leaves the outbox before an earlier one of its stream |
| HistoryProtocol.OnlyBadIsQuarantined | src/history_queue.rs:765-806 | Over all interleavings in which the sink rejects only batches with a bad event, every event newly in quarantine is bad |
| HistoryProtocol.QueuesAreBounded | src/history_queue.rs:639-806 | Over all interleavings channel, group commits, deliveries and the batch limit stay within 128, and the limit above zero |
| HistoryProgress.OutboxCanBeDrained | src/history_queue.rs:729-806 | Progress: from every outbox some run empties it, under a sink that takes exactly the batches without a bad event; then all its good events were accepted the ids of all bad ones are in quarantine, and the uploader waits with a full limit |
| MergePatch.ComputeMergePatch | src/observation_delta.rs:14-40 | The map-filling difference computes the recursive difference function on all values |
| MergePatch.DiffNamesChanges | src/observation_delta.rs:14-40 | The difference of two objects names exactly the keys whose values differ, with null for a removed one and the value for an added one |
| MergePatch.ApplyMergePatch | src/observation_delta.rs:42-60 | The in-place patch computes MergePatch of section 2 of RFC 7396 on all values |
| MergePatch.RebuildsIffRecoverable | src/observation_delta.rs:14-60 | apply(prev, merge_patch(prev, cur)) == cur if and only if the change is recoverable: no null member to be restored and no pair of equal non-objects |
| MergePatch.RoundTrip | src/observation_delta.rs:67-76 | For object roots, a current value without null object members is rebuilt exactly |
| MergePatch.EqualScalarsAreLost | src/observation_delta.rs:14-40 | Concrete failure: the difference of two equal numbers turns the receiver's copy into an empty object |
| MergePatch.DeltaKeepsSame | src/observation_delta.rs:14-60 | If a receiver holds prev modulo null members, the delta leaves it with cur modulo null members, for every pair but two equal non-objects |
| ObservationStream.WebSocketAgent.ObservationUpdate | src/agent_protocol.rs:388-408 | The first update is full, later ones are deltas against the previous observation; sequence and previous observation advance together |
| ObservationStream.UpdatesAre | src/agent_protocol.rs:388-408 | Over any run of updates, the i-th carries the next number, and is a delta against the observation before it exactly on a delta stream that has one |
| ObservationStream.MissedUpdateIsNoticed | src/agent_protocol.rs:388-408 | A receiver that has missed an update refuses every later delta of the run |
| ObservationStream.UpdateIsFollowed | src/agent_protocol.rs:388-408 | The receiver accepts every update and holds the new observation modulo null members iff it was not a repeated non-object |
| ObservationStream.StreamIsFollowed | src/agent_protocol.rs:388-408 | The same over any run of observations |
| ObservationStream.ObjectStreamIsExact | src/agent_protocol.rs:388-408 | After any run of object observations the receiver holds the latest one modulo null members, and exactly if no observation of the run has any |
| StoredObservations.HistoryStream.PublishPlayerObservation | src/history_queue.rs:575-612 | The stored history as the program writes it, one publisher that computes and publishes in turn: after every call the log of every player folds to that player's latest observation, modulo null members for objects |
| StoredObservations.OnePublisherIsReadBack | src/session.rs:518-553 | The same as a schedule: computing and publishing in turn always leaves a log that folds to the latest observation |
| StoredObservations.InOrderLogFolds | src/history_queue.rs:575-637 | Under any schedule of publishers that publishes in the order of computing, the log folds to the latest observation whenever nothing is pending |
| StoredObservations.LogFoldsIffInOrder | src/history_queue.rs:575-637 | For a schedule that leaves nothing pending: the log folds to the latest observation for all object observations if and only if every publish takes the oldest pending update |
| StoredObservations.DisorderedFold | src/history_queue.rs:575-637 | Observations that show it: a key added and removed again stays, where the removal is published before the addition |
| SpectatorFrames.RecordKeepsValid | src/session.rs:334-383 | Recording a frame keeps the buffer valid, and the newest frame in it |
| SpectatorFrames.RecordKeepsLongestEnd | src/session.rs:370-381 | Nothing is evicted needlessly: kept is the longest end of the frames and the new one with at most 512 frames and 32 MiB, or a single frame; with room for the new frame, all |
| SpectatorFrames.BufferIsContiguous | src/session.rs:327-383 | A valid buffer holds a contiguous run of numbers ending at the latest, exact byte totals, at most 512 frames, and at most 32 MiB unless one frame remains |
| SpectatorFrames.EveryBufferIsValid | src/session.rs:334-383 | The buffer is valid after any recordings |
| SpectatorFrames.FirstPageIsNewest | src/session.rs:384-412 | Without a cursor a client gets the newest frame |
| SpectatorFrames.PageHoldsNextFrames | src/session.rs:384-412 | `truncated` is reported iff a frame after the cursor was evicted; otherwise the page is exactly the next frames, at most 128, and `hasMore` is exact |
| SpectatorFrames.SpectatorStream.RecordSpectator | src/session.rs:334-383 | The in-place buffer update equals the specification, eviction included; a buffer with room for the frame evicts nothing |
| SpectatorFrames.PagingReceivesEveryFrame | src/session.rs:334-412 | A client paging by cursor across concurrent recording that never sees `truncated` receives every later frame exactly once, in order |
| GameMatch.ResolveBestOf | src/session.rs:223-238 | Exactly 1, 3, 5 and 7 are accepted, and only in Legacy more than 1; an accepted request is the answer, and without one it is 3 in Legacy and 1 elsewhere |
| GameMatch.RunWithRecovery | src/session.rs:1517-1595 | Every retry starts from the checkpointed engine, at most three attempts fail per checkpoint, a cancelled attempt is not retried and its error is the one reported, and on success the logs hold only the successful attempt's entries |
| GameMatch.PlayGame | src/session.rs:1516-1598 | A game ends; its final state and logs are those of its successful attempts chained one to the next, no turn is played after it is decided or out of turns, it ended decided or past the last turn unless it failed, and it failed only where an attempt from its last state does |
| GameMatch.PlayMatch | src/session.rs:1500-1685 | The match ends for every sequence of results within n*(gamesToWin-1)+1 games; a set winner has exactly gamesToWin wins, all others fewer; one analytics report per error-free game; an error is that of the last game, of sideboarding or of setting up the next |
| GameMatch.OneReportNamesTheSetWinner | src/session.rs:1630-1637 | Exactly the deciding game's report names the set winner |
| GameMatch.BestOfTwoPlayers | src/session.rs:1668-1674 | For two players the bound on games is bestOf itself, and the loser of a game opens the next |
| GameMatch.NextStartIsFirstOther | src/session.rs:1668-1674 | The next opening player is the first one who is not the winner |
| GameMatch.OnlyLegacyHasSeries | src/session.rs:223-238 | Outside Legacy a match is one game |
| ManaPayment.PaysIffSplit | src/game.rs:424-446 | Counting decides exactly whether the pool can be split over coloured and generic cost |
| ManaPayment.SymbolsCanPay | src/game.rs:424-446 | The loop that depletes a local pool computes that decision |
| ManaPayment.PaymentSearch.Visit | src/game.rs:472-497 | The backtracking search appends exactly the specified selections and restores both its stacks |
| ManaPayment.CeilingKeepsFirst | src/game.rs:472-497 | Up to 64 selections the search finds what it would find without a ceiling, in the same order |
| ManaPayment.FoundIsPlan | src/game.rs:472-497 | Soundness: every selection found comes from a tapping that pays |
| ManaPayment.PlanIsFound | src/game.rs:472-497 | Completeness: for every tapping that pays, a selection with no more sources is found despite early stopping |
| ManaPayment.CollectsIffFeasible | src/game.rs:448-535 | The search finds something iff the cost can be paid, ceiling or not |
| ManaPayment.UsableSourcesSuffice | src/game.rs:454-463 | The usable sources can pay iff some tapping of the permanents pays that taps no tapped permanent and no creature with summoning sickness |
| ManaPayment.CanPay | src/game.rs:537-540 | can_pay iff some tapping of the permanents, one alternative each, with the pool covers the cost and taps only untapped permanents and no creature with summoning sickness |
| ManaPayment.OfferedSelections | src/game.rs:499-534 | Of the selections collected, those of the fewest sources are kept, one for each set of cards, and all of them unless there are 20 |
| ManaPayment.PaymentOptions | src/game.rs:448-535 | Each option is exactly the permanents that some payment taps, none tapped before and no creature with summoning sickness; there is one iff there is something to pay and a payment; options tap the fewest sources among the collected selections, differ in their cards, and cover every such set of cards unless 20 are offered |
| ManaPayment.OptionsAreMinimalIff | src/game.rs:448-535 | The fewest sources collected are those of some payment; they are the fewest of any payment if and only if, on the way to some payment of the fewest sources, fewer than 64 selections are found before each source until the cost is paid |
| ManaPayment.OptionsAreMinimal | src/game.rs:448-535 | In particular with at most 64 selections in all |
| ManaPayment.EverySourceNeeded | src/game.rs:472-497 | Where all remaining sources of one mana in k colours are needed, the search has k to the power of their number selections, each tapping all of them |
| ManaPayment.CeilingCanHideTheMinimum | src/game.rs:472-497 | The condition can fail: a source of two mana and three five-colour sources pay 3 with two sources, but every option taps three |
| SessionViews.HiddenIdIsFaithful | src/http.rs:255-256 | Blanks of different zones, owners or places have different ids, whatever the owners' names |
| SessionViews.ProjectZone | src/http.rs:330-402 | One zone overwritten card by card: the shown cards, and the set of ids blanked |
| SessionViews.ProjectSessionView | src/http.rs:282-426 | The loops compute the projection: the same zones at the same lengths, events, decision and modifiers as specified |
| SessionVisibility.SecretsAreBlank | src/http.rs:330-402 | A place holds the blank of its zone, owner and index iff its card is secret: in another's hand that no rule, effect, list or question of the viewer reveals; in another's sideboard; in a library unless it is the known top card, asked about, or the viewer's own while sideboarding. Any other card keeps its face |
| SessionVisibility.EventsForgetSecrets | src/http.rs:403-411 | An event loses the id of its card iff some place holds a secret card of that id, and nothing else |
| SessionVisibility.OnlyOwnDecisionAndNotes | src/http.rs:412-424 | The viewer is shown the decision iff it is the viewer's own, notes on observed cards iff meant for the viewer, and every other modifier |
| SessionViews.ShownAlike | src/http.rs:330-402 | Whether a card is shown depends on its id and its place, not on any hidden card |
| SessionViews.OnlyModifiersFlow | src/http.rs:282-426 | Noninterference: whatever lies behind blanks (so long as the same places and ids are blanked), is put to others to decide, or stands in modifiers that do not concern the viewer, the projection is the same but for those modifiers |
| SessionViews.SecretsDoNotFlow | src/http.rs:282-426 | In particular, views that differ only in the cards behind blanks (any cards of the same owners, so long as the same places and ids are blanked), in decisions put to others and in others' notes project equally |
| SessionViews.FacesAreSecret | src/http.rs:282-426 | And where only the faces of cards hidden from the viewer differ |
| SessionViews.LibraryOrderIsSecret | src/http.rs:332-368 | And where a library of which the viewer has been told nothing is shuffled |
| SessionViews.OthersListsAreShownIff | src/http.rs:421-424 | Lists of known cards addressed to others decide nothing that the viewer is shown and are shown themselves: views that differ in them alone project equally if and only if they are equal |
| SessionViews.ListNamesBlankedCard | src/http.rs:332-424 | A concrete view: a list addressed to one player names, in the other's projection, a card that is blanked there |
| SessionViews.NothingNeededIsHidden | src/http.rs:330-402 | The viewer's own hand and sideboard, battlefields, revealed hands and the cards a decision asks the viewer about keep their faces |
| SessionViews.ProjectionIsIdempotent | src/http.rs:282-426 | Projecting twice changes nothing if no listed id has the form of a hidden id |
| SessionViews.BlanksAreDistinct | src/http.rs:255-426 | With cards in their owners' zones, no two blanks of a projection share an id |
| NetworkLobbies.CreatedIsSound | src/http.rs:615-691 | A created lobby satisfies the lobby invariant, has the seats and decks of the request, and its host alone at the table, not ready |
| NetworkLobbies.CreatedIff | src/http.rs:615-640 | A lobby is created iff the username is acceptable, the table has a right size, two to four seats are human and the host's is one of them |
| NetworkLobbies.JoinKeepsInv | src/http.rs:693-761 | So does a lobby after any accepted join |
| NetworkLobbies.NewcomerGetsInIff | src/http.rs:705-744 | A newcomer is seated iff a human seat is free and nobody in the lobby uses the name ignoring case |
| NetworkLobbies.SeatIsResumedIff | src/http.rs:708-744 | A claimed seat is resumed iff the token and the name (ignoring case) are its own; no other name can be in the way |
| NetworkLobbies.LeaveKeepsInv | src/http.rs:1281-1330 | Leaving keeps the invariant while anybody is left, and passes on the host's office |
| NetworkLobbies.LeaveAndReturn | src/http.rs:693-761 | Leaving and joining again under the old name always succeeds, in the first free seat; in the old seat, as in a full lobby, everything is as before but readiness and the host's office |
| NetworkLobbies.LeavingCostsTheDeck | src/http.rs:1281-1310 | Leaving puts that seat, and no other, back to a random deck |
| NetworkLobbies.StartsIffEverybodyIsReady | src/http.rs:763-778 | A lobby can start iff its human seats are distinct, all claimed and all ready, and every deck can be played (by sizes alone) |
| NetworkLobbies.UpdateKeepsInv | src/http.rs:1331-1437 | Every seat update, refused or not, keeps the invariant; Starting is entered exactly when it leaves all human seats claimed and ready |
| NetworkLobbies.ReadyAfterUpdate | src/http.rs:1395-1424 | Who is ready, named and dealt what after an accepted update: a new deck or name costs readiness, nobody else is touched |
| NetworkLobbies.OnlyHostEditsOthers | src/http.rs:1365-1385 | An accepted update of another seat comes from the host, is of an unclaimed seat, and asks for neither name nor readiness |
| NetworkLobbies.AcceptedUpdate | src/http.rs:1339-1400 | An accepted update is of a seat of a lobby not yet starting, asks for a random or a compiled deck, and for a name no other seat uses ignoring case; it clears the lobby's error |
| NetworkLobbies.RefusedHalfway | src/http.rs:1401-1424 | An update refused for want of a deck has already changed deck and name, and leaves the player not ready |
| NetworkLobbies.RefusalKeepsLobbyIff | src/http.rs:1331-1424 | A refused update leaves the lobby as it was if and only if it was refused before it touched anything, or asked for no deck and name but the player's own |
| NetworkLobbies.RefusalCanCostTheDeck | src/http.rs:1395-1424 | A concrete update that is refused and has put the seat back to a random deck |
| NetworkLobbies.RepeatedSeatNeverStarts | src/http.rs:763-778 | A lobby whose human seats repeat an id can never start |
| NetworkRegistries.Registry.DrawCode | src/http.rs:660-668 | A drawn code was never issued |
| NetworkRegistries.Registry.CreateLobby | src/http.rs:615-691 | A new lobby under a new code; everything else unchanged |
| NetworkRegistries.Registry.JoinLobby | src/http.rs:693-761 | Joins or refuses as specified, and keeps the registry valid; an accepted join claims, names and dates the one seat, which is not ready, and touches no other |
| NetworkRegistries.Registry.LeaveLobby | src/http.rs:1281-1330 | The last player to leave closes the lobby |
| NetworkRegistries.Registry.UpdateSeat | src/http.rs:1331-1437 | A launch begins only for a lobby no thread is launching, with all human seats claimed and ready |
| NetworkRegistries.Registry.FailLaunch | src/http.rs:780-788 | A failed launch leaves the lobby, failed and with its error, as it was but that nobody is ready in it |
| NetworkRegistries.Registry.FinishLaunch | src/http.rs:1227-1253 | The game replaces its lobby under the same code, with the host, seats, claims and names of the lobby as copied; a lobby closed meanwhile gets no game |
| NetworkRegistries.Registry.RegisterGame | src/http.rs:1448-1511 | A game under a never-issued code, in both indexes; exactly one code is spent if the seats are right and a fresh code is drawn, also when only the username is refused, and none otherwise |
| NetworkRegistries.Registry.UnregisterGame | src/http.rs:1513-1520 | Removes the game from both indexes |
| NetworkRegistries.Registry.JoinGame | src/http.rs:1582-1663 | Seats a player in a running game by the rule of the rows below; a seat got is human, resumed only by its token, its name no other seat's, and nothing but its claim and name has changed |
| NetworkRegistries.Registry.LeaveGame | src/http.rs:1522-1535 | Anybody but the host leaves; the username stays at the seat |
| NetworkRegistries.Registry.CleanUp | src/http.rs:211-233 | Exactly the lobbies with a player seen in the last 45 seconds stay |
| NetworkRegistries.RequestKeepsLobby | src/http.rs:211-233 | A lobby whose player made a request less than 45 seconds ago survives cleaning up, whatever others did since |
| NetworkRegistries.GameJoinKeepsInv | src/http.rs:1598-1648 | Joining keeps host claimed, claimed seats human, names distinct |
| NetworkRegistries.GameLeaveKeepsInv | src/http.rs:1522-1535 | So does leaving, by anybody but the host |
| NetworkRegistries.GameNewcomerGetsInIff | src/http.rs:1598-1640 | A newcomer gets the first free seat of a running game, if and only if there is one and no other seat bears the name ignoring case; names of players who left count |
| NetworkRegistries.GameSeatIsGivenIff | src/http.rs:1598-1640 | A seat asked for by id: a claimed one is resumed iff token and name are its own; a free human one goes to anybody whose name no other seat bears |
| NetworkRegistries.AbsentPlayerReturnsIff | src/http.rs:1628-1640 | A player who is away is let in again under the old name, asking for no seat, if and only if the old seat is the first free one, and is otherwise refused for that name; asking for the seat always works |
| NetworkRegistries.GameLeaverReturnsIff | src/http.rs:1522-1640 | Leaving and joining again plainly succeeds if and only if the seat left is then the first free one, and then restores the game |
| NetworkRegistries.LeaverCanBeRefused | src/http.rs:1522-1640 | A concrete game: two players leave, and the one of the later seat is refused under the own name |
| NetworkRegistries.AddGame | src/http.rs:1240-1252 | Entering a game keeps the code index and the session index mutually inverse |
| NetworkRegistries.Serve | src/http.rs:615-1520 | Over any requests: the registry stays valid (inverse indexes, disjoint codes, sound lobbies, Starting iff a thread launches) and no invite code is given out twice |
| RatingLedgers.ExpectedSumToOne | src/analytics.rs:1163-1176 | Expected first-place scores share out one point, for any positive exponential |
| RatingLedgers.ActualSumToOne | src/analytics.rs:1178-1193 | Actual scores share out one point, with one winner, several or none |
| RatingLedgers.ActualAre | src/analytics.rs:1178-1193 | Winners share equally and the others get nothing; with no winner all share equally |
| RatingLedgers.ExpectedInRatio | src/analytics.rs:1163-1176 | Expected scores stand in the ratio exp(mu_i/beta) : exp(mu_j/beta), with ratings beyond 30 betas taken for 30 betas |
| RatingLedgers.ExpectedFollowRatings | src/analytics.rs:1163-1176 | Within 30 betas, for every increasing exponential, a seat is expected to score more than another iff it is rated higher |
| RatingLedgers.ExpectedNeverInvert | src/analytics.rs:1163-1176 | Beyond that range too, a higher rating never means a lower expected score |
| RatingLedgers.DeltasCancel | src/analytics.rs:1222-1245 | A game's deltas, summed per stratum, cancel out even when seats share a stratum |
| RatingLedgers.StrataKeepSigmas | src/analytics.rs:1238-1245 | Sigmas stay in [1, 25/3] and never grow; strata never disappear |
| RatingLedgers.ReportMovesRating | src/analytics.rs:1222-1245 | A completed report of several seats moves each of its strata by what its seats scored beyond expectation and narrows its sigma by 0.9975, not below 1; every other report and stratum keeps mu and sigma |
| RatingLedgers.ReportCountsSeats | src/analytics.rs:1207-1290 | A stratum's matches grow by the seats it held, and its rated matches too iff the report was completed by several seats |
| RatingLedgers.PersistedDeckAnalytics.Ingest | src/analytics.rs:1207-1290 | The loops over seats and strata compute the specified ledger |
| RatingLedgers.PersistedDeckAnalytics.SumByKey | src/analytics.rs:1234-1237 | Adds up the deltas of seats that share a stratum |
| RatingLedgers.IngestKeepsBalance | src/analytics.rs:1207-1290 | Every report keeps the balance: sum of (mu - 25) zero, sigmas in range, games = revision = sum over contexts |
| RatingLedgers.EveryLedgerIsBalanced | src/analytics.rs:1207-1290 | From the empty dataset after any reports: the balance holds, games counts the non-empty reports, a stratum exists iff it held a seat and its matches are its seats |
| RatingLedgers.WinnerRisesOthersFall | src/analytics.rs:1222-1245 | With separate strata a sole winner's rating rises strictly and everybody else's falls strictly |
| HttpFraming.HeadersEndForGood | src/http.rs:2610-2621 | More bytes never move the end of headers already received |
| HttpFraming.Connection.Receive | src/http.rs:2610-2621 | A read moves bytes to the buffer and loses none |
| HttpFraming.Connection.ReadRequest | src/http.rs:2604-2678 | Chunk independence: for any split of the bytes, one call returns the next request of the stream, or its error, and leaves exactly what follows |
| HttpFraming.Serve | src/http.rs:2689-2779 | The loop of requests, behind the peek: what it serves is determined by the bytes alone |
| HttpFraming.HandleStream | src/http.rs:2681-2779 | A whole connection: the agent handler has it if the first piece to arrive begins with GET /ai/agents/ws and a space; otherwise, and always if the stream does not begin so, the loop serves it |
| HttpFraming.BytesDecideIff | src/http.rs:2681-2690 | A connection is handled as its bytes alone determine, whatever the pieces, if and only if they do not begin with GET /ai/agents/ws and a space |
| HttpFraming.FrameIsRead | src/http.rs:2622-2678 | A frame followed by anything is read as that frame and only that |
| HttpFraming.ReadIsAFrame | src/http.rs:2622-2678 | Whatever is read was a frame at the front of the stream |
| HttpReading.HowReadingEnds | src/http.rs:2625-2676 | Behind the first blank line: the peer closed within the body, iff fewer bytes than announced arrive; the request line has fewer than three words; or there is a request, its body exactly the bytes announced and nothing after it touched |
| HttpReading.NoBlankLineNoRequest | src/http.rs:2610-2621 | Without one: the peer closed between requests, or within the headers, iff any byte had come |
| HttpReading.FirstLengthDecides | src/http.rs:2626-2635 | The body is as long as the first line says that gives a Content-Length, in any case of letters, a decimal number that fits 64 bits; zero if none does |
| HttpReading.LastFieldIsKept | src/http.rs:2647-2652 | Of header fields with one name, in any case of letters, the last one is kept, trimmed |
| HttpReading.LineFeedEndsLine | src/http.rs:2626-2654 | A line feed ends a line, with or without a carriage return before it |
| HttpReading.TrimDrops | src/http.rs:2627-2665 | Trimming takes the white space off both ends and nothing else |
| HttpReading.SameButForCase | src/http.rs:2626-2665 | Names are equal if they differ at most in the case of ASCII letters |
| HttpFraming.PipelinedRequestsAreServed | src/http.rs:2604-2678 | Pipelined requests are served each once, in order, and what follows is served as if alone |
| HttpFraming.ClosingIsLast | src/http.rs:2689-2779 | A request that asks to close is the last one served, and only then does the serving end without an error or the close of the peer |
| HttpFraming.ServedRequestsWereSent | src/http.rs:2604-2678 | Every stream begins with the frames of the requests served from it |
| HttpRoundTrip.LinesOfJoined | src/http.rs:2623-2624 | Splitting a head into lines undoes joining them |
| HttpRoundTrip.BlankLineIsLast | src/http.rs:2610-2622 | The blank line that ends a written head is its first |
| HttpRoundTrip.HeadIsRead | src/http.rs:2647-2674 | Method, path, fields and the wish to close are read as written |
| HttpRoundTrip.ClosesIff | src/http.rs:2647-2674 | For any version and fields: a request asks to close iff its version is HTTP/1.0, in any case of letters, or some field named connection says close; its path is the target up to the first question mark |
| HttpRoundTrip.WrittenRequestsAreReadBack | src/http.rs:2604-2678 | Round trip: a request written with its Content-Length is one frame and is read as meant (Content-Length framing, section 6.3 of RFC 9112) |
| HttpRoundTrip.WrittenRequestsAreServed | src/http.rs:2689-2779 | The loop serves written requests as meant, each once and in order, up to the first that asks to close |
| HttpRoundTrip.AgentConversationIff | src/http.rs:2681-2688 | A written conversation begins like an agent's if and only if its first request is GET /ai/agents/ws |
| HttpRoundTrip.ServeWritten | src/http.rs:2681-2779 | A conversation of written requests, cut anyhow, is served as meant, up to the first that asks to close, unless its first request is GET /ai/agents/ws and the beginning of it arrives in one piece |
| HttpRoundTrip.AgentRequestDependsOnTheCut | src/http.rs:2681-2690 | The exception is real: such a request sent whole goes to the agent handler, and cut after its method it is served |

## Left out

- The rules of the game (`src/engine/mod.rs`): a finite tree of decisions with winners, boundaries and events; termination of games is the engine's.
- Oracle text, mana-cost parsing, deck formats, deck compilation and the pilot catalogue.
- Statistics that follow the path walked and not the tree (cards milled, mana spent, library minimum, failed draws); memo hits skip them.
- The learner's win fraction and every other floating-point figure; ratings are reals, and rounding is not modelled.
- `TreeCounts` is a value updated by functions, not an object; its saturating sums are modelled.
- The node hash is any function of the key material; that equal hashes mean equal positions is an explicit hypothesis (`KeysIdentify` says what one without collisions tells apart).
- Random generators and seeds: draws are given as tapes, code draws as sequences; a registry that keeps drawing issued codes is "still drawing".
- The interleavings of the outbox are a state machine on values, one step per critical section; locks and threads themselves are not modelled, nor are retry delays.
- SQLite beyond atomic commit, prefix reads and unique ids; integer conversions of sizes (all below 2^63).
- The compaction of stored observations before they are published.
- Per-stratum totals of wins, losses, set wins, rounds and turn metrics; a stratum keeps its rating, its matches and its rated matches.
- Session ids: a registered or launched game has one that no other game has, as the session manager provides.
- JSON numbers are integers, JSON texts are strings; serialisation is not modelled.
- Published match states, completion messages and the content of sideboarding.
- Cards of zones nobody hides and calculated statistics pass through the projection as opaque values.
- Seat tokens: a request says whether its token matches; their secrecy is not modelled. Authentication and the update it admits are one atomic step; in the program a leave of the same player could come between the two, and then the update would put back a name, or readiness, of a seat no longer claimed, so it is the clauses ready within claimed and usernames exactly the claimed seats that rest on the one step.
- Usernames and deck ids arrive trimmed; whether a username is acceptable is part of the request.
- Deck names, pilots, AI controllers and the other presentation fields of a lobby.
- Socket errors other than the close of the peer, and header sizes at the top of the machine's range, where the request's end saturates.
- The bytes the peek shows are taken to be those of the first read; more could arrive between the two.
- HttpRoundTrip.WrittenRequestsAreReadBack: covers requests with a Content-Length; a body in another transfer coding is not read by the program either.
- ReplayProviders.ReplayThenRandomProvider.Choose: the descriptive fields recorded beside each choice are not modelled.
- SegmentSearch.FindWin: only the line, its segment and its source are reported, not the per-segment figures.
- API keys, WebSocket handshakes, HTTP responses and static files.
