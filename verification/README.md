# Delivery, session, ordering and rewriting: a verified model

This project models six parts of the repository and proves what they promise, over every input, every
run and every interleaving of their callbacks.

- **The event stream** (`packages/channel`). A channel numbers the frames it dispatches and keeps the
  resume cursor; a router decodes frames into a bounded queue, hands them to its sinks one at a time and
  acknowledges a frame once every sink has applied it. `Stream` describes both as one transition system
  with an environment that chooses frames, decoder results, sink outcomes and the calls that callbacks
  make on the way. `StreamSafety` proves that acknowledgement never skips a gap, `StreamDelivery` what the
  sinks are handed, `StreamResume` that the served log is delivered once and in order across reconnects
  and across every close that finds nothing owed, `StreamRedelivery` that this condition on a close is the
  exact one, `StreamAcrossCloses` that nothing is left out whatever a close finds, `StreamControls` what each kind of
  frame does to the cursor and to what is owed, `StreamProgress` that the drain is never stuck. `BoundedQueue` and `EventRouter` are the objects themselves, each method proved equal to a step of that system. The cursor follows the
  event id of section 9.2 of the WHATWG HTML Standard: an empty id clears it.
- **The channel's life cycle** (`packages/channel`). `Attempt` and `ConnectionAttempt` model one
  connection attempt with its timers and its borrowed session, `AttemptEndings` how each callback settles it;
  `Reconnect` the loop with its retry count, budget and credited uptime, `ReconnectTheorems` when it goes on
  and how it ends in terms of its rounds; `Sessions`, `ChannelOutcomes` and `ChannelSessions` the sessions
  that `connect` and `close` install and supersede while their observers call back.
- **The browser session store** (`packages/auth`). `SessionStore` is the concurrent state machine of
  status checks, the queue of logins and logouts, the expiry timer, `invalidate` and `close`, with
  subscribers that call back while they are notified. `SessionSafety` holds its invariant,
  `SessionTheorems` what follows from it, `SessionOrder` what holds of the order in which logins and logouts
  are called, `SessionOutcomes` what every call and answer shows, `SessionJourneys` what becomes of a whole
  login, logout or check, and `AuthStore` is the store as an object.
- **Two topological sorts**. `CapabilityOrder`, `CapabilityCycles` and `CapabilitySort` treat the sort of
  `packages/app` with its counters, its registration-order tie-break and its cycle report; `PublishOrder`,
  `PublishTheorems`, `PublishTies` and `PublishSearch` the depth-first search of `internal/release`, the order
  it puts packages in and its checker. Both use the graphs of `DependencyGraph`.
- **Comment reflow** (`internal/comment-format`). `SentenceWrap`, `WordTokens`, `CommentFill` and
  `CommentText` say what wrapping, splitting and filling mean, `CommentLayout` says it again from lines and
  columns alone, `CommentWords` what words and sentences are, `CommentScope` which comments are touched; `CommentReading`, `CommentFixedPoint`,
  `CommentGroups`, `CommentLines`, `CommentRescan`, `CommentMoves`, `CommentSettles`, `CommentTwice` and
  `CommentWitness` when a second run changes nothing; `CommentConservation` what a run keeps of the text;
  `CommentReflow` and `CommentEdits` are the loops of the program, down to the splice of the edits.
- **Manifest sync and form decoding** (`internal/shape`, `packages/connect`). `ManifestProfile`,
  `ManifestTheorems`, `ManifestOutcomes`, `ManifestChecks` and `ManifestSync` treat the rewrite of a manifest
  as an ordered map, what it says afterwards and the drift check it has to satisfy; `FormValues`,
  `FormRoundTrip`, `FormOrigins`, `FormAcceptance`, `FormBlanks` and `FormDecoder` the flat control names of a
  form, which forms are accepted and the nested message they decode to.

`Outcomes`, `Decimal`, `FiniteSets`, `Sorting` and `OrderedMaps` are shared helpers.

A program that changes things step by step is modelled twice: once as functions on values, about which the
theorems speak, and once as a class or method with fields, loops and frames, whose postcondition says that
it does what the functions say. A callback that may call back into the object carries, in the step that
runs it, the list of calls it makes, and those calls carry theirs; so the theorems range over every
reentrant observer as well.

## What the proofs show that the code or its documentation does not say

- Delivery is exactly-once across a caller's `close` only if the close finds nothing owed, that is, every
  accepted entry settled (`StreamResume.SinksSeeEachEventOnce`). Of an open router this condition is exact: any
  other close has a continuation within the next session that accepts an entry again
  (`StreamRedelivery.CloseIsCleanExactly`), and hands it to a sink again if it carries an event
  (`StreamRedelivery.OwedEventIsRedelivered`; `StreamAcrossCloses.CloseRedelivers` is such a run), because the
  close drops the cursor movement of whatever is in flight (`StreamAcrossCloses.CloseForfeitsCursor`). No served
  entry is left out in any case (`StreamAcrossCloses.NoEntryIsLeftOut`).
- A blank control for a field whose empty text means unset changes nothing in an accepted form if and only if
  other controls fill the message that the field belongs to (`FormBlanks.BlankControlChangesNothing`). If none
  do, it brings that message into being, empty.
- Ties in the publish order are not broken by the names of the packages that are free to go next: a package
  goes with the first package by name that needs it (`PublishTies.OrderedByRoutes`;
  `PublishTies.FreePackagesAreNotOrderedByName` is a set in which `z` goes before `b`).
- `endWithFailure` sets the status of the channel after its attempt has settled
  (`packages/channel/src/lifecycle/channel.ts:388-390`). `Attempt.LateStatusExactly` gives the exact
  condition, and `Attempt.LateFailureHidesOpenConnection` a run in which it hides the open connection of the
  next attempt.
- The bound of sixteen pending mutations is tested before `fence` notifies subscribers. A subscriber that
  logs in during the sixteenth login makes seventeen (`SessionTheorems.NestedLoginExceedsBound`). A login or
  logout that is not refused keeps the bound if and only if the logins and logouts its subscribers call, to
  any depth, leave room for it (`SessionTheorems.BoundKeptExactly`), and a run stays within the bound if and
  only if every call of it does so when it is made (`SessionTheorems.PendingIsBounded`).
- A queued logout can overtake a login, although `packages/auth/README.md:47` says that it cannot: `fence`
  notifies subscribers before the login is chained, so a subscriber that logs out then is queued first, and
  the login, which was called first, signs the user in after that logout
  (`SessionOrder.EarlierLoginOvertakesLogout`). A login or logout that is not refused takes the next place in
  the queue if and only if its subscribers call no login or logout (`SessionOrder.TakesNextPlace`), and over a
  whole run places are taken in call order if and only if every call of it is such a call when it is made
  (`SessionOrder.CallOrderExactly`). In such runs every logout fences (`SessionOrder.EveryLogoutFences`); a
  logout that is called from outside does in any run (`SessionOrder.LogoutFencesLaterCalls`).
- A subscriber that is told of an adopted session need not find one: an earlier subscriber of the same
  notification may have called `close`, which publishes nothing
  (`SessionTheorems.LaterSubscriberFindsNone`). `SessionTheorems.SubscribersSeeIt` says exactly when it does.
- Expiry leaves the status check of the expired generation in place (`SessionTheorems.ExpiryLeavesStaleFlight`);
  only the block keeps it from being joined.
- The comment above `reflowSource` calls the transform a stable fixed point. It is one, for whole files of line
  groups and block comments, when in the comments that are reflowed no word holds an unclosed code span or tag,
  no wrapped line begins like a marker, a tag, a table row or a fence, and no word of a line comment starts a
  directive (`CommentFixedPoint.FillIsFixedPoint`, `CommentTwice.SecondRunChangesNothing`).
  `CommentWitness.ReflowingTwiceCanDiffer` is an over-wide comment that the first run changes and the second
  run changes again.
- Reflow keeps the text of line comments in every case (`CommentConservation.LineGroupConserves`), and that of
  a multi-line doc comment if and only if nothing but white space stands on its opening line
  (`CommentConservation.BlockConservesExactly`): text there is dropped (`CommentGroups.OpeningTextIsDropped`;
  `CommentWitness.OpeningTextIsLost` is such a comment).

## Model

| member | source | states |
|---|---|---|
| StreamSafety.AcknowledgementSkipsNothing | packages/channel/src/events/router.ts:107-210 | In every run, under all overflow policies, decoders, sinks and reentrant resets and closes: a step moves the cursor only to the oldest owed frame, numbered under the current channel generation, and only when every frame the router accepted before it in that router generation is settled (applied by all sinks or decoded to nothing); any other step leaves the cursor or clears it |
| StreamSafety.MovesIncrease | packages/channel/src/lifecycle/channel.ts:670-681 | No dispatch moves the cursor twice, and moves follow the order of dispatch, over a whole run |
| StreamSafety.PendingIdsAreExact | packages/channel/src/events/router.ts:128-160 | While the router is open its pending ids are exactly the ids of current-generation items queued or in flight, each carried by one item only, and the queue is within its capacity |
| StreamResume.SinksSeeEachEventOnce | packages/channel/src/lifecycle/channel.ts:258-279 | Over any number of sessions, as long as every close of the channel finds nothing owed and nothing resets it, with a strictly increasing log replayed from just past the cursor: the accepted frames are that log without gap or duplicate, and what each sink was handed is the events of a prefix of it, across any number of reconnects with items still queued |
| StreamResume.CursorIsLastSettled | packages/channel/src/lifecycle/channel.ts:670-681 | In such a run the cursor that a connection of this session or the next resumes from stands just past the last entry every sink has applied |
| StreamRedelivery.CloseIsCleanExactly | packages/channel/src/lifecycle/channel.ts:628-644 | After any such run a close keeps the accepted entries a gapless stretch of the log without repetition, in every continuation within the next session, if and only if it finds nothing owed or the router closed |
| StreamRedelivery.OwedEventIsRedelivered | packages/channel/src/lifecycle/channel.ts:628-644 | A close of an open router that finds an entry with an event owed has a continuation within the next session that hands a sink that very entry twice, whichever of the owed entries it is |
| StreamResume.ReplayMeetsCursor | packages/channel/src/lifecycle/channel.ts:264-273 | The duplicate test of dispatch agrees with the replay: at the cursor of entry n exactly the entries before n read as already applied |
| StreamAcrossCloses.CloseForfeitsCursor | packages/channel/src/lifecycle/channel.ts:628-644 | After a caller's close, in any later run, the cursor only ever moves to frames dispatched after that close: whatever it found in flight is forfeited |
| StreamAcrossCloses.CloseRedelivers | packages/channel/src/lifecycle/channel.ts:628-644 | Such a close is reached: for every server log that is not empty, a run in which a sink is handed its first event twice |
| StreamAcrossCloses.NoEntryIsLeftOut | packages/channel/src/lifecycle/channel.ts:258-279 | It is at-least-once: over any number of closes and sessions, as long as the router does not reset, each sink is handed the events of a prefix of the accepted entries, and that prefix leaves out no served entry from the seed up to the furthest one it holds |
| StreamAcrossCloses.KnownCursorReplays | packages/channel/src/lifecycle/channel.ts:258-279 | Whatever the cursor is in such a run, a replay for it starts no later than just past the furthest accepted entry |
| StreamDelivery.NextHands | packages/channel/src/events/router.ts:170-210 | Every step that does not reset the router hands each sink nothing but the events of the accepted frames in their order, whatever happens to the channel |
| StreamDelivery.ArrivalHears | packages/channel/src/events/router.ts:128-160 | A frame the channel emits is accepted by an open router or owed by it already; one it does not emit is not accepted, and no arrival moves the cursor on |
| StreamControls.CompareExactly | packages/channel/src/lifecycle/channel.ts:266-273 | An id counts as a replay if and only if it is the cursor or a server wrote both in one epoch with no later sequence number; the test fails if and only if both look like cursors, differ, and one is not what a server writes |
| StreamControls.ValidExactly | packages/channel/src/events/control.ts:9-39 | A control frame is valid if and only if it is a `connected` or `reset` whose cursor a server wrote, the first naming its epoch and the second one of the three reasons; a `failure` never is |
| StreamControls.DispatchExactly | packages/channel/src/lifecycle/channel.ts:258-279 | Listeners hear exactly the valid controls and the data frames the cursor does not cover, their retry directive permitting; only such data frames take the next number, and only a valid `reset` touches cursor and generation |
| StreamControls.CursorFollowsId | packages/channel/src/lifecycle/channel.ts:670-681 | In every run a step that moves the cursor moves it to the id of the oldest owed frame; an empty id clears it and a frame without one leaves it |
| StreamControls.ConnectedKeepsCursor | packages/channel/src/lifecycle/channel.ts:258-279 | A valid `connected` frame marks the boundary and may set the retry minimum; it changes no cursor, generation, number or delivery and nothing of the router |
| StreamControls.MalformedControlChangesNothing | packages/channel/src/lifecycle/channel.ts:258-279 | A control that is not valid changes nothing itself; a `failure` is still heard by the listeners, other ones are not |
| StreamControls.ResetForfeitsCursor | packages/channel/src/lifecycle/channel.ts:201-204 | A valid `reset` forgets the cursor, and in any later run no frame numbered before it ever moves the cursor again |
| StreamControls.ResetCallForfeitsCursor | packages/channel/src/lifecycle/channel.ts:201-204 | So does a call of `resetCursor`, from outside or from any callback |
| StreamControls.RouterGivesUpExactly | packages/channel/src/events/router.ts:107-160 | The router gives up its generation in exactly four cases, unless it is closed on the way: it hears a `reset`, a frame it does not owe fails to decode or finds no room under any policy, or a sink fails; nothing is pending then and the cursor is forgotten |
| StreamControls.GivenUpIsGone | packages/channel/src/events/router.ts:107-160 | After that, in any run, no frame accepted up to then is handed to a sink again and none numbered up to then moves the cursor |
| StreamControls.UndisturbedIsClean | packages/channel/src/lifecycle/channel.ts:258-279 | A run whose actions bring no valid reset, lost frame, failing sink or reset call, and close only with nothing owed, is one the exactly-once theorem speaks of, `connected` frames included |
| StreamControls.UndisturbedRunDeliversOnce | packages/channel/src/events/router.ts:107-210 | In such a run each sink is handed the events of a prefix of the served log, each once; and of all of it, with the cursor at its end, once everything is served and the drain of the open router waits |
| StreamProgress.DrainIsNeverStuck | packages/channel/src/events/router.ts:170-210 | From every reachable state the continuations that are due, each sink applying what it is handed, bring the drain to wait with everything accepted settled, or to stop with its router |
| EventCursor.ParseFormat | packages/channel/src/events/cursor.ts:9-19 | Every cursor `epoch:sequence` with a 32-digit epoch and an unsigned 64-bit sequence parses back to itself |
| EventCursor.FormatParse | packages/channel/src/events/cursor.ts:9-19 | Whatever parses is the canonical text of what it parses to |
| EventCursor.ParseAccepts | packages/channel/src/events/cursor.ts:9-19 | An id is accepted if and only if it is the text of a valid cursor: no leading zero, no sequence above 64 bits |
| BoundedQueue.BoundedQueue.constructor | packages/std/src/resilience/bounded-queue.ts:98-114 | A new queue is empty and open |
| BoundedQueue.BoundedQueue.TakeHead | packages/std/src/resilience/bounded-queue.ts:103-112 | Takes the oldest item; compacting the buffer behind the moving head does not change the contents |
| BoundedQueue.BoundedQueue.Push | packages/std/src/resilience/bounded-queue.ts:121-145 | First in, first out within the capacity: hands the item to the longest waiting consumer, appends it, or applies the overflow policy (refuse, drop the newcomer, evict exactly the oldest); nothing changes once closed |
| BoundedQueue.BoundedQueue.Pop | packages/std/src/resilience/bounded-queue.ts:149-184 | Takes the oldest item, joins the end of the line of waiters when empty, or rejects when closed, aborted or the line is full |
| BoundedQueue.BoundedQueue.TryPop | packages/std/src/resilience/bounded-queue.ts:146-148 | Takes the oldest item if there is one and never waits |
| BoundedQueue.BoundedQueue.Cancel | packages/std/src/resilience/bounded-queue.ts:174-180 | An aborted waiter leaves the line, and no other does; one that was served already stays served |
| BoundedQueue.BoundedQueue.Close | packages/std/src/resilience/bounded-queue.ts:185-193 | Closes the queue, rejects every waiter and keeps what is buffered |
| EventRouter.DeliveryChannel.constructor | packages/channel/src/lifecycle/channel.ts:195-200 | A channel starts at its seed cursor with nothing dispatched |
| EventRouter.DeliveryChannel.ResetCursor | packages/channel/src/lifecycle/channel.ts:201-204 | Starts a new generation and forgets the cursor |
| EventRouter.DeliveryChannel.SetServerRetry | packages/channel/src/lifecycle/channel.ts:250-253 | Keeps the server's minimum, or throws on an invalid directive and changes nothing |
| EventRouter.DeliveryChannel.Dispatch | packages/channel/src/lifecycle/channel.ts:258-279 | Control, duplicate, replayed and fresh frames, the failures of an invalid control or cursor, and the numbering of a fresh frame, as the transition system has them |
| EventRouter.DeliveryChannel.Acknowledge | packages/channel/src/lifecycle/channel.ts:670-681 | Moves the cursor only for a numbered frame of the current generation that is newer than the last one acknowledged; an empty id clears it |
| EventRouter.DeliveryChannel.CloseGeneration | packages/channel/src/lifecycle/channel.ts:628-644 | A caller's close outdates every outstanding delivery |
| EventRouter.EventRouter.constructor | packages/channel/src/events/router.ts:126-216 | A router starts empty, in generation zero, with its drain about to pop |
| EventRouter.EventRouter.Reset | packages/channel/src/events/router.ts:107-115 | Unless closed: a new generation and signal, no pending ids, no cursor; the queue keeps its outdated items |
| EventRouter.EventRouter.ReportDrop | packages/channel/src/events/router.ts:116-125 | The observers of a drop run, with any calls they make, before the router resets |
| EventRouter.EventRouter.Callbacks | packages/channel/src/events/router.ts:85-92 | Observers may close the channel, reset its cursor and close the router, in any order and number |
| EventRouter.EventRouter.Push | packages/channel/src/events/router.ts:149-160 | Queues a delivery in the order of acceptance; an eviction, a refusal or a full queue is a drop and resets |
| EventRouter.EventRouter.Offer | packages/channel/src/events/router.ts:149-154 | The queue takes, hands over, evicts for or refuses the delivery, and what it accepts is recorded |
| EventRouter.EventRouter.OnFrame | packages/channel/src/events/router.ts:128-160 | The frame listener: reset and connected frames, failure frames left alone, pending duplicates skipped, decode failures reset, anything else queued |
| EventRouter.EventRouter.Hear | packages/channel/src/events/router.ts:141-160 | The part of the listener that follows the decoder, under whatever generation the decoder left |
| EventRouter.EventRouter.Pull | packages/channel/src/events/router.ts:170-178 | The drain takes the oldest item, waits for one, or stops once the router is closed |
| EventRouter.EventRouter.Resume | packages/channel/src/events/router.ts:179-187 | A popped item of an older generation is skipped, one without an event is acknowledged, any other goes to the first sink |
| EventRouter.EventRouter.FromSink | packages/channel/src/events/router.ts:186-192 | The sinks are called in order until one is still to answer or the delivery is aborted |
| EventRouter.EventRouter.SinkResolved | packages/channel/src/events/router.ts:194-208 | A sink that answers hands the item to the next; after the last it is acknowledged if its generation still holds |
| EventRouter.EventRouter.SinkRejected | packages/channel/src/events/router.ts:196-208 | A failing sink resets the router unless the delivery was aborted, and its item is not acknowledged |
| EventRouter.EventRouter.Finish | packages/channel/src/events/router.ts:205-208 | Only an item of the current generation frees its id, and only an applied one is acknowledged |
| EventRouter.EventRouter.Forget | packages/channel/src/events/router.ts:206 | Frees the id of one item and no other |
| EventRouter.EventRouter.AcknowledgeFrame | packages/channel/src/events/router.ts:207 | Acknowledges the item's own frame to the channel |
| EventRouter.EventRouter.Close | packages/channel/src/events/router.ts:218-234 | Stops the drain, aborts the delivery, closes the queue and leaves nothing pending; a second close does nothing |
| Attempt.AttemptsSettleAndRelease | packages/channel/src/lifecycle/channel.ts:333-510 | Under any order of open, frame, retry, timeouts, aborts, a late lease and the end of the transport, with reentrant observers: an attempt settles at most once, every lease it borrows is released exactly once when both have happened, the transport opens at most once, no timer stays armed after settlement, and it resolves only after a stable open |
| Attempt.SettlementIsFinal | packages/channel/src/lifecycle/channel.ts:355-362 | No later step changes how an attempt settled |
| Attempt.LateStatusExactly | packages/channel/src/lifecycle/channel.ts:369-393 | A callback of a settled attempt shows reconnecting exactly when it reports a retryable failure that is neither an authentication failure from the server nor, unless the server sent it, the drop of a stable connection, while reconnection is on and the session not closed; it stays shown unless an observer of that change closes the session |
| Attempt.LateFailureHidesOpenConnection | packages/channel/src/lifecycle/channel.ts:388-391 | A run in which the late failure of a timed-out attempt hides that its successor is open |
| AttemptEndings.AttemptEndsExactly | packages/channel/src/lifecycle/channel.ts:355-505 | How every callback settles an unsettled attempt or does not: an abort rejects it; the retryable local drop or clean end of a connection that was open for the minimum uptime resolves it; every other reported failure rejects it |
| AttemptEndings.SettledAttemptIsInert | packages/channel/src/lifecycle/channel.ts:322-365 | A callback of a settled attempt opens nothing and arms nothing, and a lease that arrives late is given back at once |
| AttemptEndings.AbortedAttemptNeverOpens | packages/channel/src/lifecycle/channel.ts:466-470 | An attempt that begins in an aborted session rejects at once and never opens its transport, whatever follows |
| AttemptEndings.HealthyAttemptResolves | packages/channel/src/lifecycle/channel.ts:305-510 | An attempt that is admitted, opens and hears any number of frames stays open with its lease held and only the idle timer armed; when the transport ends it resolves if it was up long enough and is rejected as retryable otherwise, with both timers gone and the lease given back |
| ConnectionAttempt.ConnectionAttempt.constructor | packages/channel/src/lifecycle/channel.ts:412-488 | An attempt starts with its connect timer armed, or settles at once when its session is aborted |
| ConnectionAttempt.ConnectionAttempt.Settle | packages/channel/src/lifecycle/channel.ts:345-362 | The first settlement counts, cancels both timers and returns the lease; later ones change nothing |
| ConnectionAttempt.ConnectionAttempt.ShowStatus | packages/channel/src/lifecycle/channel.ts:238-248 | Observers hear a changed status only, and may abort the attempt from there |
| ConnectionAttempt.ConnectionAttempt.Notify | packages/channel/src/lifecycle/channel.ts:340-410 | Aborts of the session or of the lease that observers cause take effect one after the other |
| ConnectionAttempt.ConnectionAttempt.Fail | packages/channel/src/lifecycle/channel.ts:369-393 | A failure resolves a stable connection, rejects any other, and shows reconnecting unless it is final |
| ConnectionAttempt.ConnectionAttempt.ArmIdleTimer | packages/channel/src/lifecycle/channel.ts:397-407 | The idle timer is armed only while the attempt is not settled and an idle limit is set |
| ConnectionAttempt.ConnectionAttempt.LeaseArrived | packages/channel/src/lifecycle/channel.ts:474-488 | A lease that arrives after settlement is released at once; one already aborted ends the attempt |
| ConnectionAttempt.ConnectionAttempt.AdmissionRejected | packages/channel/src/lifecycle/channel.ts:489-509 | A failed admission rejects the attempt |
| ConnectionAttempt.ConnectionAttempt.HeadersReady | packages/channel/src/lifecycle/channel.ts:490-496 | The transport is opened once the headers are there, unless the attempt has settled |
| ConnectionAttempt.ConnectionAttempt.OnOpen | packages/channel/src/lifecycle/channel.ts:422-437 | The first open cancels the connect timer, records when, arms the idle timer and shows open |
| ConnectionAttempt.ConnectionAttempt.OnFrame | packages/channel/src/lifecycle/channel.ts:438-455 | A frame restarts the idle timer and reaches its listeners; a dispatch that throws fails the attempt |
| ConnectionAttempt.ConnectionAttempt.OnRetry | packages/channel/src/lifecycle/channel.ts:458-465 | An invalid retry directive fails the attempt, unless it has settled |
| ConnectionAttempt.ConnectionAttempt.ConnectTimedOut | packages/channel/src/lifecycle/channel.ts:412-416 | The connect timeout fails the attempt |
| ConnectionAttempt.ConnectionAttempt.IdleTimedOut | packages/channel/src/lifecycle/channel.ts:397-407 | The idle timeout fails the attempt |
| ConnectionAttempt.ConnectionAttempt.TimerBroke | packages/channel/src/lifecycle/channel.ts:394-396 | A timer that breaks fails the attempt for good |
| ConnectionAttempt.ConnectionAttempt.Aborted | packages/channel/src/lifecycle/channel.ts:340-343 | An abort of the lease rejects with the server's reason, one of the session with an abort, and a settled attempt stays as it was |
| ConnectionAttempt.ConnectionAttempt.Promises | packages/channel/src/lifecycle/channel.ts:333-510 | A valid attempt has settled at most once, holds exactly the leases it has not given back and has no timer armed once settled; every callback keeps it valid and its settlement final |
| ConnectionAttempt.ConnectionAttempt.StreamEnded | packages/channel/src/lifecycle/channel.ts:497-505 | A clean end resolves a stable connection and fails any other |
| ConnectionAttempt.ConnectionAttempt.StreamFailed | packages/channel/src/lifecycle/channel.ts:506 | A broken transport fails the attempt |
| Reconnect.BurstsAreBounded | packages/channel/src/lifecycle/channel.ts:513-596 | Between two attempts that resolve at most maxRetries + 1 attempts fail and the waits taken after failures add up to less than the retry budget, whatever healthy uptime is credited and however large the server's minimums; every single wait, the one after a resolved attempt included, is below the budget and no shorter than the server asked for |
| Reconnect.FailingLoopEnds | packages/channel/src/lifecycle/channel.ts:513-596 | When every attempt fails the loop ends by itself within maxRetries + 1 turns |
| ReconnectTheorems.LoopGoesOnExactly | packages/channel/src/lifecycle/channel.ts:513-600 | The loop still runs after a script of rounds if and only if every round of it went on: it was admitted, its attempt resolved or failed retryably within the retry limit, and the wait fitted into what the rounds had left of the budget |
| ReconnectTheorems.EveryRoundIsRecorded | packages/channel/src/lifecycle/channel.ts:513-600 | Every round of a loop that goes on is one attempt with the admission budget its predecessors left, one end or failure, and one wait no shorter than the server asked for and the backoff |
| ReconnectTheorems.LoopEndsExactly | packages/channel/src/lifecycle/channel.ts:513-600 | After rounds that went on, which round ends the loop and how: fatally if and only if its attempt was rejected, its session open, and the failure final or reconnecting off; exhausted if and only if it fails once more than the limit allows or no budget is left for the attempt or the wait; unconfirmed, broken and finished likewise |
| ReconnectTheorems.RetryableFailureIsRetried | packages/channel/src/lifecycle/channel.ts:531-600 | A retryable failure within limit and budget, with the session open, revalidation confirmed and the timer working, is followed by a wait and a new attempt |
| Reconnect.ReconnectLoop.constructor | packages/channel/src/lifecycle/channel.ts:513-518 | The loop starts with no failure counted |
| Reconnect.ReconnectLoop.Admission | packages/channel/src/lifecycle/channel.ts:519-529 | A turn starts only while the session is open, within the retry limit and inside the budget |
| Reconnect.ReconnectLoop.AttemptEnded | packages/channel/src/lifecycle/channel.ts:530-551 | A resolved attempt starts a new burst, a failed one is counted and its uptime credited, a final one ends the loop |
| Reconnect.ReconnectLoop.WaitForNext | packages/channel/src/lifecycle/channel.ts:552-596 | The wait is the larger of the backoff and the server's minimum and is taken only if it fits the budget |
| Reconnect.RunReconnectLoop | packages/channel/src/lifecycle/channel.ts:513-614 | The loop plays exactly the events and the ending of its specification, over any script of attempts, clock readings and backoffs |
| Sessions.AtMostOneSession | packages/channel/src/lifecycle/channel.ts:616-644 | In every run with reentrant observers at most one session is open and it is the installed one; each session is closed at most once |
| Sessions.ClosedSessionIsInert | packages/channel/src/lifecycle/channel.ts:513-614 | A step of the loop or attempt of a closed session changes no status, terminal error, cursor, generation or other session |
| Sessions.ClosedSessionsStayInert | packages/channel/src/lifecycle/channel.ts:513-644 | The same over every later run of steps of closed sessions, however they were closed |
| Sessions.CloseClosesTheSession | packages/channel/src/lifecycle/channel.ts:628-644 | Whatever its observers do, `close` leaves the session it found closed; undisturbed it leaves no session installed and the status closed |
| Sessions.LoopEndIsAtomic | packages/channel/src/lifecycle/channel.ts:597-613 | A loop that ends by itself leaves its session closed with its own terminal error; no observer can install another session in between |
| ChannelOutcomes.ConnectOutcomes | packages/channel/src/lifecycle/channel.ts:617-627 | `connect` is ignored while a session is installed; otherwise it forgets the last error and starts a first attempt shown as connecting, or, with no budget to admit one, ends the session exhausted and tells so after showing closed |
| ChannelOutcomes.CloseOutcomes | packages/channel/src/lifecycle/channel.ts:628-644 | `close` is ignored without an open session; otherwise closing is shown first and closed last, the attempt aborted, the generation outdated, nothing installed and the error kept |
| ChannelOutcomes.AttemptOutcomes | packages/channel/src/lifecycle/channel.ts:381-437 | An attempt under way shows open when it opens; a retryable failure of an open session shows reconnecting where reconnection is on, and no other failure shows anything |
| ChannelOutcomes.LoopOutcomes | packages/channel/src/lifecycle/channel.ts:513-560 | Behind an attempt that is over the loop of an open session waits, showing reconnecting, and starts the next attempt; that of a closed one does neither |
| ChannelOutcomes.LoopEndOutcomes | packages/channel/src/lifecycle/channel.ts:597-613 | The loop of the installed session closes it, keeps its error and tells it last; that of any other session changes nothing to see |
| ChannelOutcomes.DroppedSessionReopens | packages/channel/src/lifecycle/channel.ts:513-600 | A run: connecting, open, reconnecting from the drop until the second attempt opens, and open again, all in one session |
| ChannelSessions.ChannelSessions.constructor | packages/channel/src/lifecycle/channel.ts:195-200 | A channel starts without a session |
| ChannelSessions.ChannelSessions.Promises | packages/channel/src/lifecycle/channel.ts:597-644 | A valid channel has exactly its installed session open and each other one closed once; every call and every step of a loop keeps it valid |
| ChannelSessions.ChannelSessions.ShowStatus | packages/channel/src/lifecycle/channel.ts:238-248 | Observers hear a changed status only, and their calls run to the end first |
| ChannelSessions.ChannelSessions.Notify | packages/channel/src/lifecycle/channel.ts:220-227 | The calls of observers take effect one after the other |
| ChannelSessions.ChannelSessions.Connect | packages/channel/src/lifecycle/channel.ts:617-627 | Installs a session and starts its first attempt, unless one is installed |
| ChannelSessions.ChannelSessions.Close | packages/channel/src/lifecycle/channel.ts:628-644 | Marks, notifies, outdates deliveries, uninstalls and notifies, in that order |
| ChannelSessions.ChannelSessions.RunOneConnection | packages/channel/src/lifecycle/channel.ts:318-329 | The first attempt of a session shows connecting and later ones reconnecting; when an observer closes the session on the way the attempt does not go live |
| ChannelSessions.ChannelSessions.AttemptFailed | packages/channel/src/lifecycle/channel.ts:388-391 | A failing attempt shows reconnecting only while its session is open |
| ChannelSessions.ChannelSessions.LoopContinued | packages/channel/src/lifecycle/channel.ts:552-596 | A loop that goes on waits for its next turn |
| ChannelSessions.ChannelSessions.LoopTurned | packages/channel/src/lifecycle/channel.ts:519-529 | The next turn starts an attempt unless the session was closed |
| ChannelSessions.ChannelSessions.Retire | packages/channel/src/lifecycle/channel.ts:597-613 | Retires its own session once: closed, outdated, terminal error published, uninstalled |
| ChannelSessions.ChannelSessions.LoopEnded | packages/channel/src/lifecycle/channel.ts:597-613 | A loop that ends retires its session only if the caller has not closed it, and then reports its error |
| SessionTheorems.CredentialIsPublishedAndTimed | packages/auth/src/session/store.ts:138-262 | In every reachable state: a held credential is the published identity and expiry, the lifetime is live, exactly one expiry timer is armed and the store is not blocked; without one no timer is armed |
| SessionTheorems.SubscribersSeeIt | packages/auth/src/session/store.ts:138-262 | In every notification of every run, an adoption's own and those nested in the reactions of other subscribers included, what each subscriber finds, the first one and those after whatever the earlier ones called: a held credential is the published one, with a live lifetime, one armed timer and no block; without one no timer is armed; and one that is told authenticated finds a credential if and only if `close` has not run since that was published |
| SessionTheorems.FirstSubscriberFindsIt | packages/auth/src/session/store.ts:138-262 | A notification is a publication: its first subscriber is told before any `close` can have run |
| SessionTheorems.LaterSubscriberFindsNone | packages/auth/src/session/store.ts:465-476 | A notification whose second subscriber is told authenticated and finds no credential |
| SessionTheorems.RevalidateJoinsCurrentFlight | packages/auth/src/session/store.ts:264-336 | An unblocked `revalidate` never joins a status check of an older generation |
| SessionTheorems.ExpiryLeavesStaleFlight | packages/auth/src/session/store.ts:238-245 | A run after which expiry has left a status check of the expired generation in place |
| SessionTheorems.LogoutFences | packages/auth/src/session/store.ts:178-464 | Once `logout` was called from outside, in every continuation, the published status is authenticated only if a login queued at or after that call has been adopted since: not by earlier status checks or logins, not with a full queue, not through a reentrant subscriber |
| SessionTheorems.MutationsRunInQueueOrder | packages/auth/src/session/store.ts:338-359 | Pending mutations are counted exactly, run one at a time, start in the order of the queue and each at most once |
| SessionOrder.TakesNextPlace | packages/auth/src/session/store.ts:338-359 | A login or logout that is not refused takes the next place in the queue if and only if its subscribers call no login or logout, to any depth |
| SessionOrder.CallOrderExactly | packages/auth/src/session/store.ts:338-359 | Over a whole run the places in the queue are taken in the order in which logins and logouts were called if and only if every call is ordered when it is made: refused, or without logins and logouts among the calls of its subscribers; such a run keeps the bound as well |
| SessionOrder.MutationsStartInCallOrder | packages/auth/src/session/store.ts:338-359 | In such a run logins and logouts start in the order in which they were called |
| SessionOrder.EveryLogoutFences | packages/auth/src/session/store.ts:421-464 | In such a run every `logout`, from outside or from a subscriber at any depth, refused or not, fences: the published status is authenticated only if a login called after it has been adopted since |
| SessionOrder.LogoutFencesLaterCalls | packages/auth/src/session/store.ts:421-464 | In any run a `logout` from outside fences: the published status is authenticated only if a login called after it has been adopted since |
| SessionOrder.EarlierLoginOvertakesLogout | packages/auth/src/session/store.ts:338-359 | A run in which a login called before a logout starts after it and signs the user in |
| SessionTheorems.NothingQueuedBeforeCloseStarts | packages/auth/src/session/store.ts:350-353 | Only the head of the queue starts, and only if it was queued after the last `close` |
| SessionTheorems.BoundKeptExactly | packages/auth/src/session/store.ts:338-359 | A login or logout called with fewer than sixteen pending keeps the bound if and only if the pending ones and all logins and logouts its subscribers call, to any depth, are fewer than sixteen |
| SessionTheorems.PendingIsBounded | packages/auth/src/session/store.ts:338-359 | At most sixteen mutations are pending at every moment of a run if and only if every call of the run fits when it is made |
| SessionTheorems.TameRunsAreBounded | packages/auth/src/session/store.ts:338-359 | In particular when no subscriber of a login or logout queues another |
| SessionTheorems.BoundKeptExactlyWhenTame | packages/auth/src/session/store.ts:342-348 | At the brink, with fifteen pending, exactly the calls whose subscribers queue nothing keep the bound |
| SessionTheorems.NestedLoginExceedsBound | packages/auth/src/session/store.ts:342-348 | A run with seventeen pending mutations |
| SessionTheorems.ProofsAreSpentOnce | packages/auth/src/session/store.ts:441-442 | Each stored CSRF proof is spent by at most one logout, and in the order they were stored |
| SessionTheorems.LoginLeavesItsProof | packages/auth/src/session/store.ts:411-442 | A login that answers, superseded or not, leaves its proof, and a logout queued right behind it that starts spends exactly that proof, whatever happens until then |
| SessionOutcomes.CheckOutcomes | packages/auth/src/session/store.ts:163-176 | In every reachable state and for every answer to a check that is current: it shows the session if and only if that is within its bounds; it shows `unconfirmed`, with the identity shown before and the block as it was, if and only if the cause could not confirm; anything else blocks, signs out and shows the cause |
| SessionOutcomes.StaleCheckShowsNothing | packages/auth/src/session/store.ts:312-320 | The answer of a check that is not current shows and changes nothing |
| SessionOutcomes.BlockedUntilLogin | packages/auth/src/session/store.ts:264-320 | Once blocked, the first session the store adopts in any continuation is one a login brought; until then it stays blocked and holds no credential |
| SessionOutcomes.LogoutOutcomes | packages/auth/src/session/store.ts:422-460 | The answer of a logout shows a confirmed revocation if and only if it succeeded and an unconfirmed one with the failure otherwise; a superseded logout shows nothing |
| SessionOutcomes.LoginOutcomes | packages/auth/src/session/store.ts:395-421 | The answer of a login shows the session if and only if it was not superseded and the session is within its bounds; otherwise nothing is shown, and the proof an answer carries is stored in any case |
| SessionOutcomes.CaughtOutcomes | packages/auth/src/session/store.ts:415-418 | A failed login is shown as failed if and only if its owner is open and nothing is queued |
| SessionOutcomes.TimerOutcomes | packages/auth/src/session/store.ts:236-252 | The expiry signs out with its cause and blocks; a timer that is no longer the expiry changes nothing |
| SessionOutcomes.CallOutcomes | packages/auth/src/session/store.ts:338-358 | What each call shows at once: a login signs out unless it is refused, a logout signs out and blocks even if it is refused, `invalidate` signs out with its cause and blocks, `close` and a revalidation show nothing |
| SessionOutcomes.OnlyLogoutConfirms | packages/auth/src/session/store.ts:456-458 | No step but the success of a logout that has not been superseded shows a confirmed revocation |
| SessionJourneys.OutdatedChecksAreCancelled | packages/auth/src/session/store.ts:178-184 | In every run a check that waits for its answer has been cancelled if and only if it is outdated |
| SessionJourneys.NextLives | packages/auth/src/session/store.ts:223-232 | A session adopted while another is held keeps the lifetime of protected work, one adopted after it has ended begins the next |
| SessionJourneys.LifetimesEndOnce | packages/auth/src/session/store.ts:138-143 | A lifetime that has ended stays ended in every continuation |
| SessionJourneys.LoginSignsIn | packages/auth/src/session/store.ts:395-421 | From any reachable state with an empty queue, a login that nothing interferes with signs the user in as the session it was answered with |
| SessionJourneys.FailedLoginIsShown | packages/auth/src/session/store.ts:395-421 | A login that fails, and that nothing interferes with, shows its failure and leaves the queue empty |
| SessionJourneys.LogoutRevokes | packages/auth/src/session/store.ts:422-460 | A logout that succeeds, and that nothing interferes with, shows a confirmed revocation, blocks, and leaves no proof |
| SessionJourneys.CheckSignsIn | packages/auth/src/session/store.ts:264-336 | A check of an unblocked store with none under way signs the user in as the session it finds |
| SessionSafety.RunKeeps | packages/auth/src/session/store.ts:122-476 | The inductive invariant behind these theorems holds in every reachable state |
| AuthStore.AuthStore.constructor | packages/auth/src/session/store.ts:122-136 | The store starts with its initial snapshot, nothing queued and no timer |
| AuthStore.AuthStore.Promises | packages/auth/src/session/store.ts:122-476 | A valid store holds what it shows: the credential, snapshot, lifetime, timer and block agree, a status check that can be joined is current, and the queue is counted; every entry point, continuation and notification starts and ends valid |
| AuthStore.AuthStore.AbortTimer | packages/auth/src/session/store.ts:141-142 | The expiry timer, and no other, is disarmed |
| AuthStore.AuthStore.StopProtectedWork | packages/auth/src/session/store.ts:138-143 | Drops the credential, ends the lifetime and disarms the timer |
| AuthStore.AuthStore.Clear | packages/auth/src/session/store.ts:151-162 | Publishes unauthenticated, with the error and the state of the revocation, over stopped work |
| AuthStore.AuthStore.SettleFailedStatus | packages/auth/src/session/store.ts:167-176 | A check without an answer keeps the known identity unconfirmed; any other failure blocks and clears |
| AuthStore.AuthStore.AbortStatus | packages/auth/src/session/store.ts:180 | Cancels the latest status check without forgetting it |
| AuthStore.AuthStore.ForgetStatus | packages/auth/src/session/store.ts:180-181 | Cancels the latest status check, which can no longer be joined |
| AuthStore.AuthStore.Fence | packages/auth/src/session/store.ts:178-184 | Starts a generation, cancels and forgets the status check, and clears |
| AuthStore.AuthStore.StoreProof | packages/auth/src/session/store.ts:413 | The newest CSRF proof replaces the one held |
| AuthStore.AuthStore.ArmExpiry | packages/auth/src/session/store.ts:228-238 | The old timer is disarmed before exactly one new one is armed |
| AuthStore.AuthStore.HoldCredential | packages/auth/src/session/store.ts:229-261 | A live lifetime, the credential, no block, and the snapshot that publishes it |
| AuthStore.AuthStore.Adopt | packages/auth/src/session/store.ts:223-262 | A session within its lifetime is held, timed and published; one outside it changes nothing |
| AuthStore.AuthStore.EndSession | packages/auth/src/session/store.ts:241-244 | A new generation, blocked, cleared; the status check is cancelled but stays |
| AuthStore.AuthStore.TimerFired | packages/auth/src/session/store.ts:238-253 | Only the timer that is still the expiry ends the session |
| AuthStore.AuthStore.Revalidate | packages/auth/src/session/store.ts:264-336 | Rejects when blocked, joins the check in flight, or starts one for this generation |
| AuthStore.AuthStore.RevalidateCallback | packages/auth/src/session/store.ts:264-336 | The same when a subscriber calls it |
| AuthStore.AuthStore.FlightAnswered | packages/auth/src/session/store.ts:295-324 | An answer counts only for the generation that asked, and a session arrives only after the mutations the check waited for |
| AuthStore.AuthStore.Append | packages/auth/src/session/store.ts:346-358 | Queues behind all others, under the current owner and generation |
| AuthStore.AuthStore.BlockForLogout | packages/auth/src/session/store.ts:421-422 | The store is blocked before the logout is queued |
| AuthStore.AuthStore.StartMutation | packages/auth/src/session/store.ts:349-353 | The oldest mutation runs, or is rejected when its owner was closed |
| AuthStore.AuthStore.SpendProof | packages/auth/src/session/store.ts:441-442 | The stored proof leaves with the logout that takes it |
| AuthStore.AuthStore.FinishMutation | packages/auth/src/session/store.ts:354-357 | The head leaves the queue and the count |
| AuthStore.AuthStore.Login | packages/auth/src/session/store.ts:397-420 | Rejected with a full queue and no fence; otherwise fences, notifies and queues |
| AuthStore.AuthStore.Respond | packages/auth/src/session/store.ts:411-414 | The proof is stored in any case, the session adopted only if not superseded |
| AuthStore.AuthStore.LoginAnswered | packages/auth/src/session/store.ts:400-418 | An answered login responds and then notifies if it adopted; a failed one is left to its handler |
| AuthStore.AuthStore.LoginCaught | packages/auth/src/session/store.ts:415-418 | A failed login clears only if it is the last and its owner is still open |
| AuthStore.AuthStore.Logout | packages/auth/src/session/store.ts:421-464 | Blocks and fences even when the queue is full |
| AuthStore.AuthStore.LogoutAnswered | packages/auth/src/session/store.ts:457-460 | Confirmed or unconfirmed is published only if not superseded |
| AuthStore.AuthStore.Invalidate | packages/auth/src/session/store.ts:378-384 | A new generation, blocked, the check forgotten, cleared with the cause |
| AuthStore.AuthStore.Close | packages/auth/src/session/store.ts:465-476 | A new owner and generation; credential, lifetime, timer and check are gone and nothing is published |
| AuthStore.AuthStore.CloseCallback | packages/auth/src/session/store.ts:465-476 | The same when a subscriber calls it |
| AuthStore.AuthStore.Disown | packages/auth/src/session/store.ts:465-471 | A new owner and generation; the status check is cancelled and can no longer be joined |
| AuthStore.AuthStore.Notify | packages/auth/src/session/store.ts:153-161 | The calls subscribers make take effect one after the other |
| CapabilityOrder.GreedyIsLeast | packages/app/src/kernel/ordering.ts:50-63 | Always mounting the first ready capability gives the least, by registration index, of all orders that put dependencies first, repeated entries included |
| CapabilityOrder.OrdersAreAcyclic | packages/app/src/kernel/ordering.ts:65-71 | Any order that puts dependencies first exists only without a cycle |
| CapabilityOrder.CycleIdsAreExact | packages/app/src/kernel/ordering.ts:82-109 | The cycle report names exactly the ids that lie on a cycle |
| CapabilityCycles.CyclesAreLeft | packages/app/src/kernel/ordering.ts:65-71 | The cycles of what the sort left over are exactly the cycles of the whole registry |
| CapabilityCycles.CycleIdsOfLeft | packages/app/src/kernel/ordering.ts:65-109 | So the report drawn from the blocked nodes is the report of the whole registry, in registration order |
| CapabilityCycles.SomeCycle | packages/app/src/kernel/ordering.ts:65-71 | A nonempty registry in which everything waits for something in it holds a cycle |
| CapabilityCycles.StalledOnCycle | packages/app/src/kernel/ordering.ts:65-71 | A stalled sort always has a cycle to report, though not every node it left lies on one |
| CapabilitySort.AssertUniqueIds | packages/app/src/kernel/ordering.ts:122-132 | Accepts exactly the registries with unique ids and otherwise names the first repeated one |
| CapabilitySort.InsertByIndex | packages/app/src/kernel/ordering.ts:112-119 | The ready list stays sorted and gains exactly one node |
| CapabilitySort.CountDependencies | packages/app/src/kernel/ordering.ts:29-48 | Counts every dependency entry, repeats included, and lists each id's dependents as often; otherwise names the first unknown id |
| CapabilitySort.ReadyNodes | packages/app/src/kernel/ordering.ts:50-52 | Exactly the nodes that wait for nothing, sorted |
| CapabilitySort.Release | packages/app/src/kernel/ordering.ts:53-63 | Counts down each listed dependent in place and makes ready exactly those that reach zero |
| CapabilitySort.MountReady | packages/app/src/kernel/ordering.ts:50-63 | Mounts greedily until nothing is ready, with the counters exact throughout |
| CapabilitySort.BlockedNodes | packages/app/src/kernel/ordering.ts:65-67 | The nodes with a positive count are exactly those never mounted |
| CapabilitySort.ReachesSelf | packages/app/src/kernel/ordering.ts:89-107 | The search from a node finds its way back exactly when the node lies on a cycle |
| CapabilitySort.CycleParticipants | packages/app/src/kernel/ordering.ts:82-109 | Keeps exactly the nodes on a cycle, in registration order |
| CapabilitySort.OrderCapabilities | packages/app/src/kernel/ordering.ts:28-73 | Succeeds exactly on unique, known, acyclic registries, with the least order; otherwise names the repeated id, the unknown dependency, or exactly the ids on cycles, never none |
| PublishTheorems.SucceedsExactlyWhenAcyclic | internal/release/src/publish-set/order.ts:11-35 | With unique names the search succeeds exactly when no publishable package reaches itself, self-dependency included; the result is a permutation with dependencies first, and otherwise the path reported closes a cycle |
| PublishTheorems.DerivedOrderIsValid | internal/release/src/publish-set/order.ts:11-68 | What the sort returns is a valid order |
| PublishOrder.SameForEveryInputOrder | internal/release/src/publish-set/order.ts:31-34 | The outcome is the same, result or reported path, for every permutation of the packages |
| PublishTheorems.LengthCountsNames | internal/release/src/publish-set/order.ts:46-57 | Comparing a list's length with the size of the name set detects every repeated name |
| PublishTies.OrderedByRoutes | internal/release/src/publish-set/order.ts:12-42 | The whole order: a package stands before another if and only if its route precedes, where a route leads from the first package by name that needs it to the first dependency that needs it, and so on |
| PublishTies.EarlierNeederGoesFirst | internal/release/src/publish-set/order.ts:12-42 | Of two packages the one goes first whose first needer comes first by name |
| PublishTies.FreePackagesAreNotOrderedByName | internal/release/src/publish-set/order.ts:5-8 | A set of three packages in which `z`, on which `a` depends, goes before `b`, although both are free to go |
| PublishSearch.PublishSearch.constructor | internal/release/src/publish-set/order.ts:14-16 | The search starts with the table of names and nothing visited |
| PublishSearch.PublishSearch.Visit | internal/release/src/publish-set/order.ts:17-30 | The recursive visit with its mutable state does what the specified search does, and terminates |
| PublishSearch.Publish | internal/release/src/publish-set/order.ts:11-35 | The whole search gives the specified order or the specified cycle path |
| PublishSearch.AssertPublishOrder | internal/release/src/publish-set/order.ts:42-68 | Accepts an order if and only if it holds each package exactly once and no dependency later; a drift of the set is reported first, with exactly the missing names and the superfluous ones in order, and otherwise the first package that comes before a dependency of its own |
| PublishSearch.SameNames | internal/release/src/publish-set/order.ts:46-51 | The names agree exactly when none is missing and none too many |
| PublishSearch.MissingNames | internal/release/src/publish-set/order.ts:49 | The expected names that are not published, each once, in the order of the packages |
| PublishSearch.ExtraNames | internal/release/src/publish-set/order.ts:50 | The published names that are not expected, in order, as often as they occur |
| PublishSearch.Positions | internal/release/src/publish-set/order.ts:58 | The map says where each name stands |
| PublishSearch.LaterDependency | internal/release/src/publish-set/order.ts:59-67 | Reports a dependency published later exactly when there is one |
| SentenceWrap.LineEndIsUnique | internal/comment-format/src/reflow.ts:54-84 | The declarative description of a line end (fullest line that fits, or the last sentence boundary within ten columns) leaves no choice |
| SentenceWrap.LineEnd | internal/comment-format/src/reflow.ts:54-84 | The greedy fill and backward scan find that line end |
| SentenceWrap.WrapConserves | internal/comment-format/src/reflow.ts:52-90 | Wrapping conserves the words in order and yields no empty line; each line is at most 100 wide or one word, and a line that stops although the next word fits stops at a sentence boundary at width 90 or more |
| CommentReflow.FindLineEnd | internal/comment-format/src/reflow.ts:57-84 | The two inner loops of `wrap` stop at the described line end |
| CommentReflow.WrapWords | internal/comment-format/src/reflow.ts:52-90 | The loop writes exactly the specified lines, and terminates |
| WordTokens.TokenizeJoin | internal/comment-format/src/reflow.ts:132-161 | Joined words split into the same words, provided each is closed |
| WordTokens.UnclosedQuotesGlue | internal/comment-format/src/reflow.ts:132-161 | Two words with one open back quote each are glued when they meet on a line |
| CommentWords.CodeSpanStaysWhole | internal/comment-format/src/reflow.ts:132-161 | A closed code span is in one word with every blank of it, wherever it stands behind text that opens nothing |
| CommentWords.InlineTagStaysWhole | internal/comment-format/src/reflow.ts:132-161 | So is a closed inline tag |
| CommentWords.PlainWordsHoldNoBlank | internal/comment-format/src/reflow.ts:132-161 | Where nothing opens no word is empty or holds a blank |
| CommentWords.EndsSentenceExactly | internal/comment-format/src/reflow.ts:32-37 | A word ends a sentence if and only if, closing quotes and brackets aside, it ends with a point, an exclamation or a question mark that belongs to no abbreviation, whatever its case, and to no bare number |
| CommentWords.StartsSentenceExactly | internal/comment-format/src/reflow.ts:40-43 | A word starts a sentence if and only if behind opening quotes and brackets it has a capital or a digit, or it is an inline tag |
| CommentLayout.MarkerExactly | internal/comment-format/src/reflow.ts:173-180 | A line has a list marker if and only if it splits into white space, a bullet and more white space, and then the marker is that prefix |
| CommentLayout.FillIsLaidOut | internal/comment-format/src/reflow.ts:195-250 | The output of a fill for any contents, told from lines and columns alone: fences and tables as they are, and each paragraph wrapped with the first word of every line of a list item in one column behind only spaces, further lines of a tag two columns in, those of prose at the prefix |
| CommentLayout.LayoutIsUnique | internal/comment-format/src/reflow.ts:195-250 | Lines are laid out like that if and only if they are the ones the fill writes |
| CommentReflow.FindUnitEnd | internal/comment-format/src/reflow.ts:136-158 | The scan of one unit jumps over closed code spans and tags and no others |
| CommentReflow.TokenizeProse | internal/comment-format/src/reflow.ts:132-161 | The loop yields exactly the specified units |
| CommentReading.LinesRead | internal/comment-format/src/reflow.ts:195-250 | Reading lines without trailing white space leaves the paragraph state machine in the state its blocks stand for |
| CommentFixedPoint.BlocksReadBack | internal/comment-format/src/reflow.ts:195-250 | Blocks written as lines read back as the same blocks: prose, items with their hang, tags, blank lines, tables and fences |
| CommentFixedPoint.FillIsFixedPoint | internal/comment-format/src/reflow.ts:195-250 | Reading the filled lines and filling again gives the same lines, provided every word is closed and no word at the start of a wrapped line would break its paragraph |
| CommentReflow.FlushParagraph | internal/comment-format/src/reflow.ts:195-205 | A finished paragraph is written as its wrapped lines |
| CommentReflow.FillLine | internal/comment-format/src/reflow.ts:206-246 | One line moves the loop's variables as it moves the reader |
| CommentReflow.FillContentLines | internal/comment-format/src/reflow.ts:195-250 | The loop writes exactly the lines of the blocks it reads |
| CommentGroups.LineGroupIsStable | internal/comment-format/src/reflow.ts:257-265 | A reflowed run of line comments is left alone by the next run, under the same condition |
| CommentGroups.BlockIsStable | internal/comment-format/src/reflow.ts:267-288 | A reflowed block comment is still star-aligned and is left alone by the next run, under the same condition |
| CommentGroups.OpeningTextIsDropped | internal/comment-format/src/reflow.ts:274-285 | The result does not depend on what follows the opening delimiter on its line, so text there is lost |
| CommentConservation.BlocksConserve | internal/comment-format/src/reflow.ts:195-250 | Reading lines into blocks keeps every character that is not white space, in order: words, markers, tags, tables and fences |
| CommentConservation.FillConserves | internal/comment-format/src/reflow.ts:195-250 | Behind the decoration the filled lines hold the characters of the lines that were read, in order; only white space differs |
| CommentConservation.LineGroupConserves | internal/comment-format/src/reflow.ts:257-265 | Reflowing a run of line comments keeps its text, in every case |
| CommentConservation.BlockConservesExactly | internal/comment-format/src/reflow.ts:267-288 | A reflowed block comment has kept its text if and only if nothing but white space stood behind its opening delimiter; its other lines keep theirs in any case |
| CommentRescan.StandingGroupIsLeftAlone | internal/comment-format/src/reflow.ts:312-352 | Wherever the lines of a reflowed, stable group stand in a file, the next run takes exactly them for one group and makes no edit, provided none reads as a directive, the indent is of spaces and tabs and no further comment joins |
| CommentRescan.PlacedStand | internal/comment-format/src/reflow.ts:353-357 | Spliced into the file, the lines of a group stand as that many comments, each behind the indent |
| CommentTwice.SecondRunChangesNothing | internal/comment-format/src/reflow.ts:297-358 | For a whole file of line groups and block comments, one after the other or on one line, edited or not: the second run on the output of the first, with the written comments where the first has put them, makes no edit, so the output is a fixed point; provided the reflowed comments are calm: paragraphs stable as above, and in line comments no word that starts a directive and an indent of spaces and tabs |
| CommentTwice.FoundScanned | internal/comment-format/src/reflow.ts:353-357 | The comments found in the output are sorted, disjoint ranges that read like comments again: line comments behind their slashes and within their line, blocks up to a visible end |
| CommentTwice.NextDoesNotJoin | internal/comment-format/src/reflow.ts:315-330 | A group does not go on in the output where it ended in the input |
| CommentSettles.ReflowedGroupSettles | internal/comment-format/src/reflow.ts:257-265 | The lines of a calm reflowed group are line comments without a directive, and a second reflow of them gives nothing new |
| CommentSettles.ReflowedBlockSettles | internal/comment-format/src/reflow.ts:267-288 | A calm reflowed block splits into the lines that were joined, and a second reflow of them gives nothing new |
| CommentLines.FillIsFine | internal/comment-format/src/reflow.ts:195-250 | The lines a fill writes hold no line break, and none is a directive if no word of it starts one |
| CommentWitness.ReflowingTwiceCanDiffer | internal/comment-format/src/reflow.ts:257-265 | An over-wide comment that the program reflows to three lines, still over-wide, and on its second run to more |
| CommentWitness.OpeningTextIsLost | internal/comment-format/src/reflow.ts:274-285 | A doc comment whose opening text is gone after the reflow |
| CommentEdits.EditsAreDisjoint | internal/comment-format/src/reflow.ts:312-352 | For sorted disjoint comment ranges the group scan yields disjoint edits in file order, each over a run of whole comments |
| CommentScope.FittingFileIsUnchanged | internal/comment-format/src/reflow.ts:296-297 | A file none of whose comments has an over-wide line is left as it is |
| CommentScope.OthersAreNeverTouched | internal/comment-format/src/reflow.ts:301-306 | No edit lies on a directive, on a comment behind code, or on a block comment that is not a doc comment of several lines |
| CommentScope.GroupIsMaximal | internal/comment-format/src/reflow.ts:307-331 | A group takes every next own-line comment of its indent that is one line break away, and no other |
| CommentScope.WideGroupIsRefilled | internal/comment-format/src/reflow.ts:332-339 | A group with an over-wide line is replaced by its refill |
| CommentScope.WideBlockIsRefilled | internal/comment-format/src/reflow.ts:343-351 | A star-aligned doc comment on its own lines with an over-wide line is replaced by its refill between its opening and closing lines |
| CommentEdits.SpliceIsMerge | internal/comment-format/src/reflow.ts:353-357 | Edits at or after a position leave the text in front of it as it was |
| CommentEdits.Splice | internal/comment-format/src/reflow.ts:353-357 | Applying disjoint edits from the last to the first is the left-to-right merge of untouched gaps and replacements |
| CommentEdits.LineStartOf | internal/comment-format/src/reflow.ts:290-294 | The start of the line that holds a position |
| CommentEdits.AnyWide | internal/comment-format/src/reflow.ts:258-259 | The widest line decides exactly whether any line is too wide |
| CommentEdits.ReflowGroup | internal/comment-format/src/reflow.ts:257-265 | A run that fits is left alone, any other is refilled as one block |
| CommentEdits.StarContents | internal/comment-format/src/reflow.ts:273-278 | The contents of all lines, or nothing when one is not star-aligned |
| CommentEdits.ReflowBlockComment | internal/comment-format/src/reflow.ts:267-288 | Exactly the wide star-aligned multi-line doc comments on their own lines are refilled |
| CommentEdits.CollectGroup | internal/comment-format/src/reflow.ts:312-340 | A group is the longest run of adjacent own-line comments of one indent without a directive |
| CommentEdits.ReflowStretch | internal/comment-format/src/reflow.ts:312-352 | One turn of the scan yields the specified edit and goes on behind it |
| CommentEdits.ReflowSource | internal/comment-format/src/reflow.ts:297-358 | Every character outside an edited comment range is kept in order, and each range becomes its replacement |
| ManifestTheorems.ProfileIsUnchanged | internal/shape/src/profile/manifest.ts:28-38 | The profile derived from the synced manifest is the one that was applied |
| ManifestTheorems.SyncLeavesNoDrift | internal/shape/src/profile/rules.ts:31-47 | The synced manifest passes the drift check |
| ManifestTheorems.SyncIsIdempotent | internal/shape/src/profile/manifest.ts:149-181 | Syncing twice is syncing once, as an ordered map |
| ManifestTheorems.OtherEntriesAreKept | internal/shape/src/profile/manifest.ts:149-181 | All other entries keep their values and their order among each other |
| ManifestTheorems.FieldOrderIsKept | internal/shape/src/profile/manifest.ts:126-194 | A manifest whose known fields follow the field order still does |
| ManifestTheorems.SyncedGets | internal/shape/src/profile/manifest.ts:149-181 | Each wanted field has its value or is absent, each other field what it had |
| ManifestOutcomes.PackageIsSynced | internal/shape/src/profile/manifest.ts:45-67 | A synced package is an ES module with the exports of its build and its side effects declared; it lists files and checks packaging if and only if it is not private; builds with tsdown and then its generators, and has no lint script |
| ManifestOutcomes.CliIsSynced | internal/shape/src/profile/manifest.ts:68-82 | A synced command line package has its binaries and files, no exports, and the packaging check |
| ManifestOutcomes.ToolIsSynced | internal/shape/src/profile/manifest.ts:83-98 | A synced tool is private and has a binary named after its directory if and only if it has a command line, and exports if and only if it has an index |
| ManifestOutcomes.AppIsSynced | internal/shape/src/profile/manifest.ts:99-103 | A synced application is private, runs its tests without coverage, and keeps its own build |
| ManifestOutcomes.PresetIsSynced | internal/shape/src/profile/manifest.ts:29-37 | A synced workspace depends on its presets at development time, unless it is the preset or needs it at run time |
| ManifestChecks.DriftIsReportedExactly | internal/shape/src/profile/rules.ts:31-47 | The check reports exactly the fields that are absent, extra or of another value, the scripts that are absent, extra or different, and the presets that are missing |
| ManifestChecks.DeepEqualExactly | internal/shape/src/profile/rules.ts:36-37 | Two JSON values count as equal if and only if no path into them tells them apart |
| ManifestTheorems.InsertInOrderKeeps | internal/shape/src/profile/manifest.ts:183-194 | A known field goes in behind the entries that precede it in the order |
| OrderedMaps.DeepEqualReflexive | internal/shape/src/profile/rules.ts:31-47 | Deep equality, which ignores key order in objects, holds of every value and itself |
| ManifestSync.InsertInFieldOrder | internal/shape/src/profile/manifest.ts:183-194 | The loop finds the specified place |
| ManifestSync.ApplyManifestProfile | internal/shape/src/profile/manifest.ts:149-181 | The loops over fields, scripts and dependencies produce exactly the specified manifest |
| FormRoundTrip.RoundTrip | packages/connect/src/forms/form-values.ts:26-118 | Any message that fits its type, with nonempty nested messages, at most 32 deep, lists of at most 1000 and at most 1000 controls, decodes from its controls to itself, on recursive schemas as well |
| FormOrigins.AcceptedFormIsItsMessage | packages/connect/src/forms/form-values.ts:26-118 | Conversely, every leaf of the message that an accepted form decodes to is a control of the form under the leaf's own name, and every control of the form is such a leaf, an empty text, or named like a nested message that other controls fill |
| FormOrigins.MessageIsSourced | packages/connect/src/forms/form-values.ts:54-118 | The same of one message under any prefix, with the keys it marks used |
| FormAcceptance.FormIsAcceptedExactly | packages/connect/src/forms/form-values.ts:28-118 | Acceptance and result of every form, stated over its controls: at most a thousand controls, each a text or texts, each named by a field of a message the form fills and fitting it, items without a gap; and then it decodes to the one message the controls spell, entry by entry in schema order |
| FormAcceptance.MessageDecides | packages/connect/src/forms/form-values.ts:54-118 | At every depth a message decodes if and only if its controls fit, and marks exactly the controls it names |
| FormAcceptance.FewItemsExactly | packages/connect/src/forms/form-values.ts:73-90 | The index check of a list accepts if and only if every control behind the bracket stands inside an item and the items present are the first few, a thousand at most |
| FormBlanks.BlankControlChangesNothing | packages/connect/src/forms/form-values.ts:97-104 | A blank control added anywhere to an accepted form with room for it leaves acceptance and message as they were if and only if its name is that of a field whose empty text means unset, in a message other controls fill, or that of such a nested message |
| FormRoundTrip.MessageDecodes | packages/connect/src/forms/form-values.ts:54-118 | Under any prefix, among controls of other fields, a message decodes to itself and marks exactly its own keys used |
| FormRoundTrip.MessageKeysDistinct | packages/connect/src/forms/field-path.ts:5-19 | No two leaves of a message share a control name |
| FormRoundTrip.ListIndicesAreExact | packages/connect/src/forms/form-values.ts:72-88 | A message list is accepted only with the indices 0 to n-1, all well formed and at most 1000, and has one message for each |
| FormRoundTrip.FlattenUsesControlNames | packages/connect/src/forms/field-path.ts:5-19 | The keys a message is flattened to are the control names of its paths |
| FormValues.BuildControlName | packages/connect/src/forms/field-path.ts:5-19 | The loop builds the specified name: fields after dots, indices in brackets |
| FormDecoder.FormDecoder.constructor | packages/connect/src/forms/form-values.ts:41-42 | Decoding starts with no control used |
| FormDecoder.FormDecoder.DecodeMessage | packages/connect/src/forms/form-values.ts:54-118 | The recursive decoder with its shared set of used keys computes the specified entries and set, and terminates on recursive schemas |
| FormDecoder.FormDecoder.ReadField | packages/connect/src/forms/form-values.ts:63-116 | One field: nested message, message list, map, scalar list or scalar, with each rejection |
| FormDecoder.FormDecoder.ReadItems | packages/connect/src/forms/form-values.ts:82-88 | The items from zero on; a missing index rejects the form |
| FormDecoder.DecodeFormValues | packages/connect/src/forms/form-values.ts:26-52 | Too many controls, a malformed control and an unused control reject the form, as specified |

## Left out

- CommentFixedPoint.FillIsFixedPoint: the condition is sufficient, not necessary; words can be glued without a visible change when no line break depends on them.
- CommentGroups.LineGroupIsStable: compares with the group as it was; `CommentTwice.SecondRunChangesNothing` shows that the next run finds the same group.
- CommentTwice.SecondRunChangesNothing: the conditions on words are sufficient, and that the scanner finds the written comments is read off their text (`CommentTwice.FoundScanned`), for the scanner is not modelled.
- CommentGroups.BlockIsStable: is about reflowed blocks. That a block which fits is untouched is not claimed for indented blocks, whose width is measured with the indent counted twice.
- StreamResume.SinksSeeEachEventOnce: without a reset, whose purpose is to abandon what is owed; for frames that arrive as fresh objects; dispatching one frame object twice would overwrite its delivery order.
- StreamRedelivery.OwedEventIsRedelivered: closes are calls from outside; a callback that closes the channel in the middle of an arrival or a rejection is covered by `StreamAcrossCloses` only.
- StreamAcrossCloses.NoEntryIsLeftOut: as long as the router does not reset; a reset abandons the queue on purpose and asks the snapshot owner to recover.
- Sessions.ClosedSessionsStayInert: a superseded loop can still clear the server's retry minimum and count an attempt of the session that follows; both are outside the claim.
- EventRouter.EventRouter.Callbacks: callbacks do not dispatch frames themselves, and only the router acknowledges to its channel.
- Transports, `fetch`, response decoding, JSON parsing and the backoff function: the environment chooses what they yield, any nonnegative wait included.
- Clocks are readings the environment supplies as nonnegative reals; timers fire when it says so.
- The sinks' `reset` and `connected` hooks, telemetry, and exceptions thrown by the channel's listeners and observers, which the code reports and survives. Subscribers of the session store do not throw in the model; in the code an exception inside the publication of an adopted session would be taken for a failed check.
- `acquire`, `getAuthHeader`, `confirm`, the caller signals of `raceAbort`, and the second request of a logout whose proof was refused.
- The TypeScript scanner: comments come as sorted disjoint ranges with their kind. Characters are single UTF-16 code units, the word class is ASCII, and comment lines hold no other line terminators than the newline they are split at.
- `localeCompare` is any collation that orders distinct names totally; the place JavaScript gives integer-like object keys is not modelled.
- Reading the workspace, the rendered exports and the project references of a manifest: they are values of the profile.
- Two packages of one name: the searches handle them as the code does, the theorems about orders need unique names.
- `scalarValue`, `fromJson` and validation: leaves are opaque strings. A raw control named like a nested message is marked used and ignored, as in the code.
- Memo caches, redirects, fixtures, command lines and the server's session store: easy members, or code that is not part of this model.
