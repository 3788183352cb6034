# Lumina Next: verified models of its stateful components

This project models the components of Lumina Next that keep state, and proves what they promise over every run. A
component that updates objects in place is a class here; each of its methods is proved to do to the object exactly
what a specification function says, and the theorems are about runs of those functions. Times and lengths are real
numbers. What a clock, a bridge, a service, a model or a validator answers is an argument of the call, so every
theorem holds for all their answers.

| file | component |
|---|---|
| OccupancyGrid, Planar | the occupancy rasteriser of the portable navigation adapter, against its geometric clearance |
| Orientation | rotation matrices to quaternions, and the agent's heading |
| TerminalEvidence | which native event speaks for a command, the bounded settling loop, what feedback may conclude |
| CommandProtocol, CommandSafety | the command-ownership protocol as a state machine whose steps are the coroutines cut at their awaits, and its invariant |
| CommandTheorems, CommandReplay, CommandStops | its promises over every interleaving: ownership and stops, cached navigate results, cached stop answers |
| CommandEvidence | what the answers of navigate, feedback and stop rest on, read off the request and the observation |
| CommandTombstones | how a reservation ends: what the step that retires it answers, and what it leaves on it and on its tombstone |
| NavigationAdapter | the adapter object, with reservations as heap objects compared by identity |
| EmbodiedAction, EmbodiedActionService | idempotency, receipts, owners, handles, rollback and cancel of embodied actions |
| EmbodiedAdmission | which dispatches reach the adapter, read off the calls, and the adapter by itself |
| KarakuriNotifications, KarakuriExactlyOnce, KarakuriOverlap | concurrent notifications on a table of futures that evicts settled entries |
| KarakuriAgreement | what the callers of one notification are told |
| KarakuriExchanges, KarakuriTwice, KarakuriStuck | what enters the histories: once per record, when twice, and when never again |
| KarakuriHistory, KarakuriSession, BoundedDeque | bounded conversation histories, bounded retries, and the session object |
| AutonomyTicks, AutonomySupervisor | the autonomy tick with its one outstanding visual action |
| AutonomyOutcomes | how a tick ends, read off its surroundings |
| SafetyAudit | the hash-chained audit log |
| TelemetryPrivacy | the consent-bound event store |
| CircuitBreaker, AutonomyWatchdog | the restart gate and the watchdog latch |
| OrderedStore, Wrappers | insertion-ordered dictionaries with eviction, optional values and results |

`dafny verify dfyconfig.toml` checks everything.

## Where the code does less than it seems to

Seven properties one would expect do not hold as they stand. Each is stated with a concrete failing case and with the
exact condition under which it does hold.

- **Exactly-once notifications** (`lumina_next/karakuri_session.py:262-264`, against the docstring at line 197). A
  duplicate awaits the original's future directly, so cancelling the duplicate's task cancels the future the original
  run still has to resolve. The record then counts as settled, can be evicted while its run is going on, and a
  redelivery starts a second run. `KarakuriOverlap.CancelledWaiterExposes` is the case, `ExactlyOnceIff` the condition.
- **One answer per notification** (`lumina_next/karakuri_session.py:285-291`). After such an eviction the first run
  settles whatever record is now under its id, which is the second run's; a caller that waited for the second run gets
  the first one's response, and the second run returns its own. `KarakuriAgreement.CancelledWaiterMisleads` is the case,
  `CallersAgreeIff` the condition; `CallersAgree` is what holds up to the first exposed state.
- **One exchange per notification** (`lumina_next/karakuri_session.py:350-357`). After the same eviction both runs
  record their exchange, and the older run may be the later to do so, while the newer record is retained.
  `KarakuriStuck.CancelledWaiterRecordsTwice` is the case, `RecordedTwiceIff` the condition: a run is exposed, and it has
  not recorded its exchange yet or no record of the table is abandoned, since an abandoned record is never settled and
  blocks every eviction behind it. `OneExchangePerRecord` is what holds up to the first exposed state.
- **Replay of a navigation** (`lumina_next/godot_portable_navigation_adapter_v1.py:1078-1086`). The idempotency key is
  looked up before the first await and written only at the end, so two requests in flight under one navigation id are
  both sent, and the later result replaces the earlier, be it an acceptance or a rejection. `SameKeyBothAccepted` and
  `RejectionIsOverwritten` are the cases, `CachedResultIsReplayedIff` the condition.
- **Stops of a live command** (`lumina_next/godot_portable_navigation_adapter_v1.py:1559-1565`). A stop answer is
  replayed by request id without looking at the command. Once the command's tombstone has been evicted the same command
  id can be navigated again, and the old stop is answered `already_stopped` while the new motion is live.
  `CommandStops.ReplayStopsNothing` is the case, `OwnershipIsNotLost` the condition. Likewise a navigate call may send
  its move after such an answer: `ReplayedStopThenMoves` is the case, and by `CommandTheorems.NavigateMovesIff` it can
  exactly when its reservation is active and still held by it. While the tombstone is retained replays are final as
  well (`RetainedStopIsNative`, `ReplayedStopBeatsNavigate`).
- **The breaker's gate** (`lumina_next/circuit_breaker.py:37-93`). A success recorded while the breaker is open resets
  the failure count, after which new failures reopen it with a shorter wait. `DefaultGateIsOvertaken` is the case,
  `AdmittedBeforeGateIff` the condition; without such a success the gate holds.
- **Growing backoff** (`lumina_next/circuit_breaker.py:74-77`). The settings are not validated; waits grow exactly when
  the base delay is not negative (`BackoffGrowsIff`).

A tombstone is evicted from its 128-entry store in time, and its command id may then be reserved again; statements
about one move POST per id are therefore about the time its tombstone is retained.

## Model

| member | source | states |
|---|---|---|
| OccupancyGrid.Rasterize | lumina_next/godot_portable_navigation_adapter_v1.py:637-695 | The map is refused exactly when its sides or cell count exceed the limits; otherwise a byte is 255 exactly when the unclamped rule holds for its cell (near an edge, in an inflated rectangle's index range, or centre in an inflated disc), for any obstacles in any order. |
| OccupancyGrid.PaintRect | lumina_next/godot_portable_navigation_adapter_v1.py:656-667 | The clamped fill of one inflated rectangle: of the cells the boundary rule does not mark anyway, exactly those in the unclamped index range are marked and all others are untouched. |
| OccupancyGrid.PaintDisc | lumina_next/godot_portable_navigation_adapter_v1.py:668-681 | The clamped scan of one inflated disc marks exactly the cells whose centre lies in it. |
| OccupancyGrid.PaintBoundary | lumina_next/godot_portable_navigation_adapter_v1.py:682-694 | The last pass marks exactly the cells whose centre is too near an edge. |
| OccupancyGrid.ClampedRange | lumina_next/godot_portable_navigation_adapter_v1.py:652-667 | Clamping an index range loses no cell of the grid and adds outermost cells only. |
| OccupancyGrid.OutermostCellsAreNearEdge | lumina_next/godot_portable_navigation_adapter_v1.py:682-694 | The outermost cells are always marked by the boundary rule, which is why clamping is harmless. |
| OccupancyGrid.DiscWithinSpan | lumina_next/godot_portable_navigation_adapter_v1.py:669-681 | A cell whose centre is in the inflated disc is inside the range the loops scan, so the scan misses none. |
| OccupancyGrid.FreeCellIsClear | lumina_next/godot_portable_navigation_adapter_v1.py:1385-1407 | Soundness: at every point of a free closed cell the clearance with footprint equal to the padding is strictly positive, against every obstacle and all four bounds. |
| OccupancyGrid.ZeroByteIsClear | lumina_next/godot_portable_navigation_adapter_v1.py:637-695 | The same about the bytes: a zero byte of a grid the method may return means clearance all over its cell. |
| OccupancyGrid.OccupiedIsClose | lumina_next/godot_portable_navigation_adapter_v1.py:650-694 | Tightness: a byte is 255 only if its cell's centre is within the padding and half a cell diagonal of a map edge or a circle, or at most half a cell more beside a rectangle on both axes; and it is 255 whenever the centre is within that distance of one. |
| OccupancyGrid.CountIsLeast | lumina_next/godot_portable_navigation_adapter_v1.py:643-646 | The grid covers the bounds with no row or column to spare. |
| OccupancyGrid.OrderIsIrrelevant | lumina_next/godot_portable_navigation_adapter_v1.py:655-681 | Obstacle lists with the same members give byte-identical grids. |
| OccupancyGrid.GrowsWithPaddingAndObstacles | lumina_next/godot_portable_navigation_adapter_v1.py:637-695 | More padding or more obstacles never frees a cell. |
| Orientation.RawRecovers | lumina_next/godot_portable_navigation_adapter_v1.py:158-185 | For every right-handed orthonormal basis the branch taken has a non-zero divisor, and the quaternion it builds has the products of components the matrix prescribes. |
| Orientation.QuaternionIsTheRotation | lumina_next/godot_portable_navigation_adapter_v1.py:150-187 | For every such basis, whichever of the four branches runs, the result is a unit quaternion whose rotation matrix has exactly those columns. |
| Orientation.RecoversMatrix | lumina_next/godot_portable_navigation_adapter_v1.py:150-187 | A unit quaternion with those products has that rotation matrix. |
| Orientation.LeftOfHeading | lumina_next/godot_portable_navigation_adapter_v1.py:203-213 | For a unit heading that is not near vertical the cross product with the up vector is never degenerate and normalises to a level unit vector orthogonal to it. |
| Orientation.AgentQuaternionFollowsHeading | lumina_next/godot_portable_navigation_adapter_v1.py:203-213 | An agent's forward vector is converted exactly when it is longer than 1e-8 and at most 0.98 of it is vertical; the quaternion is then a unit one that turns +X to the heading, keeps +Y level and +Z upwards, which fixes the rotation. |
| Orientation.NormalizeIff | lumina_next/godot_portable_navigation_adapter_v1.py:135-139 | A vector normalises exactly when it is longer than 1e-8, to the vector it is that many times of. |
| Orientation.ShortColumnsAreRefused | lumina_next/godot_portable_navigation_adapter_v1.py:150-157 | Columns of which one is too short are refused. |
| Orientation.NormalizeQuatIff | lumina_next/godot_portable_navigation_adapter_v1.py:186-187 | The same for the quaternion at the end. |
| Orientation.CoordinatesRoundTrip | lumina_next/godot_portable_navigation_adapter_v1.py:88-99 | The two frame conversions undo each other and keep lengths. |
| OrderedStore.BoundedPutKeeps | lumina_next/godot_portable_navigation_adapter_v1.py:323-326 | Storing keeps at most 128 entries and the entry just stored; the only entry lost is the oldest, and only for a new key in a full store. |
| OrderedStore.HeldIff | lumina_next/godot_portable_navigation_adapter_v1.py:323-326 | Eviction is in order of insertion: over any run of stores, an entry that is not stored again is still held, with its value, if and only if at most 128 keys have come since its own, itself included. |
| OrderedStore.BoundedStore | lumina_next/godot_portable_navigation_adapter_v1.py:323-326 | The eviction loop computes that store. |
| TerminalEvidence.NewestIsMaximum | lumina_next/godot_portable_navigation_adapter_v1.py:1263-1285 | The scan's result is the lexicographic maximum of (received time, index) over exactly the attributable events, and absent only when there is none. |
| TerminalEvidence.CurrentCommandEvent | lumina_next/godot_portable_navigation_adapter_v1.py:1237-1285 | The loop over the native history returns that newest event of this command, acceptance time and navigation. |
| TerminalEvidence.NewestIsLatest | lumina_next/godot_portable_navigation_adapter_v1.py:1237-1285 | The scan returns exactly the latest event that speaks for the command, read off the whole history: of its id, received no earlier than its acceptance, of its navigation if it names one, the later in the list of two received at once. |
| TerminalEvidence.NoEvidenceBeforeAcceptance | lumina_next/godot_portable_navigation_adapter_v1.py:1252-1262 | A command without an acceptance time has no event, whatever the history holds. |
| TerminalEvidence.SettleTerminalLiveState | lumina_next/godot_portable_navigation_adapter_v1.py:1303-1374 | The bounded polling loop returns what the recursive reading of at most eight polls says, including expiry, transport failure and malformed snapshots. |
| TerminalEvidence.SettleFromYields | lumina_next/godot_portable_navigation_adapter_v1.py:1336-1374 | Whatever the polls, an observation other than the initial one was yielded by a poll all of whose predecessors were fresh, and if it carries terminal evidence its predecessor was inactive with the same signature. |
| TerminalEvidence.SettledNeedsTwoInactivePolls | lumina_next/godot_portable_navigation_adapter_v1.py:1303-1374 | An active observation with terminal evidence is replaced by an inactive one with such evidence only after two consecutive inactive polls with the same signature. |
| TerminalEvidence.SettledExactly | lumina_next/godot_portable_navigation_adapter_v1.py:1303-1374 | What settling returns, in both directions: the first poll that carries no ending, or is idle with the same ending as the idle poll before it, replaces the observation; a failed or expired poll or the end of the polls leaves it, a malformed one raises. |
| TerminalEvidence.FeedbackConcludesIff | lumina_next/godot_portable_navigation_adapter_v1.py:1488-1519 | Feedback concludes exactly on an inactive observation with terminal evidence, or on one already marked stopped with nothing in the way; an arrival needs verification as well. |
| CommandSafety.StepKeeps | lumina_next/godot_portable_navigation_adapter_v1.py:993-1669 | Every step of every coroutine, cut at its awaits, keeps the ownership invariant: stores bounded, reservations owned, posts separated, cached results true. |
| CommandSafety.RunKeeps | lumina_next/godot_portable_navigation_adapter_v1.py:993-1669 | So does every interleaving. |
| CommandTheorems.LogTells | lumina_next/godot_portable_navigation_adapter_v1.py:1078-1669 | The recorded history is what happened: it grows by exactly what the step did and by real evictions; a navigate step sends its move POST, or answers with an acceptance, exactly when that is recorded. |
| CommandTheorems.NavigateMovesIff | lumina_next/godot_portable_navigation_adapter_v1.py:1135-1203 | In every state, reachable or not: some continuation sends the move POST of a reservation, or answers its navigate call with an acceptance, if and only if the reservation is active and a suspended navigate call holds it. |
| CommandTheorems.StopBeatsNavigate | lumina_next/godot_portable_navigation_adapter_v1.py:1135-1203 | Once a stop has been answered for a reservation otherwise than from the cache, then in every continuation the navigate call holding that object never sends its move POST and never returns accepted. |
| CommandTheorems.GoneForever | lumina_next/godot_portable_navigation_adapter_v1.py:1047-1063 | A reservation object that left the active table never returns to it, in any run. |
| CommandTheorems.OwnershipIsNotLost | lumina_next/godot_portable_navigation_adapter_v1.py:1559-1608 | In every reachable state a posted reservation without rejecting ACK, terminal feedback or confirmed stop is still active; its owner's stop takes the native path if and only if its request id is not in the stop cache. |
| CommandStops.ReplayStopsNothing | lumina_next/godot_portable_navigation_adapter_v1.py:1559-1565 | The failing case, for any command and any stop of its owner: after 128 other tombstones the same command id is active and posted again, and the same stop is answered `already_stopped` from the cache. |
| CommandStops.CachedStopIsOld | lumina_next/godot_portable_navigation_adapter_v1.py:1587-1594 | A cached stop answer is never a rejection; the stop it answered began at some point, and if its command is active again, a tombstone of that command was evicted after that point. |
| CommandStops.RetainedStopIsNative | lumina_next/godot_portable_navigation_adapter_v1.py:1559-1608 | While no tombstone of the command was evicted since the stop first began, a stop for a posted and unreleased reservation is never answered locally, not even by a replay. |
| CommandStops.ReplayedStopThenMoves | lumina_next/godot_portable_navigation_adapter_v1.py:1559-1565 | The other failing case: the same command id reserved again and not yet sent, the same stop is answered `already_stopped` from the cache with nothing changed, and the very next step sends the move POST of the new reservation. |
| CommandStops.ReplayedStopLeavesMovesIff | lumina_next/godot_portable_navigation_adapter_v1.py:1559-1565 | A stop answered from the cache changes nothing, and after it a reservation can still move if and only if it is active and a navigate call holds it. |
| CommandStops.ReplayedStopBeatsNavigate | lumina_next/godot_portable_navigation_adapter_v1.py:1559-1565 | While no tombstone of the command was evicted since the stop first began, a replayed stop answer is final: no navigate call of that command afterwards sends its move POST or returns accepted. |
| CommandStops.RunKeepsStops | lumina_next/godot_portable_navigation_adapter_v1.py:1559-1669 | Every interleaving keeps what the cached stops say. |
| CommandTheorems.LostAnswerNeedsAStop | lumina_next/godot_portable_navigation_adapter_v1.py:1190-1197 | After a lost POST response the reservation stays active and unfinished until a stop is confirmed natively; nothing else releases it. |
| CommandTheorems.ActiveMotionIsKept | lumina_next/godot_portable_navigation_adapter_v1.py:1494-1543 | Feedback on an observation where the command or the route is active retires nothing and marks nothing. |
| CommandTheorems.OnePostPerTombstone | lumina_next/godot_portable_navigation_adapter_v1.py:1047-1063 | In every run, two move POSTs under one command id have an eviction of that id's tombstone between them. |
| CommandReplay.CachedAcceptanceIsTrue | lumina_next/godot_portable_navigation_adapter_v1.py:1211-1228 | A cached acceptance is that of a reservation made for exactly that request, which was posted and accepted at that time; all three stores hold at most 128 entries. |
| CommandReplay.CachedResultIsReplayedIff | lumina_next/godot_portable_navigation_adapter_v1.py:1078-1086 | Any cached result, accepted or rejected, is what every later repeat of its request gets for as long as the key is cached, if and only if no navigate call suspended under the same navigation id is still active or forced to store something else. |
| CommandReplay.AcceptanceIsReplayedIff | lumina_next/godot_portable_navigation_adapter_v1.py:1078-1086 | For an acceptance that means: if and only if no call under the same navigation id is suspended. |
| CommandReplay.SameKeyBothAccepted | lumina_next/godot_portable_navigation_adapter_v1.py:1078-1228 | A failing case, for any two requests that share a navigation id but not a command id: both are posted and accepted, and the first caller's repeat is then refused as a conflict. |
| CommandReplay.RejectionIsOverwritten | lumina_next/godot_portable_navigation_adapter_v1.py:1078-1228 | The failing case for rejections: a second request is refused and told so again, until the first one's acceptance replaces its entry and its repeat becomes a conflict. |
| CommandEvidence.NavigateAnswer | lumina_next/godot_portable_navigation_adapter_v1.py:1078-1136 | Every answer of `navigate` before it sends: a repeat gets the stored result, a conflict its error; a new request goes on if and only if it is in time, its target matches and its path is clear, and is otherwise refused for that reason. |
| CommandEvidence.PostsAreAdmitted | lumina_next/godot_portable_navigation_adapter_v1.py:1105-1166 | In every run a move POST is sent only in time and for an active reservation, which was made in time for a request whose target matched and whose path was clear. |
| CommandEvidence.FeedbackStarts | lumina_next/godot_portable_navigation_adapter_v1.py:1460-1466 | Feedback looks at the world if and only if its caller owns an active reservation under the command, for exactly that one; any other caller gets an ownership error. |
| CommandEvidence.FeedbackAnswer | lumina_next/godot_portable_navigation_adapter_v1.py:1488-1519 | Every answer of feedback, read off the observation: arrived, stopped or failed exactly by the latest event that ends the motion once nothing moves (or an earlier stop), and when it is blocked, moving or queued. |
| CommandTombstones.NavigateLeaves | lumina_next/godot_portable_navigation_adapter_v1.py:1055-1136 | A new navigate call leaves an active reservation that waits for the world, or one that has already ended: failed and never dispatched when an error is raised, rejected and its refusal stored when it is refused, with a tombstone that copies it. |
| CommandTombstones.WorldAnswer | lumina_next/godot_portable_navigation_adapter_v1.py:1136-1166 | Every answer of the world check: the move POST goes out if and only if the reservation is active and in time; otherwise the call is refused for that reason, cancelled or failed, and the reservation and its tombstone say so, unless it had ended before. |
| CommandTombstones.PostAnswer | lumina_next/godot_portable_navigation_adapter_v1.py:1190-1228 | Every answer of the move POST: accepted at the time told exactly when acknowledged while active, refused when stopped meanwhile or refused by the bridge, lost with the dispatch unknown; and what each leaves on the reservation and its tombstone. |
| CommandTombstones.FeedbackLeaves | lumina_next/godot_portable_navigation_adapter_v1.py:1520-1543 | An answer that concludes is what the reservation and its tombstone end as, in the dispatch state it was in; any other leaves tables and marks alone; the sequence number becomes the least above its own and the one told by the caller. |
| CommandTombstones.StopLeaves | lumina_next/godot_portable_navigation_adapter_v1.py:1567-1597 | An `already_stopped` answer for an active reservation is stored, carries its next sequence number, and leaves it stopped, never dispatched and buried under a tombstone that copies it. |
| CommandTombstones.LateStopLeaves | lumina_next/godot_portable_navigation_adapter_v1.py:1567-1597 | A stop of a reservation that has ended is stored, carries the next sequence number of its tombstone, and changes nothing else about it. |
| CommandTombstones.StopPostAnswer | lumina_next/godot_portable_navigation_adapter_v1.py:1600-1614 | Every answer of the stop POST: a taken one goes on to polling under its stop id, a refused one is rejected with the next sequence number, and the tables stay as they are. |
| CommandTombstones.PollLeaves | lumina_next/godot_portable_navigation_adapter_v1.py:1643-1669 | A confirmed stop is stored, carries the next sequence number, and leaves the reservation stopped in the dispatch state it was in, with a tombstone that copies it; a rejected one changes nothing but its task. |
| CommandTombstones.SequencesGrow | lumina_next/godot_portable_navigation_adapter_v1.py:1522-1523 | In every run the sequence number of a reservation never falls. |
| CommandEvidence.FeedbackMarksAreShown | lumina_next/godot_portable_navigation_adapter_v1.py:1488-1543 | In every run a reservation is concluded by feedback only on an observation in which nothing moves and an event ends the motion, or nothing is in the way of one already marked as stopped. |
| CommandEvidence.StopAnswer | lumina_next/godot_portable_navigation_adapter_v1.py:1559-1597 | Every answer of `stop` before it sends: replay, conflict, foreign or unknown command, the native path exactly for a command that may have been sent and has not ended, and otherwise `already_stopped` with the next sequence number. |
| CommandEvidence.StopPollAnswer | lumina_next/godot_portable_navigation_adapter_v1.py:1616-1669 | A poll of a stop answers `confirmed` if and only if neither the command nor the route is active, the stop command has an acknowledging event and the command an ending one; it is rejected only when the time is up, and nothing else touches the reservation. |
| CommandEvidence.StopMarksAreShown | lumina_next/godot_portable_navigation_adapter_v1.py:1620-1646 | In every run a reservation is marked as stopped only by a poll whose observation shows that of its own command. |
| NavigationAdapter.GodotPortableNavigationAdapter.RetireCommand | lumina_next/godot_portable_navigation_adapter_v1.py:993-1026 | In place: the object leaves the active table only if it is the one there, its tombstone is stored, and an existing tombstone of an object no longer active is kept. |
| NavigationAdapter.GodotPortableNavigationAdapter.FinishRejectedNavigation | lumina_next/godot_portable_navigation_adapter_v1.py:1028-1045 | Stores the rejection under the request's key and retires the object; an invalid result changes nothing. |
| NavigationAdapter.GodotPortableNavigationAdapter.Reserve | lumina_next/godot_portable_navigation_adapter_v1.py:1047-1063 | A new object, active under its id, with every older reservation unchanged. |
| NavigationAdapter.GodotPortableNavigationAdapter.StartNavigate | lumina_next/godot_portable_navigation_adapter_v1.py:1078-1136 | The whole effect of `navigate` up to its first await, in the state and in the answer. |
| NavigationAdapter.GodotPortableNavigationAdapter.ResumeWorld | lumina_next/godot_portable_navigation_adapter_v1.py:1137-1166 | The whole effect from the world check's answer to the move POST. |
| NavigationAdapter.GodotPortableNavigationAdapter.ResumePost | lumina_next/godot_portable_navigation_adapter_v1.py:1166-1228 | The whole effect of the POST's answer: lost, late, refused, invalid or accepted. |
| NavigationAdapter.GodotPortableNavigationAdapter.AcceptNavigation | lumina_next/godot_portable_navigation_adapter_v1.py:1211-1228 | An acceptance is written on the object and cached under the request's key. |
| NavigationAdapter.GodotPortableNavigationAdapter.StartFeedback | lumina_next/godot_portable_navigation_adapter_v1.py:1460-1466 | Ownership is checked and the object held, or the call is refused. |
| NavigationAdapter.GodotPortableNavigationAdapter.ResumeFeedback | lumina_next/godot_portable_navigation_adapter_v1.py:1467-1543 | The whole effect of a settled observation on the object, the tables and the answer. |
| NavigationAdapter.GodotPortableNavigationAdapter.StartStop | lumina_next/godot_portable_navigation_adapter_v1.py:1559-1597 | Replay, conflict, foreign owner, local answer, tombstone answer, or the native path. |
| NavigationAdapter.GodotPortableNavigationAdapter.StopOwned | lumina_next/godot_portable_navigation_adapter_v1.py:1566-1597 | The branches for an active command. |
| NavigationAdapter.GodotPortableNavigationAdapter.ResumeStop | lumina_next/godot_portable_navigation_adapter_v1.py:1598-1614 | The effect of the stop POST's answer: lost, refused, or on to polling. |
| NavigationAdapter.GodotPortableNavigationAdapter.ResumePoll | lumina_next/godot_portable_navigation_adapter_v1.py:1616-1669 | The whole effect of one round of the polling loop: on to the next, failed, too late, or confirmed. |
| NavigationAdapter.GodotPortableNavigationAdapter.RejectStop | lumina_next/godot_portable_navigation_adapter_v1.py:1546-1557 | An unconfirmed stop is rejected with the next sequence number and caches nothing. |
| EmbodiedAction.TextIsInjective | lumina_next/embodied_action_api_v1.py:39 | The joined effect key determines tenant, user and key, because identifiers cannot contain the separator. |
| EmbodiedAction.EverythingIsNew | lumina_next/embodied_action_api_v1.py:724-780 | A dispatch that passes its checks uses a scope, dispatch id, receipt, effect key and handle none of which was used before. |
| EmbodiedAction.RunKeeps | lumina_next/embodied_action_api_v1.py:537-926 | Every run of dispatches and cancels keeps the agreement and the conservation below. |
| EmbodiedAction.NoDuplicateSideEffects | lumina_next/embodied_action_api_v1.py:537-575 | From a fresh adapter, over every run: scopes, dispatch owners, receipts, effects, handles and adapter calls correspond one to one, no duplicate side effect is ever counted, and neither the duplicate branch nor a failed cancel is reached. |
| EmbodiedAction.RollbackConservation | lumina_next/embodied_action_api_v1.py:805-861 | After every call an effect is applied exactly when its dispatch completed or is still pending and rolled back otherwise, none is left cancelled, and both counters count exactly those effects. |
| EmbodiedAction.CancelActsIff | lumina_next/embodied_action_api_v1.py:878-926 | A cancel changes something exactly when it names a pending dispatch with its tenant, user and correlation; it then rolls back that one applied effect and nothing else. |
| EmbodiedAction.DispatchesOnlyOnce | lumina_next/embodied_action_api_v1.py:724-760 | Once a dispatch reached the adapter, then after any further calls the identical request changes nothing and names the first result, and no other request under its key, dispatch id or receipt reaches the adapter. |
| EmbodiedAction.DispatchAdds | lumina_next/embodied_action_api_v1.py:782-876 | What a dispatch that reaches the adapter adds to every table, for each of the adapter's four outcomes. |
| EmbodiedAdmission.InvokedIff | lumina_next/embodied_action_api_v1.py:704-780 | After any calls a dispatch reaches the adapter if and only if it is well formed, in time, not cancelled, its world's preconditions met and its risk and permission authorised, and no dispatch that reached it before used its scope, id or receipt; a refused one changes nothing and its status is that of the first check it fails. |
| EmbodiedAdmission.EffectsAreAuthorized | lumina_next/embodied_action_api_v1.py:747-800 | In every run each effect in the adapter was made by a call that was authorised, with its world's preconditions met and in time. |
| EmbodiedAdmission.CancelAnswers | lumina_next/embodied_action_api_v1.py:878-926 | Every answer of a cancel after any calls. |
| EmbodiedAdmission.IdentifierIff | lumina_next/embodied_action_api_v1.py:39 | Identifiers letter by letter: which begin one, which extend one, and how far. |
| EmbodiedAdmission.AdapterAccounts | lumina_next/embodied_action_api_v1.py:537-598 | Whoever calls the adapter, and in any order: calls are effects plus counted duplicates, and rollbacks are the effects rolled back. |
| EmbodiedAdmission.HandleMoves | lumina_next/embodied_action_api_v1.py:577-598 | A handle moves only its own effect: a rollback takes it back once, a cancel stops one still applied, and the answers and counters say which. |
| EmbodiedAdmission.SendsOnce | lumina_next/embodied_action_api_v1.py:537-575 | A repeated key changes no effect and is counted; a new one applies its effect under its handle. |
| EmbodiedActionService.LocalFakeEmbodiedAdapter.Dispatch | lumina_next/embodied_action_api_v1.py:537-575 | Applies an effect under a new key, or counts a duplicate and changes no effect. |
| EmbodiedActionService.LocalFakeEmbodiedAdapter.Rollback | lumina_next/embodied_action_api_v1.py:577-587 | Rolls an effect back once. |
| EmbodiedActionService.LocalFakeEmbodiedAdapter.Cancel | lumina_next/embodied_action_api_v1.py:589-598 | Cancels an effect that is still applied. |
| EmbodiedActionService.EmbodiedActionService.Dispatch | lumina_next/embodied_action_api_v1.py:704-876 | The dispatcher's whole effect and reply, in the order of its checks. |
| EmbodiedActionService.EmbodiedActionService.Invoke | lumina_next/embodied_action_api_v1.py:774-876 | Recording scope, owner and receipt around the adapter call. |
| EmbodiedActionService.EmbodiedActionService.ConcludeDispatch | lumina_next/embodied_action_api_v1.py:800-861 | The branches on the adapter's answer. |
| EmbodiedActionService.EmbodiedActionService.Cancel | lumina_next/embodied_action_api_v1.py:878-926 | The whole effect and status of a cancel. |
| KarakuriExactlyOnce.TrimDrops | lumina_next/karakuri_session.py:458-463 | A trim drops settled records from the front, in order, and ends within the limit or at a record in flight. |
| KarakuriExactlyOnce.StepIsSafe | lumina_next/karakuri_session.py:235-292 | From a state that is not exposed, any step but cancelling a waiter keeps processing exactly-once and exposes nothing. |
| KarakuriOverlap.ExactlyOnce | lumina_next/karakuri_session.py:235-292 | If no waiting duplicate is ever cancelled, no two processing runs of one notification overlap and no record in flight is evicted, in any run. |
| KarakuriOverlap.ExactlyOnceIff | lumina_next/karakuri_session.py:235-292 | From any exactly-once state, an overlap can follow without a further waiter being cancelled if and only if the state is exposed: some notification is processed although its future is done, and every pending record ahead of it still has its task. |
| KarakuriOverlap.ExposedIsEvicted | lumina_next/karakuri_session.py:458-463 | The run that shows it, built for every exposed state: settle what is ahead, then deliver new notifications until the record is evicted. |
| KarakuriOverlap.ExposedOverlaps | lumina_next/karakuri_session.py:235-292 | From there a redelivery starts the second run. |
| KarakuriOverlap.CancelledWaiterExposes | lumina_next/karakuri_session.py:262-264 | The failing input, for every table size: one notification, one duplicate that waits, and the duplicate cancelled, which cancels the shared future. |
| KarakuriOverlap.StepFromSafe | lumina_next/karakuri_session.py:235-292 | Up to the first exposed state every run, cancelled waiters included, is exactly-once. |
| KarakuriAgreement.CallersAgree | lumina_next/karakuri_session.py:239-292 | In every run up to and including its first exposed state, cancelled waiters included, all answers for one record carry the same response, attempts, timeout flag and error, whether the caller ran it, waited for it or came later. |
| KarakuriAgreement.ArrivalTells | lumina_next/karakuri_session.py:235-264 | A notification that arrives is answered at once, as a duplicate with the stored response, attempts, timeout flag and error, if and only if its record has a result; it waits for the record's future if there is none yet, and runs under a new pending record if the table has no record for it. |
| KarakuriAgreement.StepTells | lumina_next/karakuri_session.py:248-292 | Who is told what: a run that finishes its own result, a waiter that wakes the resolved one as a duplicate, and whoever is cancelled nothing. |
| KarakuriAgreement.TaskLeaves | lumina_next/karakuri_session.py:256-292 | A call ends only by a step of its own: a run when it finishes or is cancelled, a waiter when its future is done or it is cancelled; until then it stays as it is. |
| KarakuriAgreement.StepWrites | lumina_next/karakuri_session.py:276-292 | For every step and every record: its result changes only when a run finishes while the table has it under the run's notification; its future only while it is pending, resolved by that run, or cancelled with its run or a waiter. |
| KarakuriAgreement.FuturesAreFinal | lumina_next/karakuri_session.py:285-291 | In every run a future that is done keeps its value: nobody is told something else later. |
| KarakuriAgreement.KeptWaitersShelter | lumina_next/karakuri_session.py:239-292 | A run in which no waiter is cancelled has no exposed state, so its callers always agree. |
| KarakuriAgreement.CallersAgreeIff | lumina_next/karakuri_session.py:239-292 | From an exactly-once state, callers of one record can come to be told different things without another waiter being cancelled if and only if the state is exposed. |
| KarakuriAgreement.CancelledWaiterMisleads | lumina_next/karakuri_session.py:285-291 | The failing case, for every table size: after one notification and one cancelled duplicate of it, the first run settles the second run's record, and two callers of that record get different responses. |
| KarakuriExchanges.OneExchangePerRecord | lumina_next/karakuri_session.py:350-357 | In every run up to and including its first exposed state, cancelled waiters included: of two exchanges of one notification the earlier is of an older record, and that record is no longer retained. |
| KarakuriExchanges.NobodyCancelledShelters | lumina_next/karakuri_session.py:239-292 | A run in which no waiter is cancelled has no exposed state, so the same holds in it. |
| KarakuriExchanges.HistoriesHoldItOnce | lumina_next/karakuri_session.py:350-359 | The same about the histories themselves: a conversation's history is the transcript of its latest exchanges since it was forgotten, and of two of them that name one notification the earlier is of an older record that is gone. |
| KarakuriStuck.CancelledWaiterRecordsTwice | lumina_next/karakuri_session.py:262-264 | The failing case, for every table size and notification: after one cancelled duplicate, an eviction and a redelivery both runs record an exchange, the old one last, while the newer record is retained. |
| KarakuriTwice.BreakableBreaks | lumina_next/karakuri_session.py:235-292 | The run that shows it, built for every breakable session. |
| KarakuriStuck.RecordedTwiceIff | lumina_next/karakuri_session.py:235-292 | From any session that has been sound so far, a notification can come to be recorded twice without a further waiter being cancelled if and only if some run is exposed and has not recorded its exchange yet, or is exposed while every pending record still has its task. |
| KarakuriStuck.AttendedTwiceIff | lumina_next/karakuri_session.py:235-292 | Where every pending record still has its task, that is: if and only if the state is exposed. |
| KarakuriStuck.PlayStaysStuck | lumina_next/karakuri_session.py:458-463 | The other half: behind an abandoned record nothing is evicted any more; a session in which every run settled ahead of it has recorded its exchange stays without a second one in every continuation. |
| KarakuriSession.KarakuriSession.TrimNotifications | lumina_next/karakuri_session.py:458-463 | The eviction loop on the table of record objects. |
| KarakuriSession.KarakuriSession.Arrive | lumina_next/karakuri_session.py:235-264 | The locked lookup: an answer from a settled record, the shared future to wait for, or a new record. |
| KarakuriSession.KarakuriSession.AddRecord | lumina_next/karakuri_session.py:243-246 | A new record object under a new id, with all others unchanged. |
| KarakuriSession.KarakuriSession.Settle | lumina_next/karakuri_session.py:285-292 | Settling writes the record now under the id, resolves its future once, and trims. |
| KarakuriSession.KarakuriSession.CancelOwner | lumina_next/karakuri_session.py:276-281 | A cancelled processing task cancels a future that is still pending. |
| KarakuriSession.KarakuriSession.RecordExchange | lumina_next/karakuri_session.py:350-357 | A user and an assistant turn enter the bounded history together, and a recontact starts its cooldown. |
| KarakuriSession.KarakuriSession.Reset | lumina_next/karakuri_session.py:447-456 | Forgetting one conversation and the contact of its name, or all. |
| KarakuriHistory.HistoryIsRecentExchanges | lumina_next/karakuri_session.py:350-359 | Whatever is interleaved, a history is the transcript of the conversation's latest exchanges since it was last forgotten, at most the configured number of them. |
| KarakuriHistory.HistoriesArePaired | lumina_next/karakuri_session.py:350-357 | Every history is a sequence of (user, assistant) pairs of one notification, of at most twice the configured length. |
| KarakuriHistory.Respond | lumina_next/karakuri_session.py:369-398 | At most one attempt more than the retries; it stops at the first attempt that does not fail or the first cancelled sleep, reports the last failure otherwise, and sleeps once after each failure but the last. |
| KarakuriHistory.BackoffsSum | lumina_next/karakuri_session.py:395-397 | The delays after k failures sum to backoff * (2^k - 1). |
| KarakuriHistory.CooldownIsFromLatest | lumina_next/karakuri_session.py:358-359 | A cooldown counts from the latest recontact since its contact was forgotten. |
| BoundedDeque.ExtendIsLast | lumina_next/karakuri_session.py:354-357 | A bounded deque holds the last elements of everything appended to it. |
| AutonomyTicks.ActionsAreConserved | lumina_next/autonomy_supervisor.py:375-401 | Over all ticks the counters count the whole history although only its last twelve entries are kept; an action taken is completed, pending, or of a kind whose completion is not tracked; the pending one is the last recent entry; and cognition was told of exactly as many completions and successes as were counted. |
| AutonomyTicks.RunKeeps | lumina_next/autonomy_supervisor.py:227-423 | Every run of rounds, ticks cut short by an unhandled error or a cancellation included, keeps counters, bounded deque, pending action and the reports to cognition in step with the full history, whatever request ids the bridge's replies carry. |
| AutonomyTicks.TickObserves | lumina_next/autonomy_supervisor.py:395-401 | A tick tells cognition of an action exactly when it completes one, with its success, and of the pending action with its target. |
| AutonomyTicks.TickNotes | lumina_next/autonomy_supervisor.py:402-407 | A tick has at most one event recorded, and its outcome says which: a cycle exactly when an entry is appended, a completion exactly when the outstanding one is completed. |
| AutonomyTicks.PendingTickOnlyReconciles | lumina_next/autonomy_supervisor.py:231-233 | While an action is pending a tick plans and executes nothing; it completes that action's entry exactly when the service's terminal evidence is stable, and then counts it once. |
| AutonomyTicks.EntriesAreFinal | lumina_next/autonomy_supervisor.py:676-690 | An entry that is completed, or was never outstanding, stays as recorded over every further run. |
| AutonomyTicks.MarkLatestIsLast | lumina_next/autonomy_supervisor.py:676-690 | The reversed search of the bounded deque completes the same entry as in the full history. |
| AutonomyTicks.StartedActionIsGrounded | lumina_next/autonomy_supervisor.py:1155-1361 | A visual action is started only as a move or look at a target among the observed candidates, with nothing outstanding and every gate open. |
| AutonomyTicks.TickSpeech | lumina_next/autonomy_supervisor.py:933-957 | Something is said only past the cooldown, and nothing one of the last twelve entries says. |
| AutonomyTicks.SpeechIsSpaced | lumina_next/autonomy_supervisor.py:940-941 | Over all ticks, things said one after the other are at least the cooldown apart. |
| AutonomyTicks.Canonical | lumina_next/autonomy_supervisor.py:967-983 | The candidate map has an entry exactly for the observed forms, and yields an observed label. |
| AutonomyTicks.MarkLatestMarks | lumina_next/autonomy_supervisor.py:676-690 | Completing the latest entry of a request touches exactly the last one that carries its id. |
| AutonomyOutcomes.PendingTickAnswers | lumina_next/autonomy_supervisor.py:600-723 | What a pending action comes to, read off the job: completed if and only if it has ended in order and a move arrived or a look was observed without arriving; every failure status counts and reports a failure. |
| AutonomyOutcomes.SuccessesAreShown | lumina_next/autonomy_supervisor.py:666-690 | Over all ticks every move or look that counts as a success was shown to be one by a visual job of its own. |
| AutonomyOutcomes.GatesAnswer | lumina_next/autonomy_supervisor.py:234-373 | Each gate's answer, and that a tick acts if and only if every gate is open, before and after planning. |
| AutonomyOutcomes.ExecutedIff | lumina_next/autonomy_supervisor.py:375-419 | What becomes of a plan: executed if and only if it is allowed and its action goes out, completed at once only for a sleep or a visual action that has already ended, and successful only if that did. |
| AutonomyOutcomes.ErrorsIff | lumina_next/autonomy_supervisor.py:933-983 | What is said to be wrong with a plan, error by error. |
| AutonomySupervisor.AutonomySupervisor.TickLocked | lumina_next/autonomy_supervisor.py:227-423 | The tick: gates, plan, execution, counters and deque, the calls that report an action and record an event, its status, phase, times and error. |
| AutonomySupervisor.AutonomySupervisor.CountAction | lumina_next/autonomy_supervisor.py:375-394 | Counters and the bounded deque after an execution. |
| AutonomySupervisor.AutonomySupervisor.WorkerRound | lumina_next/autonomy_supervisor.py:1475-1500 | One round of the worker; an unhandled error is counted and noted. |
| AutonomySupervisor.AutonomySupervisor.ReconcilePendingVisualAction | lumina_next/autonomy_supervisor.py:600-723 | The whole reconciliation of the outstanding action. |
| AutonomySupervisor.AutonomySupervisor.CompleteLatest | lumina_next/autonomy_supervisor.py:676-690 | The reversed search of the recent actions. |
| AutonomySupervisor.AutonomySupervisor.ExecutePlan | lumina_next/autonomy_supervisor.py:1008-1153 | The branches by kind of action. |
| AutonomySupervisor.AutonomySupervisor.ExecuteVisualAction | lumina_next/autonomy_supervisor.py:1155-1385 | The admission checks and the start of a visual action. |
| SafetyAudit.ValidateAuditLog | lumina_next/community_safety_v1.py:515-526 | The validator accepts exactly the logs whose entries have the schema, their position, their predecessor's hash, their own hash and complete provenance. |
| SafetyAudit.AcceptedIff | lumina_next/community_safety_v1.py:515-526 | Acceptance entry by entry: the last entry names the schema, its position and its predecessor's hash, carries its own hash and says in full where it comes from. |
| SafetyAudit.HashPinsPrefix | lumina_next/community_safety_v1.py:515-526 | With an injective hash, two accepted logs that agree on one entry's hash are identical up to that entry, at the same position. |
| SafetyAudit.LastHashPinsLog | lumina_next/community_safety_v1.py:515-526 | Two non-empty accepted logs with the same last hash are the same log. |
| SafetyAudit.PrefixIsAccepted | lumina_next/community_safety_v1.py:515-526 | A log cut short is accepted too, so the last hash is needed to notice it. |
| SafetyAudit.LogIsSound | lumina_next/community_safety_v1.py:281-305 | Every run of assessments and appeals gives an accepted log with one entry for each incident and appeal, each appeal's after its incident's, by that incident's subject and bound to its decision. |
| SafetyAudit.DecisionPinsLog | lumina_next/community_safety_v1.py:391-401 | A decision hash fixes the incident and the whole log up to its entry, across any two runs. |
| SafetyAudit.AssessedIff | lumina_next/community_safety_v1.py:307-402 | An incident is entered exactly when its id is new, its provenance complete and every check passes; otherwise nothing changes and the error is that of the first to fail. |
| SafetyAudit.AppealedIff | lumina_next/community_safety_v1.py:404-509 | An appeal is entered exactly when its id is new, its incident was decided about its user, in its room and tenant and with the hash it names, its provenance is complete and every check passes; otherwise nothing changes and the error is that of the first to fail. |
| SafetyAudit.AppealsWereAllowed | lumina_next/community_safety_v1.py:404-509 | In every run each appeal was entered by a call with all checks passed, in the room and tenant of an incident that was already decided. |
| SafetyAudit.CommunitySafetyEngine.AppendAudit | lumina_next/community_safety_v1.py:281-305 | The appended entry is chained to the last. |
| SafetyAudit.CommunitySafetyEngine.AssessIncident | lumina_next/community_safety_v1.py:307-402 | The whole effect of an assessment, and its error in the order of the checks, down to the second and consuming check of the token. |
| SafetyAudit.CommunitySafetyEngine.AppealIncident | lumina_next/community_safety_v1.py:404-509 | The whole effect of an appeal, and its error in the order of the checks, down to the second and consuming check of the token. |
| TelemetryPrivacy.StoredIff | lumina_next/beta_telemetry_privacy_v1.py:183-197 | In any run an event is stored exactly when its id was never stored before, not even for another scope or before a deletion, its scope's last answer is consent, and it is well formed and within its time. |
| TelemetryPrivacy.VerdictIff | lumina_next/beta_telemetry_privacy_v1.py:173-205 | Why an event is not stored, after any calls: replayed, without consent, ahead of the clock or past its retention, each exactly when it is so and nothing before it failed. |
| TelemetryPrivacy.ConsentAndAccounting | lumina_next/beta_telemetry_privacy_v1.py:155-164 | Every stored event's scope currently consents, and ids stored = events stored + events removed by opt-out, deletion and purge. |
| TelemetryPrivacy.IdsAreStoredOnce | lumina_next/beta_telemetry_privacy_v1.py:183-185 | No id is stored twice. |
| TelemetryPrivacy.RunOnScope | lumina_next/beta_telemetry_privacy_v1.py:155-255 | After any run a scope has exactly the events read off the calls alone: those stored since it last opted out or was deleted, less those purged, in order. |
| TelemetryPrivacy.WithoutLeavesOthers | lumina_next/beta_telemetry_privacy_v1.py:239-243 | Opt-out and deletion remove all of the scope's events and leave every other scope's, in order. |
| TelemetryPrivacy.StepOnScope | lumina_next/beta_telemetry_privacy_v1.py:155-255 | A call changes its own scope's events only, except that a purge drops expired ones everywhere. |
| TelemetryPrivacy.PurgeIsExact | lumina_next/beta_telemetry_privacy_v1.py:250-254 | A purge removes every expired event and no other. |
| TelemetryPrivacy.ExportIsExact | lumina_next/beta_telemetry_privacy_v1.py:222-230 | An export is a sorted permutation of exactly the scope's events. |
| TelemetryPrivacy.SortedIff | lumina_next/beta_telemetry_privacy_v1.py:230 | Sorted means by time text, and by token among those of one time text. |
| TelemetryPrivacy.TextLessIff | lumina_next/beta_telemetry_privacy_v1.py:230 | Texts are ordered by the first character in which they differ, a prefix first. |
| TelemetryPrivacy.KeysAreNotChronological | lumina_next/beta_telemetry_privacy_v1.py:97-98 | The sort order is not that of time: for any second, the event half a second later is exported before the event on the second. |
| TelemetryPrivacy.BetaTelemetryPrivacyService.SetConsent | lumina_next/beta_telemetry_privacy_v1.py:155-171 | The whole effect, and the number of events removed. |
| TelemetryPrivacy.BetaTelemetryPrivacyService.Ingest | lumina_next/beta_telemetry_privacy_v1.py:173-220 | The whole effect and the verdict, in the order of the checks. |
| TelemetryPrivacy.BetaTelemetryPrivacyService.ExportEvents | lumina_next/beta_telemetry_privacy_v1.py:222-237 | Returns a sorted permutation of exactly the scope's events, and changes nothing. |
| TelemetryPrivacy.BetaTelemetryPrivacyService.DeleteScope | lumina_next/beta_telemetry_privacy_v1.py:239-248 | The whole effect, and the number of events removed. |
| TelemetryPrivacy.BetaTelemetryPrivacyService.Purge | lumina_next/beta_telemetry_privacy_v1.py:250-254 | The whole effect, and the number of events removed. |
| CircuitBreaker.BreakerIsSafe | lumina_next/circuit_breaker.py:37-93 | Over every run: closed means no crash loops and no times set; once their number reaches the limit the breaker is open and no later sequence of calls admits an attempt. |
| CircuitBreaker.BackoffGrowsIff | lumina_next/circuit_breaker.py:74-77 | Backoff is always capped, and never shrinks as failures accumulate if and only if the base delay is not negative. |
| CircuitBreaker.ConsecutiveFailuresWaitLonger | lumina_next/circuit_breaker.py:47-72 | Consecutive opening failures return waits that do not shrink and stay within the cap. |
| CircuitBreaker.AdmittedBeforeGateIff | lumina_next/circuit_breaker.py:47-93 | After a failure that opens the breaker, some run has an attempt admitted before the time that failure set if and only if one more crash loop is allowed and the least backoff ends earlier. |
| CircuitBreaker.GateHoldsWithoutSuccess | lumina_next/circuit_breaker.py:79-93 | While no success is recorded, nothing is admitted before that time. |
| CircuitBreaker.DefaultGateIsOvertaken | lumina_next/circuit_breaker.py:37-93 | The failing case with the default settings: after four failures at time 0 an attempt can be admitted before time 4. |
| CircuitBreaker.HistoryIsLatestErrors | lumina_next/circuit_breaker.py:48-56 | The bounded history is the latest errors of the whole run, as they are recorded. |
| CircuitBreaker.Detail | lumina_next/circuit_breaker.py:49 | A recorded error is never empty and never longer than 500 characters. |
| CircuitBreaker.DetailIs | lumina_next/circuit_breaker.py:49 | A recorded error is the first 500 characters of the text without the blanks at its ends, or named as unknown exactly when the text is blank. |
| CircuitBreaker.LastErrorIsLatest | lumina_next/circuit_breaker.py:37-50 | The last error is that of the last call that recorded anything, if it was a failure. |
| CircuitBreaker.AdmittedIff | lumina_next/circuit_breaker.py:79-93 | After any run an attempt is admitted exactly when crash loops remain and no time is set, it has come, or a trial is on. |
| CircuitBreaker.FailuresOpenIff | lumina_next/circuit_breaker.py:47-64 | A closed breaker opens at exactly the failure in a row that reaches the threshold; every further one counts another crash loop and sets a new time. |
| CircuitBreaker.TrialClosesIff | lumina_next/circuit_breaker.py:37-45 | A breaker on trial closes at exactly the success in a row that reaches the threshold, and forgets its crash loops. |
| CircuitBreaker.ReopensIff | lumina_next/circuit_breaker.py:79-93 | An open breaker goes on trial exactly when crash loops remain and its time has come, and enough successes then close it. |
| CircuitBreaker.TrialFails | lumina_next/circuit_breaker.py:66-70 | A failure on trial opens the breaker again and waits anew. |
| CircuitBreaker.BackoffDoubles | lumina_next/circuit_breaker.py:74-77 | The wait is the base delay up to the threshold and doubles with each failure beyond it, within the cap. |
| CircuitBreaker.CircuitBreaker.RecordSuccess | lumina_next/circuit_breaker.py:37-45 | The whole effect of a success. |
| CircuitBreaker.CircuitBreaker.RecordFailure | lumina_next/circuit_breaker.py:47-72 | The whole effect of a failure, and the time it sets. |
| CircuitBreaker.CircuitBreaker.AllowAttempt | lumina_next/circuit_breaker.py:79-93 | The whole effect of asking, and when the answer is yes. |
| AutonomyWatchdog.CountersAreTrailingRuns | lumina_next/autonomy_watchdog_v1.py:187-195 | Over every run the two counters are the lengths of the trailing runs of equal actions and of pressured samples among the samples taken since the last reset and before any kill. |
| AutonomyWatchdog.PermitsIff | lumina_next/autonomy_watchdog_v1.py:173-214 | A decision permits execution if and only if its sample is not from the future, no kill happened since the last reset, and neither it nor any sample that counted before triggered a reason. |
| AutonomyWatchdog.DecisionExactly | lumina_next/autonomy_watchdog_v1.py:173-214 | The decision on a sample, after any calls, read off the samples: rejected exactly when it is ahead of the clock, permitted exactly when nothing has stopped the loop since the last reset, and its reasons are exactly those this sample gives (a stop request, an incomplete trace, a late heartbeat, too many equal actions, pressure for too long), or else the latch. |
| AutonomyWatchdog.RunRefines | lumina_next/autonomy_watchdog_v1.py:173-257 | After every run the watchdog's mode and counters are a function of the samples that count and of the kill switch. |
| AutonomyWatchdog.EventsAreGapless | lumina_next/autonomy_watchdog_v1.py:135-147 | Event sequence numbers count the events without gaps. |
| AutonomyWatchdog.AutonomyWatchdog.TakeSample | lumina_next/autonomy_watchdog_v1.py:173-214 | The whole effect of a sample and its decision. |
| AutonomyWatchdog.AutonomyWatchdog.CollectReasons | lumina_next/autonomy_watchdog_v1.py:197-207 | The reasons, in their order. |
| AutonomyWatchdog.AutonomyWatchdog.TriggerKillSwitch | lumina_next/autonomy_watchdog_v1.py:216-236 | The kill switch latches. |
| AutonomyWatchdog.AutonomyWatchdog.ResetSafeIdle | lumina_next/autonomy_watchdog_v1.py:238-257 | A reset clears both latches and both counters, unless actions remain. |

## Left out

- CommandTheorems.OwnershipIsNotLost: says what the adapter's own state guarantees; that the engine has physically stopped is not claimed, since `stop` matches past events by command id only.
- CommandSafety.StepKeeps: the polling inside one `feedback` call is one step, since it only reads between its awaits.
- EmbodiedAction.NoDuplicateSideEffects: for an adapter driven by this service alone, as its constructor requires a fresh one; the constant adapter-scope check is not modelled.
- Transport, files, images, JSON canonicalisation, HMAC and process locks: arguments of the calls, or absent. SHA-256 is an injective function wherever its value matters.
- Validators and modules whose code is not part of this model (the portable navigation contract and core, visual navigation, risk policy, world state, identity and social protocols): booleans or opaque values.
- Floating-point rounding and overflow, and wall-clock accuracy.
- The recontact cooldown's check: it and the update are separate locked sections and promise nothing together.
- Speech audio, context building and the planner's prompts in the supervisor; what cognition and the memory do when they are called, and the texts of the recorded events.
- The checks of the community-safety engine that are not named by an error of the model: a group of them is an argument, the code of the first that fails.
- Capture, grounding, map assembly and the reference packs and evaluations of the repository: they would add single-branch facts only.
