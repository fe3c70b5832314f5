# RelayTerm session core: a Dafny model

RelayTerm's backend keeps SSH terminals alive, fans their output out to browsers and
records it. This project models six pieces of that core and proves what they promise.

| component | files | source |
|---|---|---|
| Recording pipeline | `Recording*.dfy` | `crates/relayterm-terminal/src/recording.rs` |
| Replay ring | `Replay.dfy` | `crates/relayterm-terminal/src/replay.rs` |
| Forwarder and live attach | `Forwarder.dfy`, `Attach.dfy` | `crates/relayterm-terminal/src/manager.rs`, `crates/relayterm-api/src/routes/v1/terminal_sessions.rs` |
| Session lifecycle | `Session*.dfy` | `crates/relayterm-terminal/src/manager.rs` |
| Login throttler | `Throttle.dfy`, `ThrottleTheorems.dfy` | `crates/relayterm-auth/src/throttle.rs` |
| Binary frame codec | `Codec.dfy` | `crates/relayterm-protocol/src/binary.rs` |
| Retention sweep | `Retention.dfy` | `crates/relayterm-terminal/src/retention.rs` |

`dafny verify dfyconfig.toml` checks everything.

## How the model is built

- **Failures.** A repository call succeeds or fails according to a `Fate`, a function from
  the call's number to a boolean. Theorems quantify over every `Fate`, so they hold for
  every failure pattern.
- **Concurrency.** The recording pipeline, a live attach and the session manager are step
  systems. A run is any sequence of steps; a step that is not possible when its turn comes
  does nothing. In the recording pipeline the forwarder, marker callers, shutdown and each
  single writer command interleave freely, and a send may find the queue full at any length.
  The end of the shutdown drain and the exit that follows it are separate steps: in between,
  sends still succeed although nothing will be received any more.
- **Imperative code.** Where the source mutates fields or loops, so does the model:
  `RecordingHandle`, `WriterTask`, `ReplayBuffer`, `Bridge`, `TerminalSessionManager`,
  `LoginThrottler`, `EncodeFrame` and `RunSweep`. Each is proved equal to the function the
  theorems are about. `TerminalSessionManager` also keeps its registries consistent
  (`Valid()`) and states on its fields what each result means.
- **The recording's promise** is the predicate `RecordingLedger.Accounted`. It mentions only
  the attempted rows and the stamped frames. Read backwards, the rows that answer for a
  range (landed chunks and attempted gap markers) step down to seq 1 without overlap,
  passing over nothing but byteless frames, and each tells the truth: a chunk holds exactly
  its frames' bytes, a gap's reason is what became of its frames.

## Where the code and its documentation differ

- `docs/terminal-recording.md:408-412` promises that a gap is never a silent omission. Three
  kinds of frames are never marked: those dropped after the last queued frame, because
  `shutdown` does not write `pending_gap` (`TrailingDropIsSilent`); those queued between the
  end of the shutdown drain and the drop of the receiver (`QueuedTooLateIsSilent`); and those
  teed after it, which the closed channel loses (`TeedAfterExitIsSilent`). A forwarder that
  outlived its 500 ms barrier sends both of the latter. `MissingIffLeftBehindOrLate` says that
  after a clean exit nothing else is missing.
- `crates/relayterm-terminal/src/manager.rs:1334-1336` says a session whose PTY the forwarder
  already tore down is not scheduled for a detach close. The forwarder leaves the live
  runtime bound, so it is scheduled, and the Closed row becomes Detached
  (`ReopensExactlyByFinalDetach`, `ShellExitThenDisconnectReopens`).
- `crates/relayterm-terminal/src/manager.rs:1408-1416` says a session never escapes the
  bounded detach window. A live PTY can be left with no attachment and no timer, and nothing
  retries. `LosesWatchIff` lists exactly the steps that do it: an expiry whose close fails
  (`FailedReadStrands`), a reattach that cancels the timer and then fails
  (`FailedReattachUnwatches`), the socket's bare `detach_session` of the last attachment
  (`BareDetachUnwatches`), a repeated detach of an attachment already marked
  (`RetriedDetachUnwatches`), and a start while nobody is attached.
- `crates/relayterm-api/src/routes/v1/terminal_sessions.rs:498-505` says the live floor keeps
  a replayed frame from being sent twice. Frames forwarded before the client's `Attach`
  arrived are not covered (`RepeatedIffDeliveredBeforeHandshake`, `SecondFrameSentTwice`).
- `docs/persistent-sessions.md:29-31` says a bookmark that predates the buffer gets
  `replay_window_lost`. The seq counter outlives a runtime but the ring does not, and an empty
  ring reports no loss for any bookmark (`ResumeCompleteIff`, `StaleBookmarkLeavesHole`).
- `crates/relayterm-api/src/routes/v1/terminal_sessions.rs:1064-1068` says replay covers a
  frame the encoder refused. Replay goes through the same encoder (`ResumedReceivesIff`).
- `crates/relayterm-protocol/src/binary.rs:23-24` says readers ignore reserved bits. The
  decoder rejects them (`NonZeroReservedRejected`).
- `crates/relayterm-auth/src/throttle.rs:92-93` calls the reported wait an upper bound on the
  remaining block. Truncation makes it up to a second short (`RetryAfterCoversIff`).
- `crates/relayterm-auth/src/throttle.rs:233-235` calls the capped vector enough and what lies
  beyond it prunable. The cap keeps the oldest failures and turns the newest away (`StaysExactIffRoom`, `CapUndercounts`).

## Model

| member | source | states |
|---|---|---|
| `RecordingTheorems.RecordingIsStreamWithHoles` | crates/relayterm-terminal/src/recording.rs:570-820 | In every reachable state, for every queue-full and chunk-failure pattern with gap markers landing, the durable chunks concatenate to the PTY stream with exactly the durable gap ranges cut out; with no byteless frame, chunk and gap ranges tile 1..m in row order. |
| `RecordingTheorems.RowsAreHonest` | crates/relayterm-terminal/src/recording.rs:584-636 | Every landed chunk [a,b] holds exactly the bytes of frames a..b, all of which the producer queued, and every gap marker names frames really missing under the cause that dropped the first, whatever fails and for every target and cap. |
| `RecordingTheorems.ExactlyOneAnswer` | crates/relayterm-terminal/src/recording.rs:751-820 | Every byte-carrying frame up to the answered point is answered for by exactly one attempted row. |
| `RecordingTheorems.MissingIffGapMarkerLost` | crates/relayterm-terminal/src/recording.rs:822-843 | When marker writes may fail too, a byte-carrying frame is absent from the durable rows if and only if the gap marker for it did not land. |
| `RecordingTheorems.ProducerInvariant` | crates/relayterm-terminal/src/recording.rs:325-371 | While the channel is open, for every cap, the pending gap is exactly the run from the last queued frame + 1 to the last teed frame with the earliest cause, and each queued frame carries exactly the gap since the queued frame before it. |
| `RecordingTheorems.UnaccountedIffLeftBehind` | crates/relayterm-terminal/src/recording.rs:649-731 | At a clean exit the rows account for everything the writer took, and a teed frame is beyond that if and only if it is in the pending gap or in the queue left behind, as a queued frame or in its `gap_before`. |
| `RecordingTheorems.AnsweredIffNotLeftBehind` | crates/relayterm-terminal/src/recording.rs:649-749 | At a clean exit a byte-carrying frame is answered for by some row if and only if it is not left behind. |
| `RecordingTheorems.AfterExit` | crates/relayterm-terminal/src/recording.rs:361-371 | Once the task has stopped, no continuation writes a row, and a frame teed then is refused as oversized or lost, never kept. |
| `RecordingTheorems.AnsweredIffProcessed` | crates/relayterm-terminal/src/recording.rs:570-749 | In every cleanly stopped reachable state a byte-carrying frame, teed or not, is answered for by some row if and only if the writer had taken it or its gap. |
| `RecordingTheorems.MissingIffLeftBehindOrLate` | crates/relayterm-terminal/src/recording.rs:361-484 | At any time after a clean exit a byte-carrying frame has no row if and only if the exit left it behind in the gap slot or queue or it had not been teed by then. |
| `RecordingTheorems.ShutdownCompleteIffNothingLeft` | crates/relayterm-terminal/src/recording.rs:434-484 | With byte-carrying frames, at any time after a clean exit every teed frame is accounted for if and only if no gap was pending and no frame was queued when the exit began and none has been teed since. |
| `RecordingTheorems.TrailingDropIsSilent` | crates/relayterm-terminal/src/recording.rs:440-484 | A concrete run that ends cleanly with its only frame dropped and no row answering for it. |
| `RecordingTheorems.QueuedTooLateIsSilent` | crates/relayterm-terminal/src/recording.rs:652-730 | A concrete run in which a frame is sent successfully after the drain ended: the exit is clean, no gap is pending and no row answers for the frame. |
| `RecordingTheorems.TeedAfterExitIsSilent` | crates/relayterm-terminal/src/recording.rs:361-369 | A concrete run in which nothing is pending or queued at the clean exit and a frame teed after it is lost without a row. |
| `RecordingTheorems.EveryPrefixAccounted` | crates/relayterm-terminal/src/recording.rs:469-476 | For every reachable state and every prefix of its rows, also one that ends inside a command, the prefix accounts for a prefix of the stream, so an abort between any two writes leaves an accounted recording. |
| `RecordingTheorems.LogShape` | crates/relayterm-terminal/src/recording.rs:594-633 | In every reachable state and for every u32 cap the open batch is shorter than the target, every chunk is nonempty and within the hard cap and target-1 plus its last frame, a failed chunk is bracketed at once, the first row is `started` at 0, and every later row is neither `started` nor at 0. |
| `RecordingTheorems.ChunksAreFull` | crates/relayterm-terminal/src/recording.rs:607-633 | The writer batches, for every target and cap: a landed chunk followed directly by another chunk or by nothing yet has reached the target, or the next frame would have taken it past the hard cap. |
| `RecordingMarkers.MarkersInOrder` | crates/relayterm-terminal/src/recording.rs:381-432 | While the task runs, the markers written and then those still queued are `started` followed by exactly the accepted markers, in send order with their kind, seq and payload. |
| `RecordingMarkers.FinishedMarkers` | crates/relayterm-terminal/src/recording.rs:637-749 | A clean exit adds the `closed` row and no other marker, so the finished markers are `started`, exactly the accepted ones the writer took, and `closed`. |
| `RecordingMarkers.MarkerFollowsItsFrames` | crates/relayterm-terminal/src/recording.rs:637-648 | A marker is written last, with nothing left open, behind rows that account for every frame taken before it. |
| `RecordingMarkers.RowsOnlyAppended` | crates/relayterm-terminal/src/recording.rs:570-749 | No run changes or removes a row once attempted. |
| `RecordingMarkers.ClosedAtFirstRequest` | crates/relayterm-terminal/src/recording.rs:711-727 | On the shutdown exit the `closed` row sits at the `last_seq` of the first shutdown sent, raised to 1. |
| `RecordingMarkers.MarkerQueuedIff` | crates/relayterm-terminal/src/recording.rs:381-432 | A marker is queued, last and unchanged, if and only if the channel is open and uncongested with fewer than 256 commands queued and the seq is in 1..i64::MAX, or 0 for `started`. |
| `RecordingMarkers.FrameKeptIff` | crates/relayterm-terminal/src/recording.rs:325-360 | A frame is kept if and only if it fits the cap and the channel is open and uncongested with fewer than 256 commands queued; it then takes the pending gap with it. |
| `RecordingMarkers.UnkeptFrameInGap` | crates/relayterm-terminal/src/recording.rs:336-371 | A frame not kept widens the pending gap to the smallest range over both under the earliest reason, except on a closed channel, which drops the gap. |
| `RecordingMarkers.RestoreMerges` | crates/relayterm-terminal/src/recording.rs:508-540 | A gap restored into an occupied slot is merged to the smallest range over both, under the slot's reason. |
| `RecordingMarkers.GapWrittenIff` | crates/relayterm-terminal/src/recording.rs:845-875 | A gap marker is attempted, at the range's upper end, if and only if both ends fit i64. |
| `RecordingMarkers.OversizedAtWriter` | crates/relayterm-terminal/src/recording.rs:594-606 | A frame above the cap that reaches the writer flushes the batch and leaves a `frame_oversized` gap over exactly its seq. |
| `RecordingTheorems.ClosedBoundsRowsOnDrop` | crates/relayterm-terminal/src/recording.rs:735-749 | On the dropped-senders exit the `closed` row comes last and its seq bounds every row's seq. |
| `RecordingTheorems.ClosedBoundsRowsOnShutdown` | crates/relayterm-terminal/src/recording.rs:711-727 | On the shutdown exit the same holds when no frame was stamped after `last_seq` was read. |
| `RecordingTheorems.ClosedBoundsRowsIff` | crates/relayterm-terminal/src/recording.rs:711-727 | Without that barrier, if the last drained frame carries bytes, the `closed` row's seq bounds every row's if and only if it bounds the last drained frame and every marker written. |
| `RecordingTheorems.DrainedPastCloseIsAboveClosed` | crates/relayterm-terminal/src/manager.rs:976-992 | Any byte-carrying frame drained past `last_seq` leaves a row above the `closed` marker. |
| `RecordingLedger.PlaysStreamWithHoles` | crates/relayterm-terminal/src/recording.rs:7-14 | Any accounted log whose gap markers landed plays back as the stream with its own gap ranges cut out. |
| `RecordingLedger.NonemptyFramesTile` | crates/relayterm-terminal/src/recording.rs:751-820 | Without byteless frames an accounted log's durable ranges tile 1..m exactly. |
| `RecordingLedger.RangesAscend` | crates/relayterm-terminal/src/recording.rs:637-644 | In an accounted log row order is seq order and ranges never overlap. |
| `RecordingLedger.HiddenIffGapMarkerFailed` | crates/relayterm-terminal/src/recording.rs:835-842 | In an accounted log a byte-carrying frame is missing from the durable rows if and only if its gap marker failed. |
| `RecordingSystem.TrackerStep` | crates/relayterm-terminal/src/recording.rs:336-360 | One `record_output`, oversized, queued or full, keeps the tracker equal to the run of drops since the last queued frame and attaches exactly that run to a queued frame. |
| `RecordingSystem.NextInv` | crates/relayterm-terminal/src/recording.rs:570-749 | Every possible step of producer, markers, shutdown, drain end, exit and abort keeps the pipeline invariants: queue and rows truthful for every cap, row shape for u32 caps, coverage for caps that fit the i32 column. |
| `RecordingWriter.OutputKeeps` | crates/relayterm-terminal/src/recording.rs:584-636 | Handling the next kept frame with its gap extends the account to that frame, whichever branch flushes. |
| `RecordingWriter.OutputTruthful` | crates/relayterm-terminal/src/recording.rs:584-636 | Handling the next kept frame keeps every row honest and the open batch exact, for every target and cap. |
| `RecordingWriter.MarkerKeeps` | crates/relayterm-terminal/src/recording.rs:637-648 | A marker flushes the open batch first and leaves the account as it was. |
| `RecordingWriter.FlushKeeps` | crates/relayterm-terminal/src/recording.rs:751-820 | A flush, landed or failed, moves the open batch's frames into the account. |
| `RecordingWriter.OutputShaped` | crates/relayterm-terminal/src/recording.rs:594-633 | Handling a frame keeps every size bound and leaves less than a target's worth open. |
| `RecordingWriter.OutputBatched` | crates/relayterm-terminal/src/recording.rs:607-633 | Handling a frame leaves no landed chunk short of the target and the cap unless a marker or gap row follows it. |
| `RecordingWriter.FlushLeavesTraceIff` | crates/relayterm-terminal/src/recording.rs:756-786 | A flush attempts a row if and only if the batch has bytes and fits the i32 and i64 columns; otherwise the batch vanishes unmarked. |
| `RecordingTask.DrainRefinesMainLoop` | crates/relayterm-terminal/src/recording.rs:649-731 | For any commands behind `Shutdown`, the rows equal those of taking them in the main loop first and shutting down afterwards. |
| `RecordingTask.TaskAccounts` | crates/relayterm-terminal/src/recording.rs:582-749 | Fed the producer's command stream, the finished log accounts for every frame up to the last queued one, wherever the shutdown falls. |
| `RecordingTask.RecordingHandle.constructor` | crates/relayterm-terminal/src/recording.rs:270-301 | A new handle has no gap and exactly the `started` marker at seq 0 queued. |
| `RecordingTask.RecordingHandle.TakeGap` | crates/relayterm-terminal/src/recording.rs:493-495 | Returns the pending gap and empties the slot. |
| `RecordingTask.RecordingHandle.RestoreGap` | crates/relayterm-terminal/src/recording.rs:508-514 | Puts a taken gap back, merged with one that appeared meanwhile. |
| `RecordingTask.RecordingHandle.ExtendGap` | crates/relayterm-terminal/src/recording.rs:516-532 | Widens the slot's range to the seq and keeps the earliest reason. |
| `RecordingTask.RecordingHandle.RecordOutput` | crates/relayterm-terminal/src/recording.rs:325-371 | Takes, sends, restores and extends exactly as the producer step of the pipeline. |
| `RecordingTask.RecordingHandle.RecordMarker` | crates/relayterm-terminal/src/recording.rs:381-432 | The queue grows by exactly this marker if the channel is open and uncongested with fewer than 256 commands and the seq is in 1..i64::MAX or 0 for `started`, and otherwise stays. |
| `RecordingTask.WriterTask.WriteReplayGap` | crates/relayterm-terminal/src/recording.rs:845-875 | Attempts one gap marker at the range's upper end, or none outside i64. |
| `RecordingTask.WriterTask.FlushOpen` | crates/relayterm-terminal/src/recording.rs:751-820 | Takes the open batch and attempts its chunk row, then a `writer_error` gap if that failed. |
| `RecordingTask.WriterTask.Run` | crates/relayterm-terminal/src/recording.rs:570-749 | The loop over received commands ends in the state `RunTask` gives, on both exits. |
| `RecordingTask.WriterTask.DrainQueue` | crates/relayterm-terminal/src/recording.rs:652-710 | The drain loop ends in the state `Drain` gives. |
| `Replay.ReplayBuffer.Push` | crates/relayterm-terminal/src/replay.rs:151-171 | The ring is the longest suffix of the whole push history within both limits, or the last frame alone; `bytes` is the retained total and `latest_seq` the last pushed seq. |
| `Replay.WindowUnique` | crates/relayterm-terminal/src/replay.rs:81-92 | That description determines the ring uniquely. |
| `Replay.EvictIsWindow` | crates/relayterm-terminal/src/replay.rs:161-170 | Evicting from the front turns the old window plus one frame into the new history's window. |
| `Replay.WindowLostIffNextFrameEvicted` | crates/relayterm-terminal/src/replay.rs:203-221 | `ReplayWindowLost` fires if and only if a positive bookmark is behind the latest seq and the next frame is no longer retained, with the documented fields. |
| `Replay.ReplayAgreesWithHistory` | crates/relayterm-terminal/src/replay.rs:186-233 | An Ok answer to a bookmark is every frame ever pushed after it; a caller without a bookmark always gets the whole ring. |
| `Forwarder.Bridge.Fanout` | crates/relayterm-terminal/src/manager.rs:1811-1836 | One output event is stamped once and the same frame reaches ring, broadcast and recorder, with `last_seq` updated. |
| `Forwarder.Bridge.Forward` | crates/relayterm-terminal/src/manager.rs:1795-1857 | Over any event stream ring, broadcast and recorder each receive exactly the stamped frames, also after `Closed`, and the reported reason is the last announced. |
| `Forwarder.StampedConsecutive` | crates/relayterm-terminal/src/manager.rs:1812-1816 | The stamps are consecutive from the runtime's counter whatever else is in the stream. |
| `Forwarder.StampedPayloads` | crates/relayterm-terminal/src/manager.rs:1804-1836 | Every output event's payload is stamped, in order and unchanged, also after `Closed`. |
| `Forwarder.TeardownReasonIsLast` | crates/relayterm-terminal/src/manager.rs:1837-1857 | The reported reason is that of the last `Closed` event, `local_close` without one. |
| `Attach.ResumeHasNoHole` | crates/relayterm-api/src/routes/v1/terminal_sessions.rs:798-812 | For every interleaving, a client that resumed inside the window and never lagged has been handed exactly this runtime's frames after its bookmark, in order and once, and lacks none of them once its receiver has caught up. |
| `Attach.ResumedReceivesIff` | crates/relayterm-api/src/routes/v1/terminal_sessions.rs:1063-1077 | Such a client, caught up, has been sent a seq after its bookmark if and only if this runtime stamped it and the encoder takes the frame. |
| `Attach.ResumeCompleteIff` | crates/relayterm-api/src/routes/v1/terminal_sessions.rs:798-812 | It lacks no seq from its bookmark to the latest if and only if the bookmark is not older than this runtime and every frame after it fits the encoder's cap. |
| `Attach.StaleBookmarkLeavesHole` | crates/relayterm-terminal/src/manager.rs:715-726 | A concrete run, for every older bookmark: no loss is reported, the client has caught up, and the seqs between its bookmark and this runtime's first never arrive. |
| `Attach.LiveStreamHasNoHole` | crates/relayterm-api/src/routes/v1/terminal_sessions.rs:613-633 | Before the handshake, after a lost window or without a bookmark, the live stream of a client that never lagged is gap-free from its starting point. |
| `Attach.DeliveredAscends` | crates/relayterm-api/src/routes/v1/terminal_sessions.rs:634-645 | Since the handshake delivered seqs strictly increase, even for a lagging client. |
| `Attach.NoLagWithin256` | crates/relayterm-terminal/src/manager.rs:80 | A receiver never holds more than 256 frames, and a client does not lag while at most 256 frames were broadcast since it joined. |
| `Attach.HandedOverAgainIff` | crates/relayterm-api/src/routes/v1/terminal_sessions.rs:498-506 | A frame forwarded before the handshake is handed over again if and only if the client resumed inside the window from an older bookmark, lagged or not. |
| `Attach.RepeatedIffDeliveredBeforeHandshake` | crates/relayterm-api/src/routes/v1/terminal_sessions.rs:498-506 | Over the whole connection, lagged or not, a frame is sent twice if and only if the client resumed inside the window and a frame newer than its bookmark had been sent before the handshake. |
| `Attach.SecondFrameSentTwice` | crates/relayterm-api/src/routes/v1/terminal_sessions.rs:498-506 | A concrete run, for every ring configuration, in which the second frame is delivered before the handshake and again by it. |
| `Attach.NextInv` | crates/relayterm-terminal/src/manager.rs:1817-1828 | Every push, broadcast, subscribe, handshake and delivery step keeps the link and client invariants. |
| `SessionTheorems.RegistryInvariant` | crates/relayterm-terminal/src/manager.rs:1675-1699 | In every reachable state `live` is bound exactly when the runtime status is Live, entries match their row's owner, and a pending close exists only while no attachment of the session is registered. |
| `SessionTheorems.CloseOkLeavesTomb` | crates/relayterm-terminal/src/manager.rs:887-964 | `close_session` returning Ok leaves the row Closed and no runtime entry, on both Ok paths. |
| `SessionTheorems.ClosedForever` | crates/relayterm-terminal/src/manager.rs:877-964 | From then on, in every continuation and failure pattern, the row is unchanged, no runtime entry reappears and no Closed event is added. |
| `SessionTheorems.OnlyDetachReopens` | crates/relayterm-terminal/src/manager.rs:1417-1420 | Every step but a `detach_attachment` of that session leaves a Closed row Closed, for every failure pattern. |
| `SessionTheorems.ReopensExactlyByFinalDetach` | crates/relayterm-terminal/src/manager.rs:1357-1387 | For every failure pattern a step un-closes a Closed row if and only if it detaches the last registered attachment while a live runtime is bound and the detach's six repository calls succeed. |
| `SessionTheorems.ShellExitThenDisconnectReopens` | crates/relayterm-terminal/src/manager.rs:1851-1889 | A run from a fresh manager: create, start, attach, the shell exits and the row is Closed with its time, and the client's disconnect leaves it Detached with `closed_at` cleared. |
| `SessionTheorems.DetachedIff` | crates/relayterm-terminal/src/manager.rs:1252-1319 | A detach takes effect if and only if the caller owns the session, the attachment is an attached one of it and the five calls succeed. |
| `SessionTheorems.FinalDetachOutcome` | crates/relayterm-terminal/src/manager.rs:1361-1381 | The scheduling branch is reached if and only if it is a final detach of a bound live runtime and the five calls succeed. |
| `SessionInvariants.NextReg` | crates/relayterm-terminal/src/manager.rs:620-1505 | Every operation, teardown and expiry keeps the registry and timer invariant under every failure pattern. |
| `SessionInvariants.DetachSessionFrame` | crates/relayterm-terminal/src/manager.rs:1252-1319 | `detach_session` changes no row, runtime entry or timer and forgets at most its own attachment. |
| `SessionTtl.DeadlineNeverMoves` | crates/relayterm-terminal/src/manager.rs:1449-1470 | No step replaces a pending close: while one is pending its deadline and timer stay the same. |
| `SessionTtl.ReattachDisarmsForever` | crates/relayterm-terminal/src/manager.rs:1027-1032 | A reattach that passes the gate disarms the session's timer for every continuation, even if the attach then fails. |
| `SessionTtl.FinalDetachArms` | crates/relayterm-terminal/src/manager.rs:1339-1344 | A detach reports a deadline if and only if it took effect on the last attachment of a live session, even if the status write fails; it then arms a timer for exactly the TTL, or keeps and reports the deadline already pending. |
| `SessionTtl.FiresOnlyUnattended` | crates/relayterm-terminal/src/manager.rs:1479-1494 | A firing timer finds its own detach window still pending and expired, with no attachment registered. |
| `SessionTtl.CloseSucceedsIff` | crates/relayterm-terminal/src/manager.rs:887-964 | A close succeeds if and only if the caller owns the row and its calls succeed, one for a row already Closed and four otherwise, with or without an entry; a failed close leaves the registries as they were. |
| `SessionTtl.ExpiryClosesOrStrands` | crates/relayterm-terminal/src/manager.rs:1473-1505 | In every reachable state an expiry leaves the session closed for good if and only if those calls succeed; otherwise the pending close remains unchanged with no timer behind it. |
| `SessionTtl.FailedReadStrands` | crates/relayterm-terminal/src/manager.rs:1479-1505 | A run from a fresh manager in which one failed read at the deadline leaves the row Detached, the live runtime bound and no timer. |
| `SessionTtl.StrandedUntilRescued` | crates/relayterm-terminal/src/manager.rs:1408-1416 | A stranded session stays stranded, with the same pending close, through every run without its own close, attach, start or failed start. |
| `SessionWatch.LosesWatchIff` | crates/relayterm-terminal/src/manager.rs:1012-1505 | In every reachable state and for every failure pattern, a step leaves a live PTY with no attachment and no timer if and only if it is a successful start with nobody attached, an attach in a detach window that passes the gate and then fails, a bare detach of the sole attachment, a detach of the sole attachment already marked, or an expiry whose close fails, each on the calls it makes. |
| `SessionWatch.UnwatchedUntilRescued` | crates/relayterm-terminal/src/manager.rs:1408-1416 | Such a PTY stays live and unwatched through every run without its session's own close, attach, start, failed start or detach. |
| `SessionWatch.AttachSucceedsIff` | crates/relayterm-terminal/src/manager.rs:1027-1110 | In a detach window and past the gate an attach succeeds if and only if its identifier is fresh and three more calls succeed. |
| `SessionWatch.FailedReattachUnwatches` | crates/relayterm-terminal/src/manager.rs:1027-1050 | A run from a fresh manager in which one failed insert during a reattach leaves the row Detached, the PTY live, no close pending and no timer. |
| `SessionWatch.BareDetachUnwatches` | crates/relayterm-api/src/routes/v1/terminal_sessions.rs:574-579 | A run without any failure in which the socket's bare detach leaves the PTY live with no attachment and no timer. |
| `SessionWatch.RetriedDetachUnwatches` | crates/relayterm-terminal/src/manager.rs:1252-1319 | A run in which a detach fails after marking the row and its retry unregisters without scheduling a close. |
| `SessionWatch.NextWatchInv` | crates/relayterm-terminal/src/manager.rs:620-1505 | Every step also keeps each registered attachment's row and the pending closes' timers distinct. |
| `SessionAccounting.ClosedEventsMatchTransitions` | crates/relayterm-terminal/src/manager.rs:1862-1886 | In every state reached with successful writes, Closed events equal transitions into Closed, which equal reopenings plus one if the row is Closed; `closed_at` is set exactly on Closed rows. |
| `SessionAccounting.QuotaCountsConserved` | crates/relayterm-terminal/src/manager.rs:1675-1781 | Per-owner live counts sum to the deployment count; live and starting counts are disjoint and equal the counts by runtime status. |
| `SessionOutcomes.CreateOutcome` | crates/relayterm-terminal/src/manager.rs:620-677 | `create_session` succeeds if and only if the dimensions are valid, the identifier is unused and both calls succeed. |
| `SessionOutcomes.StartOutcome` | crates/relayterm-terminal/src/manager.rs:691-817 | `start_live_pty` succeeds if and only if the caller owns an open, registered session and the three calls succeed. |
| `SessionOutcomes.ResizeOutcome` | crates/relayterm-terminal/src/manager.rs:1527-1610 | `resize_session` succeeds if and only if the dimensions are valid, the caller owns an open session and both calls succeed. |
| `SessionWrites.CreateWrites` | crates/relayterm-terminal/src/manager.rs:620-677 | Which error `create_session` gives and, call by call, the row and event that land; dimensions are valid in 1..4096. |
| `SessionWrites.StartWrites` | crates/relayterm-terminal/src/manager.rs:691-817 | Which error each early return of `start_live_pty` gives; the row becomes Active exactly when the read and the status write succeed. |
| `SessionWrites.StartFailedWrites` | crates/relayterm-terminal/src/manager.rs:823-875 | `record_pty_start_failed` succeeds if and only if the caller owns a Closed row and the read succeeds, or an open one and the read and status write do; an open row is then Closed with the time given whatever the event does, and the event lands exactly when its call succeeds. |
| `SessionWrites.StartFailedEntry` | crates/relayterm-terminal/src/manager.rs:831-874 | The entry ends in any case and is removed exactly when the row is closed. |
| `SessionWrites.CloseAnswers` | crates/relayterm-terminal/src/manager.rs:887-964 | Which answer each path of `close_session` gives and, call by call, the row and event that land. |
| `SessionWrites.AttachWrites` | crates/relayterm-terminal/src/manager.rs:1012-1110 | `attach_session` succeeds if and only if the caller owns an open session, the identifier is unused and its calls succeed, including the status write in a detach window; which errors it gives and which rows and events land. |
| `SessionWrites.DetachSessionWrites` | crates/relayterm-terminal/src/manager.rs:1252-1319 | Which answer each path of `detach_session` gives; the attachment row is marked and the event logged exactly when their calls are reached and succeed. |
| `SessionWrites.DetachWrites` | crates/relayterm-terminal/src/manager.rs:1350-1393 | `detach_attachment` writes Detached exactly at a final detach of a live session whose six calls succeed, and nothing else beyond `detach_session`. |
| `SessionWrites.TeardownWrites` | crates/relayterm-terminal/src/manager.rs:1859-1889 | The forwarder's status write and event land independently, each exactly when its own call succeeds after a successful read of an open row. |
| `SessionWrites.ResizeAnswers` | crates/relayterm-terminal/src/manager.rs:1527-1610 | Which error each early return of `resize_session` gives. |
| `SessionManager.TerminalSessionManager.Create` | crates/relayterm-terminal/src/manager.rs:620-677 | Success: a new Starting row and a Starting entry. Failure: no entry is added, though the row may have been left behind. Attachments and timers stay. |
| `SessionManager.TerminalSessionManager.StartLive` | crates/relayterm-terminal/src/manager.rs:691-817 | Success: the row is Active with no `closed_at`, the entry is live with no close pending, and no timer for the session is left. Failure: entries and timers stay. |
| `SessionManager.TerminalSessionManager.RecordStartFailed` | crates/relayterm-terminal/src/manager.rs:823-875 | In any case the session has no live runtime and no timer. Success, exactly when the read and for an open row the status write succeed: an open row is Closed with the time given, its entry and attachments are gone, and the event is logged if its call succeeds. |
| `SessionManager.TerminalSessionManager.Close` | crates/relayterm-terminal/src/manager.rs:887-964 | Succeeds exactly for the owner when its one or four calls do. Success: the row is Closed, with no entry and no timer; if this call closed it, no attachments either. Failure: entries, attachments and timers stay. |
| `SessionManager.TerminalSessionManager.CancelPending` | crates/relayterm-terminal/src/manager.rs:1116-1134 | Clears a pending close, aborts its timer and reports whether there was one. |
| `SessionManager.TerminalSessionManager.Attach` | crates/relayterm-terminal/src/manager.rs:1012-1110 | Succeeds exactly for an open session of the caller, an unused identifier and three working calls, four in a detach window. Success: the attachment is registered, no close is pending and no timer left, the row is Active if a close was pending, and the answer says whether the PTY is live. Failure: nothing is registered. |
| `SessionManager.TerminalSessionManager.DetachRow` | crates/relayterm-terminal/src/manager.rs:1252-1319 | Success: the attachment is marked detached and unregistered. Failure: it stays registered. Rows, entries and timers stay in any case. |
| `SessionManager.TerminalSessionManager.Schedule` | crates/relayterm-terminal/src/manager.rs:1403-1471 | Marks the row Detached, tolerating failure, and installs a timer unless one is pending or no live runtime is bound. |
| `SessionManager.TerminalSessionManager.Detach` | crates/relayterm-terminal/src/manager.rs:1350-1393 | A reported deadline is the pending one of a session with no registered attachment; success without one changes no entry and no timer; failure changes no registry. |
| `SessionManager.TerminalSessionManager.ExpireDetachClose` | crates/relayterm-terminal/src/manager.rs:1479-1505 | Leaves the session closed without entry if the close's calls succeed, and otherwise its pending close unchanged with no timer. |
| `SessionManager.TerminalSessionManager.TearDown` | crates/relayterm-terminal/src/manager.rs:1859-1889 | Changes no registry; closes the owner's open row with the given time if and only if the read and the status write succeed. |
| `SessionManager.TerminalSessionManager.Resize` | crates/relayterm-terminal/src/manager.rs:1527-1610 | Changes no registry and no row; appends one event exactly on success. |
| `Throttle.LoginThrottler.Failure` | crates/relayterm-auth/src/throttle.rs:207-249 | The failure step: make room, refuse a new key when saturated (`RefusedIff` says exactly when), prune, push under the cap, block or extend. |
| `Throttle.LoginThrottler.Success` | crates/relayterm-auth/src/throttle.rs:254-257 | Forgets the key and nothing else. |
| `Throttle.LoginThrottler.Cleanup` | crates/relayterm-auth/src/throttle.rs:261-264 | Keeps exactly the entries with a live block or a live failure. |
| `Throttle.MemoryBounded` | crates/relayterm-auth/src/throttle.rs:25-32 | In every run the map holds at most 10,000 entries and each vector at most `max_failures + 1`. |
| `ThrottleTheorems.FewKeysNoneRefused` | crates/relayterm-auth/src/throttle.rs:51-230 | No failure is refused in a run whose failures name at most 10,000 different keys. |
| `ThrottleTheorems.RefusedIff` | crates/relayterm-auth/src/throttle.rs:218-230 | In every run a failure is refused if and only if its key has no live block or failure and 10,000 other keys have one. |
| `ThrottleTheorems.ExactForTenThousandKeys` | crates/relayterm-auth/src/throttle.rs:3-7 | With block >= window and at most 10,000 failing keys, for logins that do not overlap, a key is throttled if and only if the full failure history says so. |
| `ThrottleTheorems.EvictionInvisible` | crates/relayterm-auth/src/throttle.rs:144-152 | With nondecreasing time and no refused key, every `check` answers as a throttler that never evicts and has no capacity, for any window and block. |
| `ThrottleTheorems.BlockIsEarned` | crates/relayterm-auth/src/throttle.rs:3-7 | If `check` throttles, then since the key's last success `max_failures` real failures fell within one window, the last less than one block ago. |
| `ThrottleTheorems.BlockHolds` | crates/relayterm-auth/src/throttle.rs:240-248 | A block holds until its deadline through other keys, cleanups, saturation and further failures, unless that key succeeds. |
| `ThrottleTheorems.ThrottlerIsExactSlidingWindow` | crates/relayterm-auth/src/throttle.rs:3-7 | With block >= window, no refused key and failures recorded only after an allowed check, as logins that do not overlap do, a key is throttled if and only if the full failure history says so, and its live vector is the exact window. |
| `ThrottleTheorems.StaysExactIffRoom` | crates/relayterm-auth/src/throttle.rs:233-238 | Recording a failure keeps an exact window exact if and only if the capped vector has room. |
| `ThrottleTheorems.CapUndercounts` | crates/relayterm-auth/src/throttle.rs:236-238 | A run of five recorded failures of one key, in clock order and none refused, after which the key is allowed although the history says block; it breaks the discipline. |
| `ThrottleTheorems.RetryAfterCoversIff` | crates/relayterm-auth/src/throttle.rs:92-95 | The reported wait is positive and within a second of the remaining block, and covers it if and only if the remainder is at most one second or a whole number of seconds. |
| `Codec.EncodeFrame` | crates/relayterm-protocol/src/binary.rs:177-196 | Refuses exactly payloads over 1048576 bytes; otherwise the bytes are 52 54 42 31, the kind 1 or 2, three zeros, the seq in eight and the length in four bytes most significant first, and the payload. |
| `Codec.WireIsEnvelope` | crates/relayterm-protocol/src/binary.rs:177-196 | The wire image is that envelope, byte by byte. |
| `Codec.AcceptedIsEnvelope` | crates/relayterm-protocol/src/binary.rs:207-234 | Whatever the decoder accepts is that envelope around the frame it returns. |
| `Codec.FirstFailedCheck` | crates/relayterm-protocol/src/binary.rs:207-234 | A rejected buffer gets the error of the first check it fails, in the documented order, stated on its bytes. |
| `Codec.ToBeDigit` | crates/relayterm-protocol/src/binary.rs:190-193 | Byte i of an n-byte integer is its digit of weight 256^(n-1-i). |
| `Codec.DecodeOfWire` | crates/relayterm-protocol/src/binary.rs:207-234 | Decoding an encoded frame returns it, for every u64 seq and payload within the cap. |
| `Codec.WireOfDecode` | crates/relayterm-protocol/src/binary.rs:207-234 | Every accepted buffer re-encodes to the identical bytes. |
| `Codec.AcceptsExactlyWires` | crates/relayterm-protocol/src/binary.rs:207-234 | The decoder accepts exactly the encoder's range. |
| `Codec.ResizedWireRejected` | crates/relayterm-protocol/src/binary.rs:208-230 | Every proper cut and every extension of an encoded frame is rejected with the documented error. |
| `Codec.NonZeroReservedRejected` | crates/relayterm-protocol/src/binary.rs:215-220 | Any nonzero flags or reserved byte is rejected as such. |
| `Codec.FromToBe` | crates/relayterm-protocol/src/binary.rs:190-193 | Big-endian bytes of a value that fits decode to it. |
| `Codec.ToFromBe` | crates/relayterm-protocol/src/binary.rs:221-224 | Big-endian decoding loses nothing. |
| `Retention.RunSweep` | crates/relayterm-terminal/src/retention.rs:179-281 | For any repository behaviour the totals are over exactly the candidates before the first failed purge, and `batch_truncated` means a full listing with no error. |
| `Retention.PurgesExactlyVisited` | crates/relayterm-core/src/repository.rs:1099-1148 | After k purges the visited recordings are empty and every other one is untouched. |
| `Retention.OpenOrRecentKept` | crates/relayterm-core/src/repository.rs:1099-1137 | Whatever ids a sweep is given, a recording still open or closed later than now minus the retention period keeps every row. |
| `Retention.ExpiredPurged` | crates/relayterm-core/src/repository.rs:1099-1137 | An expired recording loses all rows exactly if the sweep visits it, and keeps its close time. |
| `Retention.BacklogIsExpired` | crates/relayterm-core/src/repository.rs:1150-1160 | The backlog is exactly the recordings closed at least the retention period ago that have a row. |
| `Retention.TotalAdds` | crates/relayterm-core/src/repository.rs:1108-1114 | The purged bytes of a recording are the sum of its chunk lengths. |
| `Retention.CountIsPurged` | crates/relayterm-terminal/src/retention.rs:225-240 | The purged-session total counts exactly the visited candidates whose purge deleted something. |
| `Retention.CleanSweepConserves` | crates/relayterm-core/src/repository.rs:1123-1125 | A clean sweep purges every candidate and its chunk, marker and byte totals are exactly what those sessions held. |
| `Retention.OneAuditRowEach` | crates/relayterm-core/src/repository.rs:1108-1122 | Each purge appends exactly one audit row with the counts it deleted. |
| `Retention.SweepShrinksBacklog` | crates/relayterm-core/src/repository.rs:1150-1184 | A clean sweep removes exactly its listing from the eligible set. |
| `Retention.DrainsInCeil` | crates/relayterm-terminal/src/retention.rs:86-94 | n eligible sessions are drained after exactly ceil(n / batch) clean sweeps at one instant and not before. |
| `Retention.UntruncatedMeansDrained` | crates/relayterm-terminal/src/retention.rs:86-94 | If anything is still eligible after a clean sweep, the sweep reported a full batch. |

## Left out

- Await-level interleaving inside one manager operation: each operation, teardown and expiry is one step, so the window between `start_live_pty` spawning its forwarder and writing Active is not explored.
- Real clocks, task scheduling, mutex poisoning and the 500 ms and 5 s deadlines: a timeout shows up only as an abort step or as frames stamped after `last_seq` was read.
- A timer that was aborted but had already woken: an aborted timer never fires in this model.
- SSH transports, the vault, password hashing and session tokens: foreign code or cryptographic primitives.
- Host-key classification, configuration checks, DTO and row conversions, error mapping, log lines and redaction: independent one-branch facts.
- JSON control messages, HTTP routes other than the socket's replay handshake, the quota-enforcing create route, the periodic retention worker and the Postgres implementations.
- `record_marker` payloads are an enumeration instead of JSON; a caller that forges a gap payload or a second `started` marker is excluded from the step system.
- The in-memory size hint and the `resized` recording marker of a resize, and the normalisation of login identifiers.
- `max_live_pty_per_user` and the other quota limits: only the counts are modelled, not their enforcement.
- RecordingIsStreamWithHoles: assumes the hard cap fits i32 and seqs fit i64, as the row columns do; `FlushLeavesTraceIff` says exactly what happens outside.
- ClosedBoundsRowsIff: assumes the last drained frame carries bytes, since a byteless one may leave no row.
- ShutdownCompleteIffNothingLeft: assumes every teed frame carries bytes; `UnaccountedIffLeftBehind` does not.
- ThrottlerIsExactSlidingWindow: logins that overlap can record a failure after a later check, with an earlier clock reading; `BlockIsEarned` and `BlockHolds` do not assume that every failure was allowed.
- TearDown: in the step system a teardown may happen for any session and owner at any time, which allows more runs than the source has.
- Push: assumes the retained frames and the new one fit the address space together, so the saturating byte counter never saturates.
- RunSweep: totals are unbounded naturals; i64 overflow of a sum is not modelled.
- Forward: stops before the u64 seq counter would wrap.
- EncodeFrame: the buffer is a sequence value rebuilt by each append; its capacity is not modelled.
