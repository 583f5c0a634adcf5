# Proofs about the cloud-gaming stack

A Dafny model of the state machines and byte-level loops of the signaling server
(`arcade-signal`), the emulator worker (`arcade-worker`), the portal (`arcade-portal`) and
the WebSocket smoke check (`deploy`). `dafny verify dfyconfig.toml` checks all of it.

- `JoinCodes`, `Pairing`, `PairingHistory`: six-character join codes, and the three maps that
  pair phone controllers with a host. Main results: allocation always ends with a free code,
  the seed mixer is a bijection, a join succeeds exactly when its code is live, and who is
  paired with whom follows from what happened.
- `Protocol`, `Registry`, `SignalServer`: peers connect, send and disconnect, each with a
  first-in first-out outbox. Main results: one room per game whatever the order in which
  the tables are walked, and a worker hears of a client before it gets that client's
  answers and candidates.
- `ServerHistory`, `Delivery`: the server's tables and every outbox, told from what happened
  alone. Main results: each outbox holds exactly what history puts there, so answers,
  candidates and offers arrive, in order and once each.
- `PairingLink`, `Relays`, `Departures`: the pairing results carried over to runs of the
  whole server, and what workers hear of browsers, up to when they leave.
- `SignalRouter`, `PlayerRoom`, `RoomThreads`, `CountLink`: signals that arrive before their
  session, player slots, and the player counts the server ends up with.
- `VideoQueue`, `H264`, `Pixels`, `Pacing`: the bounded video queue and its sender, the
  keyframe scanner, pixel conversion and scaling, pacing and timestamps.
- `Audio`, `AudioPacket`, `AudioPath`: re-chunking, the packet format on both sides, and
  the path from the emulator's samples to the browser's.
- `WebSocketCodec`, `WebSocketStream`: sections 5.2 and 5.3 of RFC 6455, printed and parsed,
  and streams of frames as any peer may send them.
- `SignalConnection`: the portal's reconnecting socket.
- `Wrappers`, `Arithmetic`, `Text`, `Bytes`, `Decimal`, `Subsequences`: shared vocabulary.

Code that updates state in place is a class whose methods are proved to do what a function
on values says; `View()` gives a class's state as such a value. What holds over whole runs
is proved about those functions, by induction on a sequence of events, and where it says
what an operation achieves it is stated on the events alone. A handler is one
atomic step, except that the video queue and the room's counts are also taken apart at
their locks. Time is a number of milliseconds (nanoseconds in `Pacing`), seeds are arbitrary
64-bit values, and loops over hash maps take their elements in any order.

Seven places where the code does less than one might expect, each with its exact condition:

- Cleaning up a peer that is a controller stops before the host tables, so a host that
  also joined another host's code stays registered (`Pairing.CleanupIsCompleteExactlyWhen`,
  `Pairing.HostThatJoinedElsewhereStaysRegistered`).
- A length-prefixed H.264 stream in which start-code bytes show up is answered by those
  alone. It is then read right exactly when a type 5 stands behind one of the start codes
  read just when some unit has type 5 (`H264.LengthPrefixedStreamsAreReadRightExactlyWhen`).
  Well-formed units show such bytes exactly when one is 256 to 511 bytes long, or a multiple
  of 2^24 and one, or a multiple of 2^16 beginning with 1, or a multiple of 256 beginning
  with 0 and 1 (`H264.WellFormedNalsAreReadRightExactlyWhen`). A 256-byte IDR unit may be
  missed (`H264.LengthThatLooksLikeAStartCode`), while a lone one-byte unit is read right
  (`H264.LengthThatLeadsToTheType`).
- The frame rate the level allows is rounded down, but never below one frame a second, so
  the interval is never above 1000 ms and keeps to level 3.1 exactly for frames of at most
  108000 macroblocks (`Pacing.LevelIntervalKeepsRate`, `Pacing.LevelIntervalIsLeast`).
- A packet's duration is cut to whole milliseconds and the rest is not carried over, so
  timestamps lag the clock unless every gap between packets is a whole number of
  milliseconds (`Pacing.TimestampsFollowTheClockExactlyWhen`, `Pacing.TimestampsMayDrift`).
- A thread that frees a slot counts and announces without the lock, so a count may be
  overtaken and the last one announced be wrong: exactly when it was no longer current when
  it was announced (`RoomThreads.LastCountIsRightExactlyWhen`,
  `RoomThreads.StaleCountMayStay`).
- A pop looks at the queue, then at whether it is closed, then waits. A close that falls
  between the last two is missed unless a push has left a permit, and the sender waits for
  ever (`VideoQueue.SenderIsLeftWaitingExactlyWhen`, `VideoQueue.CloseIsMissed`). What is pushed
  after the last look, by a push that found the queue open, is left behind
  (`VideoQueue.EndedSenderLeavesExactly`, `VideoQueue.SampleBehindTheLastLook`,
  `VideoQueue.SampleAfterTheEnd`).
- A browser that leaves is unknown afterwards only to the worker it is bound to and the one
  its controller route names, not to one it was bound to before
  (`Departures.LeftUntoldExactlyWhen`, `Relays.RebindingLeavesTheFirstUntold`).

## Model

| member | source | states |
|---|---|---|
| `JoinCodes.EncodeJoinCode` | arcade-signal/src/controllers.rs:260-268 | filling the array from the back gives the six base-32 digits of the seed, most significant first |
| `JoinCodes.CodesAgreeModuloCodeSpace` | arcade-signal/src/controllers.rs:260-268 | two seeds give the same code if and only if they agree modulo 32^6 |
| `JoinCodes.CodesAreAlphabetWords` | arcade-signal/src/controllers.rs:14-15 | codes are exactly the six-letter words over the alphabet, and a code decodes to its seed modulo 32^6 |
| `JoinCodes.ConsecutiveCodesDiffer` | arcade-signal/src/controllers.rs:216-223 | 32^6 consecutive seeds give different codes, also across the wrap at 2^64 |
| `JoinCodes.DistinctCodesFit` | arcade-signal/src/controllers.rs:216-223 | n consecutive seeds whose codes are all in use need at least n codes in use |
| `JoinCodes.CountUpToFreeCode` | arcade-signal/src/controllers.rs:216-223 | the open-ended loop ends after at most live + 1 probes, at the first free code |
| `JoinCodes.NextAvailableCode` | arcade-signal/src/controllers.rs:208-224 | below 32^6 live codes the result is unused: the first free one of 128 draws, or else the first free one counting up from a last draw |
| `JoinCodes.MixSeedIsABijection` | arcade-signal/src/controllers.rs:253-258 | the mixer and an explicit inverse undo each other on all 64-bit values |
| `Pairing.Controllers.PruneExpired` | arcade-signal/src/controllers.rs:187-206 | exactly the expired codes and their hosts' entries go, in any order; controller routes stay |
| `Pairing.Controllers.RefreshControllerRoutes` | arcade-signal/src/controllers.rs:178-185 | exactly the routes of the host get the new worker |
| `Pairing.Controllers.RegisterHost` | arcade-signal/src/controllers.rs:60-95 | a host keeps its live code, else gets an unused one; the whole new state; the fall-through for a stale entry is unreachable |
| `Pairing.Controllers.Join` | arcade-signal/src/controllers.rs:97-127 | the answer, and what each answer leaves behind |
| `Pairing.Controllers.WorkerForInput` | arcade-signal/src/controllers.rs:129-137 | answers a worker if and only if the controller's route names that host and that worker |
| `Pairing.Controllers.CleanupPeer` | arcade-signal/src/controllers.rs:139-174 | both paths: the whole new state and everything reported |
| `Pairing.RunsStayConsistent` | arcade-signal/src/controllers.rs:64-93 | in every reachable state the code and host maps undo each other, and every key is a join code |
| `Pairing.RoutesFollowLatestRegistration` | arcade-signal/src/controllers.rs:64-93 | live registrations and controller routes always name the worker of their host's latest registration, also after its code expired |
| `Pairing.LiveCodes` | arcade-signal/src/controllers.rs:187-206 | a code is live if and only if some registration returned it less than fifteen minutes ago and the host path of clean-up has not run for its host since; that host owns it |
| `Pairing.JoinSucceedsExactlyWhen` | arcade-signal/src/controllers.rs:97-127 | over every run, a join succeeds if and only if the normalized code was granted less than fifteen minutes ago and the host path of clean-up has not removed it since, and leads to that host and its latest worker |
| `Pairing.TypedCodeIsRecognized` | arcade-signal/src/controllers.rs:102-102 | a code typed in any letter case with white space around it is that code |
| `Pairing.CleanupIsCompleteExactlyWhen` | arcade-signal/src/controllers.rs:139-174 | clean-up leaves no mention of an id if and only if the id was not controller and host at once |
| `Pairing.HostThatJoinedElsewhereStaysRegistered` | arcade-signal/src/controllers.rs:142-148 | a run after which a cleaned-up host is still registered |
| `Pairing.OneTerminationPerRemovedRoute` | arcade-signal/src/controllers.rs:154-173 | the terminations listed are exactly the routes removed, each once, with the worker the route named |
| `PairingHistory.RoutedExactlyWhen` | arcade-signal/src/controllers.rs:60-174 | over every run, on its events: a controller has a route to a host if and only if its latest join that led anywhere led there, and since then neither it was cleaned up nor the host by the host path; registrations and expiry in between do not matter, and the route names the worker of the host's latest registration |
| `PairingHistory.OwnsExactlyWhen` | arcade-signal/src/controllers.rs:187-206 | what the history of a code says of its owner is what its grants say: some grant to that host within the time-to-live that still holds |
| `PairingHistory.TablesFollowHistory` | arcade-signal/src/controllers.rs:60-174 | over every run the host of each controller and of each live code is the one told from events alone |
| `VideoQueue.VideoSampleQueue.Push` | arcade-worker/src/room.rs:142-185 | the policy: an accepted sample is last; refused if and only if the queue is closed or a delta frame meets a full queue of one keyframe; nothing goes from a queue that is not full, everything for a keyframe from a full one, and for a delta frame exactly the oldest, or the second if a keyframe is in front; an accepted sample wakes the sender or leaves it a permit |
| `VideoQueue.VideoSampleQueue.TryPop` | arcade-worker/src/room.rs:187-194 | one look under the lock takes the front sample, if there is one |
| `VideoQueue.SenderTask.Turn` | arcade-worker/src/webrtc_session.rs:289-312 | one turn of the sender loop: skip until a keyframe, write, close on failure; after an empty look, end if the queue is closed, and else take a permit or wait |
| `VideoQueue.PushKeepsAKeyframe` | arcade-worker/src/room.rs:142-185 | no push leaves a queue that held a keyframe without one, capacity is kept, and drops account for the difference in length |
| `VideoQueue.PushKeepsPolicy` | arcade-worker/src/room.rs:142-185 | that policy, for the function the runs are about |
| `VideoQueue.ObsoleteSamplesAreNotWritten` | arcade-worker/src/room.rs:155-162 | over every run: once a keyframe has met a full queue, what is written from then on is a subsequence of that keyframe and what was pushed after it |
| `VideoQueue.NoSampleIsStranded` | arcade-worker/src/room.rs:180-202 | over every run: no sample waits in the queue for a sender that waits without a permit or a notice on its way |
| `VideoQueue.RunsKeepInvariant` | arcade-worker/src/room.rs:142-202 | over every run, with each look, wait and notice a step of its own, what is written and queued is a subsequence of what was pushed, and every sample is accounted for |
| `VideoQueue.RecordsPushes` | arcade-worker/src/room.rs:142-146 | the record of pushes is the pushes of the run, in order |
| `VideoQueue.TrackGetsAnOrderedKeyframeFirstSubsequence` | arcade-worker/src/webrtc_session.rs:289-308 | in every interleaving the track gets a subsequence of the pushed samples that begins with a keyframe; pushed = written + skipped + failed + dropped + queued |
| `VideoQueue.AtMostOneFailure` | arcade-worker/src/webrtc_session.rs:297-306 | at most one write ever fails |
| `VideoQueue.ClosedQueueDrainsExactlyWhen` | arcade-worker/src/room.rs:187-202 | for every sender of a closed queue, left to itself: what it writes, in order from the first keyframe on, and that it ends if and only if it is not waiting or about to wait without a permit; what it leaves is nothing if and only if nothing is queued or it is still to look |
| `VideoQueue.SkipsBeforeTheFirstKeyframe` | arcade-worker/src/webrtc_session.rs:291-296 | what is skipped of a backlog is exactly what comes before its first keyframe, if none has gone out |
| `VideoQueue.SenderIsLeftWaitingExactlyWhen` | arcade-worker/src/room.rs:187-202 | over every run in which each close has done its waking, the sender of a closed queue waits if and only if it looked at `closed` before the close, went to wait after it without a permit, and nothing woke it since |
| `VideoQueue.WaitingIsForEver` | arcade-worker/src/room.rs:137-140 | such a sender never ends, whatever follows but a second close or a push that read `closed` before the first |
| `VideoQueue.CloseIsMissed` | arcade-worker/src/room.rs:187-202 | a run that leaves the sender so: looks, close, waking, wait |
| `VideoQueue.OnlyClosingEnds` | arcade-worker/src/webrtc_session.rs:289-308 | a sender whose queue nobody closes ends only by a failed write |
| `VideoQueue.EndedSenderLeavesExactly` | arcade-worker/src/room.rs:142-202 | over every run without a failed write, an ended sender leaves exactly what the pushes since its last empty look make of an empty queue, and that is nothing if and only if none of them found the queue open |
| `VideoQueue.SampleAfterTheEnd` | arcade-worker/src/room.rs:142-149 | a run that leaves a sample pushed after the sender has ended |
| `VideoQueue.SampleBehindTheLastLook` | arcade-worker/src/room.rs:187-202 | a run that leaves a sample pushed between the sender's two looks |
| `H264.H264ContainsIdr` | arcade-worker/src/video_sender.rs:104-165 | the two loops answer what the recursive scanner answers |
| `H264.ScanFindsUnits` | arcade-worker/src/video_sender.rs:109-133 | the start-code loop finds every unit of a well-formed stream and reads its type, at any position |
| `H264.StartCodeStreamsAreReadRight` | arcade-worker/src/video_sender.rs:104-137 | on every stream of start codes and well-formed units the answer is true if and only if some unit has type 5 |
| `H264.LengthsFindNals` | arcade-worker/src/video_sender.rs:139-162 | the length-prefix loop reads the type of every non-empty unit |
| `H264.AnswerInBytes` | arcade-worker/src/video_sender.rs:104-165 | for all bytes: the answer is that of the start codes read if any start code shows up, and that of the lengths if none does; a start code is read unless it begins at the byte taken for the type behind another one read |
| `H264.LengthPrefixedStreamsAreReadRightExactlyWhen` | arcade-worker/src/video_sender.rs:104-165 | any length-prefixed stream is read right if and only if no start code shows up in it, or a type 5 stands behind one that is read just when some unit has type 5 |
| `H264.WellFormedNalsAreReadRightExactlyWhen` | arcade-worker/src/video_sender.rs:104-165 | for well-formed units, from their lengths and first three bytes: when start-code bytes show up, what the answer is, and when it is right |
| `H264.ScanPrefixed` | arcade-worker/src/video_sender.rs:109-137 | the start-code loop on a length-prefixed stream of well-formed units finds exactly the bytes those lengths lead it to |
| `H264.LengthThatLooksLikeAStartCode` | arcade-worker/src/video_sender.rs:109-137 | a 256-byte IDR unit behind its length prefix is missed |
| `H264.LengthThatLeadsToTheType` | arcade-worker/src/video_sender.rs:109-137 | a lone unit whose length is 1 modulo 2^24 reads as a start code in front of its own type, and is read right |
| `Pixels.FillRgbaBufferFromFrame` | arcade-worker/src/video_sender.rs:678-810 | succeeds if and only if dimensions, format and data length allow it, and then every pixel is the frame's, on the in-place and the row-copy path alike |
| `Pixels.ConvertInPlace` | arcade-worker/src/video_sender.rs:688-711 | swapping red and blue in place meets the same pixel-by-pixel description |
| `Pixels.ConvertRows` | arcade-worker/src/video_sender.rs:713-797 | succeeds if and only if the last row's bytes are there, and then converts every row |
| `Pixels.RgbaIsUnique` | arcade-worker/src/video_sender.rs:678-810 | two results meeting the description are the same bytes, so both paths agree |
| `Pixels.PackedFrameIsCovered` | arcade-worker/src/video_sender.rs:688-711 | on the in-place path the inner length check never fails |
| `Pixels.ChannelsRecoverByShifting` | arcade-worker/src/video_sender.rs:749-797 | 5- and 6-bit channels come back from their 8-bit form by shifting |
| `Pixels.LowBitsRepeatHighBits` | arcade-worker/src/video_sender.rs:749-797 | the low bits of an 8-bit channel repeat its high bits, so that none and all become 0 and 255 |
| `Pixels.PixelsAreLittleEndian` | arcade-worker/src/video_sender.rs:688-797 | 16-bit pixels have the lower byte first, and a 32-bit pixel is a little-endian word with red, green and blue from bit 23 down |
| `Pixels.Color565RecoversFields` | arcade-worker/src/video_sender.rs:740-769 | the channels of a converted 5-6-5 pixel give back its fields |
| `Pixels.Color1555RecoversFields` | arcade-worker/src/video_sender.rs:769-797 | the channels of a converted 5-5-5 pixel give back its fields |
| `Pixels.FieldsMakeTheWord` | arcade-worker/src/video_sender.rs:749-797 | the fields make up the whole 16-bit pixel, but for the unused bit of the 15-bit format |
| `Pixels.ScaleRgbaNearest` | arcade-worker/src/video_sender.rs:838-893 | succeeds if and only if sizes are non-zero, the source data suffices and the destination can be addressed; every destination pixel is its nearest source pixel |
| `Pixels.ScaleRow` | arcade-worker/src/video_sender.rs:866-889 | inside a row nothing saturates and no range check fails |
| `Pixels.NearestInRange` | arcade-worker/src/video_sender.rs:866-889 | the source coordinate sampled always exists |
| `Pixels.NearestIsMonotone` | arcade-worker/src/video_sender.rs:866-889 | sampling moves along the source in order, and equal sizes sample each coordinate itself |
| `Pixels.NearestExactlyWhen` | arcade-worker/src/video_sender.rs:866-889 | coordinate k is sampled for i if and only if k * dst <= i * src < (k + 1) * dst |
| `Pixels.WholeFactorsRepeatAndPick` | arcade-worker/src/video_sender.rs:866-889 | scaling up by a whole factor repeats each pixel that often, scaling down by one takes every so many |
| `Pixels.ScalingToSameSizeIsIdentity` | arcade-worker/src/video_sender.rs:838-893 | any scaled picture of the same size is the source picture |
| `Pacing.ManyStepsAtOnce` | arcade-worker/src/video_sender.rs:62-83 | n steps down or up in closed form, with the limits |
| `Pacing.NineStepsReachTheEnd` | arcade-worker/src/video_sender.rs:62-89 | nine steps always reach the worst or the best profile; between the two no fewer do |
| `Pacing.LevelIntervalKeepsRate` | arcade-worker/src/video_sender.rs:828-836 | frames that far apart keep the macroblock rate of level 3.1 if and only if a frame has at most 108000 macroblocks |
| `Pacing.LevelIntervalIsLeast` | arcade-worker/src/video_sender.rs:828-836 | the interval is the least of at least 16 ms that lets through no more whole frames a second than the level has macroblocks for; 1000 ms above 108000 macroblocks, 16 ms for an empty size |
| `Pacing.SentExactlyWhen` | arcade-worker/src/video_sender.rs:319-446 | a frame is sent if and only if it was encoded to a payload within the limit and both the profile's interval, after this frame's pressure, and the level's least interval have passed |
| `Pacing.WhatSendingImproves` | arcade-worker/src/video_sender.rs:430-472 | which packets make the profile better, and by how much: each small one by 4 ms, each 120th calm one by a step |
| `Pacing.WhatNotSendingWorsens` | arcade-worker/src/video_sender.rs:350-428 | a calm frame that is not sent leaves the profile alone if it came early or its failure is forgiven, and else makes it worse by a step |
| `Pacing.OnlyStartingOverZeroesTheTimestamp` | arcade-worker/src/video_sender.rs:273-317 | session events leave the pace alone: only starting over zeroes the timestamp and puts the profile back, a refresh keeps both; scaling given up stays given up if and only if session, encoder and source stay the same |
| `Pacing.PressureOnlyDegrades` | arcade-worker/src/video_sender.rs:322-334 | pressure never improves the profile, and leaves it as it is if and only if there is none or the profile is as far down as this kind of pressure takes it |
| `Pacing.CongestionLowersTheLimits` | arcade-worker/src/video_sender.rs:181-194 | in every run, four congested frames in a row since a frame found no session bring the size limits of the profile down to the smallest, whatever encoding gives and whichever sessions join |
| `Pacing.NoSessionLiftsTheLimits` | arcade-worker/src/video_sender.rs:185-188 | the first frame after one that found no session starts over, at most one step below the largest limits |
| `Pacing.FrameSenderState.HandleFrame` | arcade-worker/src/video_sender.rs:319-472 | whether a packet is sent, its timestamp and duration, and the whole new state |
| `Pacing.RunsStayPaced` | arcade-worker/src/video_sender.rs:319-472 | in every run the profile stays in range; packets are at least the level interval apart and last the whole milliseconds of the gap before them; each is stamped 90 times the milliseconds sent before it, modulo 2^32 |
| `Pacing.StampedThroughout` | arcade-worker/src/video_sender.rs:452-456 | the timestamp of any packet is 90 times the sum of the durations before it, modulo 2^32 |
| `Pacing.LevelIsKeptOverEveryWindow` | arcade-worker/src/video_sender.rs:350-356 | over any stretch of consecutive packets the macroblock rate of level 3.1 is kept |
| `Pacing.DurationsAndLossFillTheGaps` | arcade-worker/src/video_sender.rs:358-362 | the time between packets is their durations and what cutting each gap to whole milliseconds lost |
| `Pacing.LostIsBounded` | arcade-worker/src/video_sender.rs:358-362 | less than a millisecond is lost for each packet, and nothing if and only if every gap is a whole number of milliseconds |
| `Pacing.TimestampsLagTheClock` | arcade-worker/src/video_sender.rs:358-367 | between any two packets timestamps advance by 90 ticks for each millisecond of their durations, never ahead of the clock and behind it by what was lost |
| `Pacing.TimestampsFollowTheClockExactlyWhen` | arcade-worker/src/video_sender.rs:358-367 | timestamps follow the clock if and only if what was lost is whole turns of the timestamp; up to 47 million packets, if and only if every gap is a whole number of milliseconds |
| `Pacing.TimestampsMayDrift` | arcade-worker/src/video_sender.rs:358-367 | for any n, a run of n frames 16.9 ms apart that are all sent and carry 16 ms each; from the first to the last, timestamps follow the clock if and only if n - 1 is a multiple of 2^32 |
| `WebSocketCodec.EncodeTextFrame` | deploy/ws-smoke-check.py:39-56 | header, shortest length form, mask and masked payload |
| `WebSocketCodec.MaskingTwiceRestores` | deploy/ws-smoke-check.py:53-55 | masking is its own inverse |
| `WebSocketCodec.ParseAfterEncode` | deploy/ws-smoke-check.py:59-97 | parsing an encoded frame followed by anything gives opcode 1, the payload and exactly what followed |
| `WebSocketCodec.PartialFrameWaits` | deploy/ws-smoke-check.py:59-97 | any strict prefix of an encoded frame gives no frame and leaves the buffer as it is |
| `WebSocketCodec.PrefixParsesExactlyWhen` | deploy/ws-smoke-check.py:59-97 | for any buffer with a frame, masked or not, a prefix parses if and only if it reaches that frame's end |
| `WebSocketCodec.FrameIsStable` | deploy/ws-smoke-check.py:59-97 | bytes that arrive later change neither the frame nor what precedes them |
| `WebSocketCodec.DrainInTwoSteps` | deploy/ws-smoke-check.py:115-119 | draining early and again later gives what draining once gives |
| `WebSocketCodec.CutsDoNotMatter` | deploy/ws-smoke-check.py:106-119 | for every way of cutting a byte stream into chunks the same frames and leftover come out |
| `WebSocketCodec.StreamRoundTrip` | deploy/ws-smoke-check.py:39-136 | encoded frames broken off inside one more, cut anyhow, deliver exactly the complete payloads |
| `WebSocketCodec.HandleAppends` | deploy/ws-smoke-check.py:121-136 | messages of a list of frames are those of its parts, up to the first close frame |
| `WebSocketStream.ParseAnyFrame` | deploy/ws-smoke-check.py:59-97 | for any first byte, payload and trailing bytes, in each of the three length forms, masked or not: parsing gives exactly the opcode, the payload and what followed |
| `WebSocketStream.PartOfAnyFrameWaits` | deploy/ws-smoke-check.py:59-97 | any strict prefix of such a frame gives nothing and stays in the buffer |
| `WebSocketStream.TextFramesAreFrames` | deploy/ws-smoke-check.py:39-56 | what the encoder sends is such a frame, in the shortest form |
| `WebSocketStream.MaskingIsBitwise` | deploy/ws-smoke-check.py:53-55 | byte i of the payload changes in exactly the bits of mask byte i modulo 4 |
| `WebSocketStream.AnyStreamRoundTrip` | deploy/ws-smoke-check.py:100-119 | a stream of such frames broken off inside one more, cut anyhow, gives exactly the complete frames |
| `WebSocketStream.LoopReceivesTexts` | deploy/ws-smoke-check.py:100-138 | on any such stream the receive loop returns the payloads of the text frames before the first close, all of them unless it has as many as it was asked for |
| `WebSocketCodec.DrainBuffer` | deploy/ws-smoke-check.py:116-136 | the inner loop ends, and collects the messages of every complete frame up to a close |
| `WebSocketCodec.RecvMessages` | deploy/ws-smoke-check.py:100-138 | the loop stops at the first chunk that meets the limit, a close or the end, with the messages of everything read until then |
| `Registry.SameGameExactlyWhen` | arcade-signal/src/registry.rs:200-207 | two names are one game if and only if they have the same words, whatever their letter case and spacing; normalizing twice is normalizing once; only blank names normalize to nothing |
| `Registry.ChooseKeepsFirst` | arcade-signal/src/registry.rs:155-172 | visiting one more worker keeps the choice of the least order and id under each name |
| `Registry.ChosenAreFirst` | arcade-signal/src/registry.rs:147-183 | once all are visited, in any order, the workers chosen are exactly the first of their games |
| `Registry.OneRoomPerGame` | arcade-signal/src/registry.rs:147-183 | every non-empty name is represented by exactly one worker, that of least registration order and id |
| `Registry.Registry.GamesPayload` | arcade-signal/src/registry.rs:147-183 | the folds give that room list whatever the order of iteration |
| `Registry.Registry.UnregisterWorker` | arcade-signal/src/registry.rs:64-88 | all of a worker's entries go, with every binding to it and its clients' senders; who is to be closed |
| `Registry.RegisteringKeepsConsistent` | arcade-signal/src/registry.rs:49-55 | a new worker's place in line differs from all others below saturation |
| `Registry.UnregisteringKeepsConsistent` | arcade-signal/src/registry.rs:57-88 | after a worker or client is gone, games, counts and bindings are only held for registered workers |
| `ServerHistory.TablesFollowHistory` | arcade-signal/src/registry.rs:44-145 | over every run, who is connected, each binding, each worker's game and its place in line are what the events make them |
| `ServerHistory.ListedExactlyWhen` | arcade-signal/src/registry.rs:147-183 | over every run a worker is in the room list if and only if it has named a game and, with one room for each game, no other worker with that game connected before it or, at the same place, has a smaller id |
| `SignalServer.AppState.HandleBrowserMessage` | arcade-signal/src/ws.rs:146-274 | every browser command: bindings, pairing and each outbox after it |
| `SignalServer.AppState.HandleWorkerMessage` | arcade-signal/src/ws.rs:276-306 | every worker command: tables and each outbox after it |
| `SignalServer.AppState.CleanupBrowser` | arcade-signal/src/ws.rs:456-485 | who is told of a browser that left, in which order |
| `SignalServer.AppState.CleanupWorker` | arcade-signal/src/ws.rs:487-495 | its clients are closed and everybody left gets the new room list |
| `SignalServer.RunsKeepInvariant` | arcade-signal/src/ws.rs:409-495 | over every run games, counts and bindings are only held for registered workers with distinct orders, and in a worker's outbox every answer or candidate comes after an initwebrtc or joinRoom for the same client |
| `SignalServer.MessagesAreStampedBySender` | arcade-signal/src/ws.rs:146-274 | whatever a browser's message adds to a worker's outbox carries that browser's own id |
| `SignalServer.OnlyBrowsersSendAnswers` | arcade-signal/src/ws.rs:276-495 | no other event adds an answer or a candidate to a worker's outbox |
| `Delivery.StepIsHeard` | arcade-signal/src/ws.rs:146-485 | what each event adds to the outbox of each worker, and that a worker that is not connected gets nothing |
| `Delivery.StepIsTold` | arcade-signal/src/ws.rs:146-495 | the same for the outbox of each browser |
| `Delivery.BoundSignalsArrive` | arcade-signal/src/ws.rs:158-175 | an answer, candidate or input from a browser bound to the connected worker it names becomes exactly one more message in that worker's outbox, under the browser's id, and nothing else changes |
| `Delivery.WorkersHear` | arcade-signal/src/ws.rs:146-485 | over every run the outbox of every worker is exactly what the events alone say it has heard: set-ups, relays, controllers' joins and inputs, and terminations, these in the order in which clean-up lists them |
| `Delivery.BrowsersAreTold` | arcade-signal/src/ws.rs:146-495 | over every run the outbox of every browser is exactly what the events alone say it has been told: offers, counts, codes, joins, rejections, sounds, departures, the order to close, and room lists, which are those of `ServerHistory.ListedExactlyWhen` |
| `Delivery.AnswersArrive` | arcade-signal/src/ws.rs:158-175 | over every run the answers and candidates in a worker's outbox are exactly those that browsers sent to it while bound to it, in order and once each |
| `Delivery.OffersArrive` | arcade-signal/src/ws.rs:289-296 | over every run the offers and candidates in a browser's outbox are exactly those that workers sent to it while it was there, in order and once each |
| `Delivery.LeavingReports` | arcade-signal/src/controllers.rs:139-174 | what clean-up lists, by history: the leaver's host, or each browser paired with it once, with the worker of the host's latest registration |
| `Relays.AnswersAreStampedAndIntroduced` | arcade-signal/src/ws.rs:146-175 | over every run, each answer or candidate in a worker's outbox is one some browser sent in that run, unchanged and stamped with that browser's own id, after an initwebrtc or joinRoom for that id |
| `Relays.LeavingIsToldExactlyWhen` | arcade-signal/src/ws.rs:456-485 | what a browser's leaving does: a worker still there goes on knowing of it if and only if it did before and the browser was neither bound to it nor routed to it as a controller |
| `Departures.LeftUntoldExactlyWhen` | arcade-signal/src/ws.rs:146-485 | over every run that ends with a browser leaving: a worker still there goes on knowing of it if and only if some event told it of the browser, none since that it is gone, and a later event lost the browser's tie to it for good without telling it: the browser bound to another worker or joined another host, its host registered with another worker, or the worker had left and come back |
| `Relays.RebindingLeavesTheFirstUntold` | arcade-signal/src/ws.rs:158-166 | a run after which a worker is never told that a browser left, since that browser had set up a session with another worker later |
| `PairingLink.ServerRunsArePairingRuns` | arcade-signal/src/ws.rs:205-240 | over every run of the whole server its pairing tables are those of a pairing run, so everything proved of pairing runs holds at the server |
| `PairingLink.CodesLetControllersIn` | arcade-signal/src/ws.rs:223-240 | a controller's code gets it in if and only if it was granted less than fifteen minutes ago to a host whose host path of clean-up has not run since; then it is told of the host and the worker of the host's latest registration of it; otherwise the answer is always that the code is invalid |
| `PairingLink.InputFollowsTheHost` | arcade-signal/src/ws.rs:241-256 | a paired controller's input goes to the worker its host registered with last, other input to nobody |
| `SignalRouter.Router.Enqueue` | arcade-worker/src/signal_router.rs:21-37 | eviction at 512 clients and overflow at 32 messages |
| `SignalRouter.Router.ReplayPendingSignals` | arcade-worker/src/signal_router.rs:119-134 | everything waiting is applied once, oldest first |
| `SignalRouter.Router.HandleMessage` | arcade-worker/src/signal_router.rs:72-184 | the whole new state after any message, and the invariant |
| `SignalRouter.RunsKeepInvariant` | arcade-worker/src/signal_router.rs:20-49 | at every handler boundary the bounds hold and a client with a session has nothing waiting |
| `SignalRouter.StepCutsAndAppends` | arcade-worker/src/signal_router.rs:80-184 | one event cuts a counted stretch from the front of a client's queue and appends what arrives |
| `SignalRouter.SignalsKeepOrderAndAreAccountedFor` | arcade-worker/src/signal_router.rs:80-184 | per client, what is applied and waits is a duplicate-free subsequence of what arrived, and nothing else is lost than by overflow, eviction or a terminate |
| `SignalRouter.AppliedOnlyWithASession` | arcade-worker/src/signal_router.rs:119-184 | an event applies signals only of a client that has a session after it, and only the signal it brings or those waiting for the session it sets up |
| `SignalRouter.AppliedWhileInSession` | arcade-worker/src/signal_router.rs:80-184 | over every run, each signal in the order of application was put there by one such event, with a session for its client |
| `SignalRouter.SessionsFollowHistory` | arcade-worker/src/signal_router.rs:80-117 | over every run a client has a session if and only if one was set up and neither terminated nor ended since |
| `SignalRouter.SignalsGetThrough` | arcade-worker/src/signal_router.rs:21-184 | in every run with signals for at most 512 clients and at most 32 for this one, without a terminate for it: once it has a session, exactly its signals were applied, each once and in order, whether they came before the session or after |
| `PlayerRoom.PlayerSlots.AssignClient` | arcade-worker/src/room_state.rs:24-36 | the client's own slot, or the lowest free one, or none |
| `PlayerRoom.PlayerSlots.ReleaseClient` | arcade-worker/src/room_state.rs:38-44 | frees the client's slot and says whether there was one |
| `PlayerRoom.PlayerSlots.Count` | arcade-worker/src/room_state.rs:46-48 | the number of occupied slots |
| `PlayerRoom.Room.AssignPlayerSlot` | arcade-worker/src/room.rs:358-380 | the slot given, if any; the count is announced for a new slot and when the room is full, and not for a slot already held |
| `PlayerRoom.Room.UnregisterClientSession` | arcade-worker/src/room.rs:382-416 | session and slot go together, with one announcement if a slot was freed |
| `PlayerRoom.Room.ReleaseInputSource` | arcade-worker/src/room.rs:418-439 | a controller without a session frees its slot |
| `PlayerRoom.RunsKeepInvariant` | arcade-worker/src/room.rs:358-439 | in every run of room operations one at a time, nobody has two slots, and the last count announced is the number of occupied slots |
| `PlayerRoom.AssignAndReleaseCount` | arcade-worker/src/room_state.rs:24-48 | a new client gets the lowest free slot, and counts change by exactly one |
| `PlayerRoom.HeldSlotsDoNotMove` | arcade-worker/src/room_state.rs:24-44 | through any events that do not release it a client keeps its slot |
| `PlayerRoom.SlotsFollowHistory` | arcade-worker/src/room.rs:358-439 | over every run those with a slot are exactly those who joined while fewer than eight sat there and were neither released nor, with a session, unregistered since |
| `PlayerRoom.DrainedLinkAgrees` | arcade-worker/src/room.rs:521-527 | once all announcements arrived, printed and parsed, the stored count is the room's |
| `RoomThreads.LastCountIsRightExactlyWhen` | arcade-worker/src/room.rs:358-439 | over every interleaving of threads that leaves nothing to count or announce, with the lock let go between freeing a slot, counting and announcing: the last count announced is right if and only if it was current when it was announced, as one announced on taking a slot always is |
| `RoomThreads.RunsOwe` | arcade-worker/src/room.rs:382-439 | each slot freed since the last announcement has still to be counted or announced, and with none freed the slots are those of that announcement |
| `RoomThreads.StaleCountMayStay` | arcade-worker/src/room.rs:418-439 | an interleaving after which nothing is left to announce and the last count announced is 0 with one slot occupied |
| `CountLink.ServerHoldsLastAnnounced` | arcade-signal/src/ws.rs:297-303 | whatever else happens, the server holds the last readable count the worker sent since it connected |
| `CountLink.ServerCountEqualsRoomCount` | arcade-signal/src/protocol.rs:231-239 | once the link is drained, the server's count is the number of occupied slots |
| `Audio.AudioSender.HandleFrame` | arcade-worker/src/audio_sender.rs:15-45 | empty and odd frames are refused; else the payloads are the bytes of the chunks cut off |
| `Audio.RequiredLastsTwentyMilliseconds` | arcade-worker/src/audio_sender.rs:11-32 | a chunk has the fewest stereo pairs that last 20 ms |
| `Audio.BytesDecode` | arcade-worker/src/audio_sender.rs:15-45 | the little-endian bytes decode to the samples |
| `Audio.BytesAt` | arcade-worker/src/audio_sender.rs:34-44 | the two bytes of each sample are its two's complement, the low byte first |
| `Audio.AudioIsConserved` | arcade-worker/src/audio_sender.rs:15-45 | over every run, chunks followed by pending samples are the accepted frames, and every chunk is a whole number of stereo pairs |
| `Audio.FramesCutTheirOwnChunks` | arcade-worker/src/audio_sender.rs:26-45 | over every run, the chunks that each frame cuts off last exactly 20 ms, rounded up, at that very frame's rate |
| `Audio.ChannelsAreNeverSwapped` | arcade-worker/src/audio_sender.rs:15-45 | left stays left and right stays right, across chunk borders |
| `AudioPacket.ParseGameAudioPacket` | arcade-portal/src/hooks/webrtc/gameAudioPacket.js:24-72 | the loop over fields reads what the fold over fields reads, and other packets go to the legacy reader |
| `AudioPacket.PacketRoundTrip` | arcade-worker/src/room.rs:586-602 | parsing a printed packet gives the rate, two channels and the payload; for a zero rate the reader's fallback |
| `AudioPacket.PrintedForm` | arcade-worker/src/room.rs:586-602 | what a packet looks like |
| `AudioPacket.LegacyRoundTrip` | arcade-portal/src/hooks/webrtc/gameAudioPacket.js:3-22 | a packet of the older form gives the rate, or else the reader's fallback, two channels and the payload |
| `AudioPath.ChunkIsHeard` | arcade-portal/src/hooks/webrtc/gameAudioPacket.js:24-72 | a chunk printed, parsed and decoded is the chunk |
| `AudioPath.PrintedPacketsCarryTheAcceptedStream` | arcade-worker/src/room.rs:586-602 | over every run, the samples of all packets printed followed by those pending are the samples accepted |
| `AudioPath.SessionsHearTheChunksSentToThem` | arcade-worker/src/room.rs:586-617 | whichever packets a session is sent, its browser hears exactly the chunks in them, whole and in order |
| `SignalConnection.ConnectionManager.HandleClose` | arcade-portal/src/store/signalConnection.js:102-145 | when a closed socket is followed by a timer, of which delay |
| `SignalConnection.ConnectionManager.HandleReconnectTimer` | arcade-portal/src/store/signalConnection.js:138-144 | the timer opens the next socket of the chain or gives up |
| `SignalConnection.ConnectionManager.HandleConnectTimeout` | arcade-portal/src/store/signalConnection.js:208-224 | only the current socket, and only while connecting, is closed |
| `SignalConnection.ConnectionManager.RecoverOnForeground` | arcade-portal/src/store/signalConnection.js:235-262 | refreshes an open socket, leaves one under way, else opens one |
| `SignalConnection.ConnectionManager.Close` | arcade-portal/src/store/signalConnection.js:285-314 | timers, listeners and the socket go |
| `SignalConnection.StepKeepsInvariant` | arcade-portal/src/store/signalConnection.js:69-262 | every event keeps what the results below rest on |
| `SignalConnection.OneSocketAtATime` | arcade-portal/src/store/signalConnection.js:69-145 | in every run at most one socket is not closed, a pending timer means the current one is, and delays lie in 1000..5000 ms |
| `SignalConnection.NothingOpensAfterClose` | arcade-portal/src/store/signalConnection.js:284-315 | after the application closes, no event opens a socket or sets a timer |
| `SignalConnection.ClosedForGood` | arcade-portal/src/store/signalConnection.js:284-315 | over runs: from the moment the application closes on every socket is closed or closing, and there are no new sockets and no timers |
| `SignalConnection.NeverIdle` | arcade-portal/src/store/signalConnection.js:69-282 | in every reachable state that may connect there is a pending timer or a socket not closed |
| `SignalConnection.ForegroundNeverLeavesIdle` | arcade-portal/src/store/signalConnection.js:235-282 | after a foreground event that may connect there is a socket not closed or a timer |
| `SignalConnection.LossSchedulesReconnect` | arcade-portal/src/store/signalConnection.js:102-145 | a loss while the page may connect sets exactly one timer, of the delay for its attempt |
| `SignalConnection.DelaysNeverShrinkAlongAChain` | arcade-portal/src/store/signalConnection.js:123-144 | along a chain of timer reconnects delays never shrink |
| `SignalConnection.DelaysDoubleAlongAChain` | arcade-portal/src/store/signalConnection.js:123-144 | each chain of timer reconnects starts with 1000 ms, and every delay is twice the one before it, up to 5000 ms |
| `SignalConnection.SocketsAreWatched` | arcade-portal/src/store/signalConnection.js:81-145 | in every run, while a socket is listened to, its connect timeout runs until it opens or closes and its heartbeat while it is open |
| `SignalConnection.OpensExactlyWhen` | arcade-portal/src/store/signalConnection.js:138-262 | a socket is opened if and only if the page may connect and the timer fires, or it comes back to find neither a timer nor a socket that is not closed |
| `SignalConnection.WaitsExactlyWhen` | arcade-portal/src/store/signalConnection.js:102-145 | a timer runs after an event if and only if a socket just closed while the page may connect, or it ran before and neither fired nor was cleared |
| `SignalConnection.ClosesExactlyWhen` | arcade-portal/src/store/signalConnection.js:38-315 | a live socket starts to close if and only if the browser, its connect timeout or the application closes it, or a request for the games list fails |

## Left out

- Text outside ASCII: trimming, letter case and white space are modelled for ASCII only (join codes, game names, targets, payloads).
- JSON and base64 text and the canonicalization of payloads: a payload is an opaque string, and base64 is any encoding without `|` that decodes; the JSON around a join code is left off.
- Numbers beyond 2^53 in the browser's packet reader: `parseInt` is modelled as exact.
- Error values of the message parsers: the server only logs them, so they are one value.
- Requests that interleave between the await points of one handler: each handler is one atomic step.
- A session that cannot be registered: the sender task spawned for it (webrtc_session.rs:289) goes on when `create_session` returns its error (webrtc_session.rs:315-317), and nobody closes its queue, so it waits for ever (`OnlyClosingEnds`). `SignalRouter` knows such a session only as one that was not created.
- Threads in the worker's room beyond those two places: `PlayerRoom` takes `release_input_source` and `unregister_client_session` as single steps, though they drop the slots lock before counting and sending (room.rs:397-413, 423-435; `RoomThreads` takes them apart), and the class `VideoSampleQueue` takes `push` as one, though it reads `closed` before the buffer lock (room.rs:144-149; the runs of `VideoQueue` allow for that, and take the notices of pushes and closes apart from them).
- The two clock readings inside a registration, taken as one instant.
- The snapshot of games and counts a browser gets on connecting, and the HTTP snapshot.
- Origin and token checks, ping and pong, the socket writer task, and the WebSocket handshake.
- Ping replies in the smoke check, JSON decoding of its messages, and its clock: a timeout is the end of the chunks.
- Reading random bytes and the clock for a seed: `next_join_code_seed` is any 64-bit value.
- The encoder itself, intra-frame refresh, the empty-encode streak and bitrate: what encoding a frame comes to is an input.
- `scale_dimensions`: floating point; any size may come out of it.
- Whether the size a frame is encoded at is the size it is paced at: the level result is about the paced size, and the code does not promise more.
- Integrity of chains of delta frames: a full queue drops the frame after a leading keyframe whatever it is.
- Peer connections, applying answers and candidates, and session set-up beyond whether it succeeds: a failed application of a signal is not told from a successful one.
- Buffered controller inputs (`PendingInputs`), the player index kept in a session, and the counters of `VideoControl`.
- Which packets of audio a session is sent: none are without a session, and some are dropped while its channel is closed or holds 128 KiB. Any choice of packets may be sent, and the result about the whole accepted stream is about packets printed.
- Audio sample rates as floating point: the frame length is the exact ceiling for whole rates.
- Memory limits of vectors other than the sizes named.
