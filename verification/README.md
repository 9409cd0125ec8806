# Verified models of the image server, the voice bridge and their neighbours

This project models the parts of the repository where the hard state lives, and proves what
they are meant to keep. `dafny verify dfyconfig.toml` checks all of it.

Each piece comes in up to two layers. A specification layer holds values: states, actions, a `Step`
function and runs of steps, or a function from inputs to outputs. Where the source updates
objects in place, an imperative layer holds a class with the source's fields, whose methods are
proved to be exactly those steps or functions. The theorems are about the specification layer, over
every run or every input, and so hold of the objects.

- **GPU admission** (`GpuProtocol.dfy` and `GpuMoves.dfy` for the machine, `GpuInvariant.dfy`, `GpuSafety.dfy`,
  `GpuProgress.dfy`, `GpuReloads.dfy` and `GpuAdmission.dfy` for what it keeps and does, `ImageServer.dfy`
  for the object).
  Requests, reloads, soft and hard unloads and idle ticks share one asyncio lock, an in-flight
  counter, a lazily loaded pipeline and a switchable model. One action is one stretch of code between
  two awaits, or one stretch of a GPU thread. A cancel can hit any task at any await, any number of
  times. Awaiting a thread has two program points: the shielded await, and the wait in the loop behind a
  cancel, which may end for any reason and is followed by the loop's own test. Any waiting task may
  take a free lock.
- **Text-box area** (`TextBoxUnion.dfy`). The coordinate-compression sweep against the set of unit
  cells that some box covers.
- **OCR gate** (`OcrGate.dfy`). Render, score and re-roll, the kept attempt, the four-state
  verdict, the files left on disk; renders, scans and unlinks may fail.
- **Watchdog** (`Watchdog.dfy`). The backoff of the self-heal loop over timed runs of polls. A poll
  of a degraded server is a run of the admission protocol around one reload, and its outcome is
  read off that run.
- **Speech path** (`SpeechText.dfy`, `SpeechChunks.dfy`, `VoicePath.dfy`, `SpokenWords.dfy`,
  `SpeechPump.dfy`, `VoiceBridge.dfy`).
  Greedy sentence packing; the append/drain file with its offset; the bounded queue, its pump and
  disconnects, in any interleaving.
- **Bridge handshake** (`BridgeHandshake.dfy`). The launcher polls `.status` and `.lock` while the
  worker moves between its looks, crashes anywhere, and writes files character by character.
- **Token cache** (`TokenCache.dfy`, `OAuthClient.dfy`). Any number of callers, double-checked
  locking, expiry with a skew, cancellations, and one retry after a 401 (client credentials grant,
  section 4.4 of RFC 6749; `exp`, section 4.1.4 of RFC 7519). The MCP client and
  `scripts/_oauth_helper.py:263-350` are two copies of the same protocol.
- **Voice segmentation** (`VoiceSegments.dfy`, `VoiceSink.dfy`). The byte-level sink refines a
  machine that knows frame numbers only.
- **Dashboards** (`DashboardMerge.dfy`) and **README counts** (`ReadmeClaims.dfy`, with the
  decimal printing in `Decimal.dfy`). `Basics.dfy` and `Options.dfy` are shared.

## Where the code does less than it says

Each of these is a theorem with an exact condition, or a concrete run.

- A server can end up healthy, idle and without a model; the watchdog leaves it alone
  until a request's load has failed. One reload reads the setting as gone and starts its swap; a
  second reads the old model back and marks the server healthy; the first then clears the
  configuration (`GpuReloads.HealthyWithoutAModel`). A server is safe from this, short of another
  heal, if and only if it is degraded whenever it has no model or a clearing reload is still going to
  go through (`GpuReloads.HonestIsExact`), and a step breaks that if and only if it marks the
  server healthy while such a reload is pending (`GpuReloads.HonestStep`).
- `mcp-server-voice/livekit_bridge.py:1057-1059` calls the second chunking a pass-through. It
  is one for a chunk if and only if the chunk fits the drain's cap or is a single sentence
  (`SpeechChunks.RechunkIsIdentity`); a speak with a larger cap is split again
  (`SpeechChunks.RechunkCanSplit`).
- `_merge` promises that nothing overlaps. A panel without a grid position is drawn 12 by 8 but
  counted as nothing, so it covers part of the next section's header
  (`DashboardMerge.UnplacedPanelCoversNextHeader`). Sections stay apart if and only if every
  source but the last fits its counted height (`DashboardMerge.NoOverlapAcrossSections`), which
  means full positions throughout or eight counted rows (`DashboardMerge.FitsExactly`).
- The voice sink's size limit is checked on speech frames only. Thirty seconds of speech and one
  silent frame exceed it under any clock (`VoiceSegments.OneSilentFrameTooMany`). It is exceeded if
  and only if the speech behind the last segment began more than 1000 frames ago
  (`VoiceSegments.OverTheLimit`), that is, if speech and a silence still within 1.5 s are together
  longer (`VoiceSegments.OverTheLimitInSilence`). The excess is at most the silence, and is attained
  (`VoiceSegments.BufferBound`, `VoiceSegments.BoundIsAttained`): at most 51 frames when
  frames come no faster than they are spoken (`VoiceSegments.LiveBufferBound`).
- `shield_escape` does not escape the dash its own comment calls a field separator. A claim's
  badge text holds one if and only if the count is negative (`ReadmeClaims.BadgeSeparator`).
- One file is left per image if and only if the other attempts' unlinks work, and none per rejection
  if and only if all do (`OcrGate.OneFilePerImage`, `OcrGate.NoFilePerRejection`); the files
  left otherwise are named exactly (`OcrGate.OutputDir.Generate`).

## Model

| member | source | states |
|---|---|---|
| `GpuSafety.PinnedOverRuns` | scripts/image-gen-server.py:1039-1056 | over any run, with any number of cancels and wake-ups at either wait of `_run_on_gpu`, a task stays at its program point with its lock and its thread for as long as the thread runs |
| `GpuSafety.LeavesAfterItsThread` | scripts/image-gen-server.py:1030-1056 | in every reachable state, a step takes a task away from awaiting a thread only once that thread has ended |
| `GpuSafety.CancelsAreFree` | scripts/image-gen-server.py:1042-1047 | in every reachable state every task can be cancelled, and a wait in the drain loop can end whether or not the thread has |
| `GpuSafety.OneGpuThread` | scripts/image-gen-server.py:1024-1056 | in every reachable state a running GPU thread is the only thread, and the lock belongs to the live task that started it, cancelled or not |
| `GpuSafety.LockOutlivesThreads` | scripts/image-gen-server.py:1030-1056 | the lock is given up only when the thread started under it has ended, and it goes to nobody with no thread left |
| `GpuSafety.WeightsMatchConfig` | scripts/image-gen-server.py:893-907 | loaded weights are always the configured model's, and every render in progress uses those weights with that model's call convention |
| `GpuSafety.InflightIsExact` | scripts/image-gen-server.py:1311-1328 | the counter is the number of requests entered and not left; whoever has a load or render thread, cancelled or not, is among them |
| `GpuSafety.RequestsStayRequests` | scripts/image-gen-server.py:1311-1328 | no step turns a counted request into something uncounted or back, and a cancelled task in the drain loop does nothing but stay or leave |
| `GpuMoves.TaskMoves` | scripts/image-gen-server.py:842-1814 | every step of every task follows an edge of the source's control flow, and a task in the drain loop takes none |
| `GpuSafety.ExitLosesNothing` | scripts/image-gen-server.py:1733-1806 | the process exits itself only with no request in it and no thread on the card |
| `GpuSafety.NoDropUnderARequest` | scripts/image-gen-server.py:1070-1095 | loaded weights only ever change to none, and then no request is past its wait for the lock and before its last score |
| `GpuSafety.UnloadsStartQuiet` | scripts/image-gen-server.py:1730-1738 | a soft, hard or idle unload starts only when no request is in the server, and only a hard one starts with nothing loaded |
| `GpuSafety.LoadRendersOrDegrades` | scripts/image-gen-server.py:1345-1351 | a load that ended well starts a render on the configured weights; one that raised leaves the server degraded, the lock free and the request gone |
| `GpuAdmission.DegradedTakesNobody` | scripts/image-gen-server.py:1495-1500 | in every reachable state no step of a degraded server adds a request |
| `GpuAdmission.ArrivalIsCounted` | scripts/image-gen-server.py:1321-1328 | a degraded server turns an arriving request away with counter, tasks and threads as they were; a healthy one queues and counts exactly that request |
| `GpuAdmission.UnloadIsDeclinedAtOnce` | scripts/image-gen-server.py:1726-1731 | an unload that finds a request in the server is declined without waiting for the lock, and waits for it otherwise |
| `GpuAdmission.IdlePassNeedsQuiet` | scripts/image-gen-server.py:1070-1090 | an idle pass goes for the lock only without requests, with something loaded, after the timeout |
| `GpuAdmission.TheLockStartsAThread` | scripts/image-gen-server.py:1507-1508 | whoever wins the lock starts its one thread (a request its load), unless it is an unload or idle pass whose second look says no; then it is gone and the lock free |
| `GpuAdmission.FailureComesFromTheCard` | scripts/image-gen-server.py:1010-1041 | a thread ends in failure exactly when its GPU call failed or a load found no configuration |
| `GpuAdmission.RequestIsServed` | scripts/image-gen-server.py:1311-1328 | over any run, an uncancelled request whose GPU calls return, with a model configured, stays in the server until it is answered, whatever the others do |
| `GpuAdmission.GoodRender` | scripts/image-gen-server.py:1430-1464 | a render that returns goes on to its score under the lock if the gate is on, and frees the lock for the answer if not |
| `GpuAdmission.FailedRender` | scripts/image-gen-server.py:1431-1455 | a failed first render ends the request, a failed re-roll keeps it; the lock is free either way |
| `GpuAdmission.RerollsExactly` | scripts/image-gen-server.py:1410-1490 | another render starts if and only if a scan was read, found too much and a re-roll is left, and it uses one up |
| `GpuAdmission.CancelReaches` | scripts/image-gen-server.py:1039-1056 | a cancelled task is gone, uncounted and without the lock, unless its thread runs; then only its wait changes |
| `GpuAdmission.UnloadEnds` | scripts/image-gen-server.py:1808-1814 | a soft or idle unload, or a hard one that raised, leaves with the lock free and nothing loaded |
| `GpuAdmission.HardUnloadKeepsTheLock` | scripts/image-gen-server.py:1739-1749 | a hard unload reads its floor still holding the lock |
| `GpuAdmission.FloorDecides` | scripts/image-gen-server.py:1753-1805 | with the floor known the process exits if and only if it pays and no request is in the server; otherwise the lock is free |
| `GpuInvariant.StepKeepsInv` | scripts/image-gen-server.py:842-1096 | every stretch of code of every task and thread keeps the protocol invariant |
| `GpuInvariant.RunKeepsInv` | scripts/image-gen-server.py:842-1096 | the invariant holds after every legal run |
| `GpuInvariant.AcquireKeepsInv` | scripts/image-gen-server.py:1733-1737 | entering the lock's block, with the second look at the counter, keeps the invariant whoever wins the lock |
| `GpuInvariant.WorkKeepsInv` | scripts/image-gen-server.py:992-1021 | every stretch of a load, render or unload thread keeps the invariant |
| `GpuInvariant.ResumeKeepsInv` | scripts/image-gen-server.py:1039-1041 | the shielded await's return or raise keeps the invariant for every caller of `_run_on_gpu` |
| `GpuInvariant.CancelKeepsInv` | scripts/image-gen-server.py:1042-1056 | a cancel at any await keeps the invariant, a repeated one in the drain loop too |
| `GpuInvariant.DrainKeepsInv` | scripts/image-gen-server.py:1043-1056 | the loop's test keeps the invariant: the lock stays with a running thread and goes with an ended one |
| `GpuProgress.OwnMoveIsCloser` | scripts/image-gen-server.py:1410-1508 | every move of the lock's holder, whatever the GPU, the scorer or the database answers, brings it strictly nearer to giving the lock back, the attempt budget included |
| `GpuProgress.OthersDoNotHinder` | scripts/image-gen-server.py:1502-1508 | no other action, a cancel of the holder included, takes it further away |
| `GpuProgress.HolderCanMove` | scripts/image-gen-server.py:1502-1508 | in every reachable state a holder has a move that brings it nearer |
| `GpuProgress.HolderIsBounded` | scripts/image-gen-server.py:1410-1508 | over any run in which a task keeps the lock it makes at most a stated number of moves, four per attempt left |
| `GpuReloads.HonestIsExact` | scripts/image-gen-server.py:842-907 | a reachable state is honest if and only if no run from it without a heal ends healthy and without a model |
| `GpuReloads.HonestStep` | scripts/image-gen-server.py:842-907 | a step keeps honesty (degraded whenever there is no model or a reload will still clear it) if and only if it does not heal while a clearing reload is pending |
| `GpuReloads.DisciplinedRunIsHonest` | scripts/image-gen-server.py:842-907 | a run in which no step heals over a pending clearing reload ends in an honest state |
| `GpuReloads.HealthyWithoutAModel` | scripts/image-gen-server.py:862-890 | a legal run of two reloads that ends healthy, idle and without a configuration |
| `GpuReloads.OutageKeepsModel` | scripts/image-gen-server.py:856-884 | over any run whose reads fail or name the configured model, with requests, unloads, idle ticks, failing loads and cancels in any order, the configuration stays, the weights are none or that model's, no reload touches the card, and a last read leaves the server degraded exactly if it failed |
| `GpuReloads.BadSettingDegrades` | scripts/image-gen-server.py:866-880 | a setting that is gone, or names no known model, degrades the server at once and has the reload clear the model |
| `GpuReloads.ClearingIsProgress` | scripts/image-gen-server.py:866-907 | across any step of anybody, a clearing reload stays one, or ends with no configuration and nothing loaded |
| `GpuReloads.OnlyUnloadsDropWeights` | scripts/image-gen-server.py:843-854 | while no reload swaps, loaded weights go only by an unload that was asked for or an idle one |
| `GpuReloads.GoodStepIsProgress` | scripts/image-gen-server.py:856-890 | across any step of anybody, a reload that read a known model stays on its way, or ends with the server healthy on a known model |
| `ImageServer.ServerState.EnterGenerate` | scripts/image-gen-server.py:1321-1328 | admitted if and only if healthy; then one more request is counted and waits, and otherwise counter and tasks are as they were |
| `ImageServer.ServerState.DecideReload` | scripts/image-gen-server.py:856-889 | goes on to swap exactly on a missing, unknown or different model, with that target; degraded after it exactly on a failed read, a bad setting, or a swap of a degraded server |
| `ImageServer.ServerState.TakeLock` | scripts/image-gen-server.py:1091-1095 | inside if and only if the second look lets it; then it owns the lock and the one new thread, and otherwise has left with the lock free |
| `ImageServer.ServerState.FindPipeline` | scripts/image-gen-server.py:1015-1016 | what it finds loaded is the configured model |
| `ImageServer.ServerState.CheckConfig` | scripts/image-gen-server.py:1017-1018 | the load goes on exactly when a model is configured, and raises otherwise |
| `ImageServer.ServerState.PickConfig` | scripts/image-gen-server.py:1019 | the model handed to the build is the configured one and nothing is loaded, though read after the checks |
| `ImageServer.ServerState.StorePipeline` | scripts/image-gen-server.py:1019-1021 | the weights stored are still the configured model's when the long load returns |
| `ImageServer.ServerState.UnloadPipeline` | scripts/image-gen-server.py:992-1007 | the weights are gone, whether or not the rest of the unload raises |
| `ImageServer.ServerState.FinishSwap` | scripts/image-gen-server.py:904-907 | the configuration changes together with the empty pipeline, and not at all when the unload raised; the server is healed exactly by a swap to a model |
| `ImageServer.ServerState.TestWork` | scripts/image-gen-server.py:1042-1056 | one test of the loop behind a cancel: the lock, the counter and the task go only if the work is done, and nothing but the wait changes if not |
| `ImageServer.ServerState.FinishHardUnload` | scripts/image-gen-server.py:1783-1805 | exits exactly when there is something to reclaim and no request in the server |
| `ImageServer.ServerState.LeaveGenerate` | scripts/image-gen-server.py:1322-1328 | exactly this request stops counting |
| `TextBoxUnion.TextBoxUnionArea` | scripts/image-gen-server.py:349-398 | the sweep returns the number of unit cells of the frame that at least one box covers, for every list of boxes, malformed ones included |
| `TextBoxUnion.UsableRects` | scripts/image-gen-server.py:366-378 | the rectangles kept cover exactly the frame cells the boxes cover, and lie in the frame |
| `TextBoxUnion.Clip` | scripts/image-gen-server.py:375-378 | a clipped rectangle has exactly the box's cells inside the frame, and there is none exactly when there are no such cells |
| `TextBoxUnion.SweepSlabs` | scripts/image-gen-server.py:381-398 | the slab sum is the number of covered cells between the outermost edges |
| `TextBoxUnion.MergedLength` | scripts/image-gen-server.py:385-396 | merging sorted spans gives the size of the set of rows they cover together |
| `TextBoxUnion.SlabIsUniform` | scripts/image-gen-server.py:383-384 | between neighbouring edges every column is covered in the same rows, those of the slab's spans |
| `TextBoxUnion.OrderDoesNotMatter` | scripts/image-gen-server.py:357-361 | permuting the boxes does not change the covered cells |
| `TextBoxUnion.UnionIsMonotone` | scripts/image-gen-server.py:357-361 | more boxes never cover less |
| `TextBoxUnion.UnionAtMostSum` | scripts/image-gen-server.py:357-359 | the union is at most the sum of the clipped areas |
| `TextBoxUnion.UnionAtMostFrame` | scripts/image-gen-server.py:357-359 | the union is at most width times height |
| `OcrGate.ParseConfig` | scripts/image-gen-server.py:489-530 | whatever the rows hold, the budget is at least one, the threshold not negative and the confidence in 0 to 1 |
| `OcrGate.BadSettingIsAbsent` | scripts/image-gen-server.py:489-530 | a numeric row that does not parse, or any empty row, acts as if it were absent and touches no other field |
| `OcrGate.PickBest` | scripts/image-gen-server.py:284-300 | no attempt is better than the one chosen, and it is better than every earlier one; scored beats unscored |
| `OcrGate.CountIsSumOfConfident` | scripts/image-gen-server.py:315-330 | summing while filtering is the scan endpoint's filtering and then summing |
| `OcrGate.EveryDetectionCounts` | scripts/image-gen-server.py:315-330 | each detection counts in full from the threshold on, and not at all below it |
| `OcrGate.NoSettingsAreDefaults` | scripts/image-gen-server.py:489-530 | with no rows the gate is the default one |
| `OcrGate.GoodSettingsCount` | scripts/image-gen-server.py:489-530 | a row that parses into its range is taken as it is, for each of the six settings |
| `OcrGate.OutputDir.RenderAttempts` | scripts/image-gen-server.py:1345-1492 | the attempts are the first renders up to the budget, each but the last saved, read and over the threshold; the last is within it, unread, unmeasured, out of budget or followed by a failed render; their files and no others are added; nothing is added when there is no image |
| `OcrGate.OutputDir.DropOthers` | scripts/image-gen-server.py:1511-1514 | exactly the other attempts' files whose unlink works are removed |
| `OcrGate.OutputDir.Generate` | scripts/image-gen-server.py:1495-1585 | status, `passed` and blocking are stated on the kept image's own scan: unavailable exactly if the gate is on and it was not read, passed exactly if off or read within the threshold, blocked exactly if it must be; no attempt was read with less text, earlier ones with more; the files left are named exactly |
| `OcrGate.ResolveIsTrue` | scripts/image-gen-server.py:463-486 | each of the four verdicts holds exactly of the images it describes, and rejection is exactly what enforcement asks |
| `OcrGate.NothingBlockedUnenforced` | scripts/image-gen-server.py:475-486 | without enforcement nothing is blocked |
| `OcrGate.NothingStuck` | scripts/image-gen-server.py:1511-1514 | no file is stuck if and only if the unlinks of all attempts but the kept one work |
| `OcrGate.OneFilePerImage` | scripts/image-gen-server.py:1511-1516 | an image adds its own file, and exactly one file if and only if those unlinks work |
| `OcrGate.NoFilePerRejection` | scripts/image-gen-server.py:1545-1554 | a rejection adds no file if and only if every attempt's unlink works |
| `OcrGate.UnscoredNeverDisplaces` | scripts/image-gen-server.py:287-300 | an unscored attempt is kept only when it is the only attempt |
| `OcrGate.EnforcedImagesAreClean` | scripts/image-gen-server.py:463-486 | under enforcement an image is let through if and only if it is within the threshold, or unscorable with fail-closed off, and then it was the only attempt |
| `OcrGate.PassIsLast` | scripts/image-gen-server.py:1485-1490 | an attempt within the threshold is the last one and the one kept |
| `Watchdog.DelayShape` | scripts/image-gen-server.py:1159-1188 | delays are positive, capped at 60, never shrink while degraded, reach the cap exactly from the fifth on, and the first retry is no later than the idle beat |
| `Watchdog.CounterIsTheStreak` | scripts/image-gen-server.py:1191-1217 | the attempt counter is the number of polls since the last one that left the server healthy |
| `Watchdog.GoodPollHeals` | scripts/image-gen-server.py:1196-1217 | in every interleaving, a poll whose reload reads a known model, whose unload returns and whom nobody cancels ends with the server healthy, on a known model if it was degraded |
| `Watchdog.HealsWithinAMinute` | scripts/image-gen-server.py:1196-1217 | once settings are good for good, a poll starts within 60 seconds of that moment or of the end of the poll then running; it and every later poll end with the server healthy, at the idle beat |
| `Watchdog.OutageIsPolledSparingly` | scripts/image-gen-server.py:1174-1188 | n failed polls in a row take at least 60 n - 165 seconds |
| `Watchdog.OutageSleepIs` | scripts/image-gen-server.py:1174-1188 | closed form of the time slept over an outage's first n polls |
| `SpeechText.NormaliseIsJoinedWords` | mcp-server-voice/livekit_bridge.py:222-227 | strip and collapse give the words of the text joined by single spaces |
| `SpeechText.NormaliseIsNormal` | mcp-server-voice/livekit_bridge.py:222-227 | the result has single inner spaces and no other whitespace |
| `SpeechText.NormaliseNormal` | mcp-server-voice/livekit_bridge.py:222-227 | normalising again changes nothing |
| `SpeechText.SplitWrittenLines` | mcp-server-voice/livekit_bridge.py:1060-1062 | splitting what was written line by line gives the lines back |
| `SpeechChunks.SplitThenJoin` | mcp-server-voice/livekit_bridge.py:196-229 | a normal text splits into sentences that all but the last end in an ender, and they join back to it |
| `SpeechChunks.JoinThenSplit` | mcp-server-voice/livekit_bridge.py:196-229 | joined sentences split into the same sentences |
| `SpeechChunks.ChunkTextForTts` | mcp-server-voice/livekit_bridge.py:199-244 | the loop, with its strips and empty checks, computes greedy packing of the text's sentences |
| `SpeechChunks.ChunkingIsLossless` | mcp-server-voice/livekit_bridge.py:202-219 | chunks joined by one space are the text's words joined by one space, for every text and cap |
| `SpeechChunks.ChunkShape` | mcp-server-voice/livekit_bridge.py:209-214 | every chunk is non-empty, normal, without a line break, and within the cap unless it is one sentence |
| `SpeechChunks.ChunkingIsShortest` | mcp-server-voice/livekit_bridge.py:232-243 | no order-preserving grouping of the sentences under that rule has fewer chunks |
| `SpeechChunks.RechunkIsIdentity` | mcp-server-voice/livekit_bridge.py:1057-1059 | chunking a chunk again leaves it whole if and only if it fits the new cap or is one sentence; always when the new cap is no smaller |
| `SpeechChunks.RechunkCanSplit` | mcp-server-voice/livekit_bridge.py:1057-1059 | a text chunked whole under cap 5 is split under cap 4 |
| `SpeechChunks.EndersSplit` | mcp-server-voice/livekit_bridge.py:196 | a full stop, exclamation or question mark ends a sentence, and no other character does |
| `VoicePath.StepKeeps` | mcp-server-voice/livekit_bridge.py:471-513 | every append, drain, pump move, connect and disconnect keeps both invariants, and the offset never falls |
| `VoicePath.LinesAreOfferedOnce` | mcp-server-voice/livekit_bridge.py:471-513 | over every run, the chunks offered are those of the drained lines, each once and in order, and one more drain offers those of all lines |
| `VoicePath.AcceptedChunksAreConserved` | mcp-server-voice/audio_plane_pipecat.py:451-602 | over every run, accepted chunks are in order the finished, the one in the pump and the queued; the queue holds at most 64; the counter is the number accepted; all are finished once the queue is gone |
| `VoicePath.RefusedOnlyWhenOffOrFull` | mcp-server-voice/audio_plane_pipecat.py:504-523 | after every run, a chunk with text is refused if and only if the plane is not connected or 64 texts are queued |
| `VoicePath.OfferedTakesIn` | mcp-server-voice/audio_plane_pipecat.py:513-516 | a chunk with text that is not refused is taken in last, and nothing else changes place |
| `VoicePath.BlankIsTakenForNothing` | mcp-server-voice/audio_plane_pipecat.py:511-512 | a blank chunk is accepted by a connected plane, full or not, and queued by none |
| `SpeechPump.PumpEmptiesTheQueue` | mcp-server-voice/audio_plane_pipecat.py:568-602 | while connected, the pump left alone hands on everything in hand and queued, in order, and ends idle with everything accepted finished |
| `SpeechPump.FatesAreTrue` | mcp-server-voice/audio_plane_pipecat.py:575-602 | over any run, the chunks counted as handed on are exactly those whose hand-over returned, and as failed those whose hand-over raised, in order |
| `SpeechPump.SentinelStopsThePump` | mcp-server-voice/audio_plane_pipecat.py:457-463 | after a disconnect with room for its sentinel, the pump left alone hands on everything, meets it and stops |
| `SpeechPump.NothingAcceptedWhileOff` | mcp-server-voice/audio_plane_pipecat.py:504-510 | from a disconnect's first step until a connect, over any run, no chunk is accepted |
| `SpeechPump.DisconnectFinishesEverything` | mcp-server-voice/audio_plane_pipecat.py:451-502 | a disconnect can always go through; it leaves no queue and nothing accepted unfinished, and a connect then starts afresh |
| `SpokenWords.SpokenChunksPassThrough` | mcp-server-voice/livekit_bridge.py:1036-1063 | if every speak's cap is within the drain's, what is offered is exactly the lines written |
| `SpokenWords.ChunkWords` | mcp-server-voice/livekit_bridge.py:199-244 | the chunks' words are the text's words, in order, for every text and cap |
| `SpokenWords.WrittenIsSaid` | mcp-server-voice/livekit_bridge.py:1051-1063 | over any run, what is written is in order the appended lines and each spoken text's chunks under its own cap |
| `SpokenWords.EveryWordIsOffered` | mcp-server-voice/livekit_bridge.py:471-513 | over any run and a last drain, the offered chunks joined by spaces are the words of all that was said, joined by spaces |
| `VoicePath.StripThenChunk` | mcp-server-voice/livekit_bridge.py:498-504 | chunking a stripped line is chunking the line, and a blank line has no chunks |
| `VoiceBridge.PipecatPlane.Speak` | mcp-server-voice/audio_plane_pipecat.py:504-523 | refused when disconnected or full, taken without effect when blank, else queued last |
| `VoiceBridge.PipecatPlane.PumpTake` | mcp-server-voice/audio_plane_pipecat.py:568-574 | takes the head of the queue; the sentinel stops the pump |
| `VoiceBridge.PipecatPlane.PumpEnd` | mcp-server-voice/audio_plane_pipecat.py:575-602 | the chunk in hand is recorded once as handed on or failed, and the pump goes on |
| `VoiceBridge.PipecatPlane.DisconnectBegin` | mcp-server-voice/audio_plane_pipecat.py:453-465 | flag down, sentinel only if there is room, the pump still where it was |
| `VoiceBridge.PipecatPlane.PumpStops` | mcp-server-voice/audio_plane_pipecat.py:593-594 | the cancel ends the pump; the chunk in hand is discarded once |
| `VoiceBridge.PipecatPlane.DisconnectEnd` | mcp-server-voice/audio_plane_pipecat.py:493-498 | everything queued is discarded once with the queue |
| `VoiceBridge.BridgeState.SpeakInto` | mcp-server-voice/livekit_bridge.py:1036-1063 | appends lines whose words are the text's, each within the cap in force or one sentence, and returns their number |
| `VoiceBridge.BridgeState.OfferChunk` | mcp-server-voice/livekit_bridge.py:505-513 | counts the chunk exactly when the plane takes it |
| `VoiceBridge.BridgeState.DrainOutPipe` | mcp-server-voice/livekit_bridge.py:471-513 | the loops offer every unread line's chunks in order and move the offset to the end |
| `BridgeHandshake.MoveKeeps` | mcp-server-voice/livekit_bridge.py:529-597 | through crashes, failing and half-done writes, the status begins a message this run came to and the lock is this worker's pid or gone |
| `BridgeHandshake.StatusIsHonest` | mcp-server-voice/livekit_bridge.py:892-917 | a status that reads as ready or as an error was written by this run's worker at that point |
| `BridgeHandshake.LockIsHonest` | mcp-server-voice/livekit_bridge.py:797-808 | after ready the lock reads as this worker's pid or as nothing |
| `BridgeHandshake.ServingLockReads` | mcp-server-voice/livekit_bridge.py:900-903 | while the worker serves, the lock reads as its pid |
| `BridgeHandshake.UndisturbedLaunchSucceeds` | mcp-server-voice/livekit_bridge.py:529-562 | from any leftover lock, a worker nothing disturbs comes to serve, and a look with both files readable returns its pid |
| `BridgeHandshake.WorkerReportsFailure` | mcp-server-voice/livekit_bridge.py:544-559 | a worker whose connect raises, if let finish, leaves an error the launcher reads as one, no lock, and is dead |
| `BridgeHandshake.WorkerLeavesNothing` | mcp-server-voice/livekit_bridge.py:581-597 | a worker told to leave, if let finish, takes both its files away |
| `BridgeHandshake.Poll` | mcp-server-voice/livekit_bridge.py:892-940 | undecided if and only if no ready, no error and no dead worker was seen and time is left; a ready worker that is up is returned by pid, an error by its text, a dead worker as exited, and a timeout only when there was nothing to see |
| `BridgeHandshake.PollUntilReady` | mcp-server-voice/livekit_bridge.py:890-942 | from any leftover lock: no round before the last showed ready, an error or a dead worker, the last one's verdict is the answer, a pid is returned only if this worker wrote it and reached ready, and rounds are bounded by the timeout |
| `TokenCache.OneMintInFlight` | mcp-server/oauth_client.py:273-278 | over every run of any number of callers at most one mint is in flight |
| `TokenCache.MintsAreBounded` | mcp-server/oauth_client.py:260-278 | mints begun are at most one plus invalidations, expiries and unsuccessful mints, and begun is succeeded plus unsuccessful plus the one in flight |
| `TokenCache.RetryUsesANewMint` | mcp-server/oauth_client.py:335-345 | at most two downstream calls per request, the second with a later mint than the one refused, whatever other callers do |
| `TokenCache.RetryIsMade` | mcp-server/oauth_client.py:335-345 | in every reachable state, a first 401 with the retry enabled drops the cache and waits for a token other than the refused one; any other response ends the request and leaves the cache |
| `TokenCache.ArrivalUsesOrWaits` | mcp-server/oauth_client.py:260-271 | without credentials nothing happens; otherwise a live token is used at once, and the caller waits if there is none |
| `TokenCache.LockUsesOrMints` | mcp-server/oauth_client.py:273-277 | under the lock a token live by then is used and the lock freed, and otherwise a mint begins |
| `TokenCache.MintIsCachedAndUsed` | mcp-server/oauth_client.py:277-278 | a mint that succeeds is cached for all, used by its caller and frees the lock |
| `TokenCache.FailureFreesTheLock` | mcp-server/oauth_client.py:290-304 | a failed mint or a cancelled caller leaves the cache as it was and never keeps the lock |
| `TokenCache.CachedTokensAreLive` | mcp-server/oauth_client.py:268-276 | a token handed out from the cache is more than the skew away from its own expiry |
| `TokenCache.LiveMeansUnexpired` | mcp-server/oauth_client.py:306-310 | a cached token is used if and only if it is more than the skew before its expiry, or before the default lifetime from its mint |
| `TokenCache.StepKeepsInv` | mcp-server/oauth_client.py:256-345 | every step of every caller, tick, invalidation and cancel keeps the invariant |
| `TokenCache.RunKeepsInv` | scripts/_oauth_helper.py:263-350 | the invariant holds after every legal run, of the second client too |
| `OAuthClient.TokenClient.TryCached` | mcp-server/oauth_client.py:268-271 | a live cached token is returned without the lock, else the caller waits |
| `OAuthClient.TokenClient.LookAgain` | mcp-server/oauth_client.py:273-277 | a hit if and only if something live is cached by then; otherwise the lock is kept and one mint begun |
| `OAuthClient.TokenClient.StoreMint` | mcp-server/oauth_client.py:306-316 | the token is cached with its expiry, live whenever that is beyond the skew, given to the caller, and the lock is free |
| `OAuthClient.TokenClient.InvalidateCache` | mcp-server/oauth_client.py:256-258 | the invalidation step: nothing is cached after it |
| `OAuthClient.TokenClient.AfterResponse` | mcp-server/oauth_client.py:335-345 | retries if and only if it was a 401, the retry is enabled and one call was sent; then nothing is cached and the refused mint is remembered; otherwise the cache is untouched |
| `VoiceSegments.RunMirrorsGather` | scripts/discord-voice-bot.py:581-630 | for all streams and answers, the byte machine's buffer and emissions are the audio of the frame machine's |
| `VoiceSegments.MirrorFrame` | scripts/discord-voice-bot.py:594-630 | one frame keeps that correspondence in every branch |
| `VoiceSegments.GatherIsOk` | scripts/discord-voice-bot.py:605-630 | segments are non-empty, in order and disjoint, all before what is still gathered |
| `VoiceSegments.SegmentsAreOk` | scripts/discord-voice-bot.py:605-618 | each segment starts with speech and exceeds 1000 frames only by its last frame or by silence |
| `VoiceSegments.SilenceEndsSegments` | scripts/discord-voice-bot.py:612-618 | with a clock that never reads zero, a segment that ends in silence ends at the first frame more than 1.5 s after the silence behind its last speech began |
| `VoiceSegments.BufferIffActive` | scripts/discord-voice-bot.py:605-618 | between frames there is buffered audio if and only if speech is active, in whole frames, within the limit after a speech frame |
| `VoiceSegments.FramesAreEmittedOnce` | scripts/discord-voice-bot.py:620-624 | no frame is in two segments, nor in a segment and the buffer |
| `VoiceSegments.OneSilentFrameTooMany` | scripts/discord-voice-bot.py:605-618 | 1000 speech frames and one silent frame leave the buffer a frame above the limit, whatever the clock reads |
| `VoiceSegments.SilenceHasNoLimit` | scripts/discord-voice-bot.py:612-618 | up to 1000 frames of speech, and any number of silent frames within 1.5 s after it, are all still buffered |
| `VoiceSegments.OverTheLimit` | scripts/discord-voice-bot.py:610-618 | the buffer exceeds the limit if and only if speech after the last segment began more than 1000 frames ago |
| `VoiceSegments.OverTheLimitInSilence` | scripts/discord-voice-bot.py:610-618 | the same, with a clock that never reads zero: if and only if that speech, of at most 1000 frames, and a silence still within 1.5 s are together longer than the limit |
| `VoiceSegments.BufferBound` | scripts/discord-voice-bot.py:610-618 | the buffer is at most the limit and the silence running now; with a clock that never reads zero, all of that silence is within 1.5 s of its start |
| `VoiceSegments.BoundIsAttained` | scripts/discord-voice-bot.py:610-618 | after full speech, silence within 1.5 s fills that bound to the byte |
| `VoiceSegments.LiveBufferBound` | scripts/discord-voice-bot.py:610-618 | when the clock never reads zero and gains 30 ms a frame, at most 51 frames are ever buffered above the limit |
| `VoiceSegments.HandedIffOverHalfASecond` | scripts/discord-voice-bot.py:512-515 | audio is handed over if and only if it lasts more than half a second, and the duration guard then lets it pass |
| `VoiceSegments.LongSegmentsAreHanded` | scripts/discord-voice-bot.py:620-630 | what is handed over is the audio of exactly the segments of 17 frames or more, whole and in order |
| `VoiceSegments.OneVadFrame` | scripts/discord-voice-bot.py:496-501 | a 5760-byte frame gives one 960-byte detector frame, every third left sample in order |
| `VoiceSegments.Constants` | scripts/discord-voice-bot.py:152-157 | the byte sizes are those of the source's durations, and the limit is 1000 frames |
| `VoiceSink.VadSink.Write` | scripts/discord-voice-bot.py:581-618 | the user's state is the segmentation of all bytes sent so far, the residue is below a frame, other users are untouched |
| `VoiceSink.VadSink.Reframe` | scripts/discord-voice-bot.py:591-596 | the loop takes every whole frame and nothing more |
| `VoiceSink.VadSink.TakeFrame` | scripts/discord-voice-bot.py:595-618 | one turn of the loop is one frame of the segmentation |
| `VoiceSink.VadSink.Cleanup` | scripts/discord-voice-bot.py:632-635 | every user's remaining audio is handed over once if it lasts more than half a second, and no buffer is left |
| `VoiceSink.HandedIsTheLongSegments` | scripts/discord-voice-bot.py:581-630 | at all times a user's handed-over audio is that of the segments of their bytes of 17 frames or more |
| `VoiceSink.CuttingDoesNotMatter` | scripts/discord-voice-bot.py:581-618 | two sinks given the same bytes in any writes hold the same state for that user and have emitted the same audio |
| `DashboardMerge.Merge` | scripts/consolidate_grafana_dashboards.py:65-109 | the nested loops produce the sections of all sources, one after the other |
| `DashboardMerge.AppendSource` | scripts/consolidate_grafana_dashboards.py:78-109 | one turn appends the source's section, and moves the id and the cursor past it |
| `DashboardMerge.IdsAreConsecutive` | scripts/consolidate_grafana_dashboards.py:84-103 | the k-th output panel has id first + k, over all sections |
| `DashboardMerge.CountIsKept` | scripts/consolidate_grafana_dashboards.py:80-104 | the output has every non-row panel and one row per source |
| `DashboardMerge.KeptInPlace` | scripts/consolidate_grafana_dashboards.py:80 | as many panels are kept as the source's list has that are not rows, each at the place given by how many of those come before it |
| `DashboardMerge.SectionAt` | scripts/consolidate_grafana_dashboards.py:82-104 | a section is its header and its panels in order, all moved down by one amount |
| `DashboardMerge.SectionContents` | scripts/consolidate_grafana_dashboards.py:82-104 | a header is a full-width row with its source's title; each panel keeps its title, type, width, height and column, or gets the default rectangle |
| `DashboardMerge.SectionsAreTight` | scripts/consolidate_grafana_dashboards.py:92-109 | sections have no gaps: the topmost panel touches its header, and the next header the lowest counted panel or two rows down |
| `DashboardMerge.NoOverlapAcrossSections` | scripts/consolidate_grafana_dashboards.py:72-76 | panels of different sources never overlap if and only if every source but the last fits its counted height |
| `DashboardMerge.FitsExactly` | scripts/consolidate_grafana_dashboards.py:54-62 | a source fits if and only if all its panels have positions or at least eight rows are counted |
| `DashboardMerge.FullPositionsStayApart` | scripts/consolidate_grafana_dashboards.py:72-76 | sources whose panels all have positions never overlap one another |
| `DashboardMerge.OverlapsInsideAreOld` | scripts/consolidate_grafana_dashboards.py:97-104 | inside a section the header overlaps nothing and two panels overlap exactly as they did in the source |
| `DashboardMerge.MergeKeepsOverlaps` | scripts/consolidate_grafana_dashboards.py:72-109 | when all sources but the last fit, two panels anywhere in the output overlap if and only if both are panels of one source and overlapped in it |
| `DashboardMerge.UnplacedPanelCoversNextHeader` | scripts/consolidate_grafana_dashboards.py:97-109 | one panel without a position, then an empty source: the second header is covered |
| `ReadmeClaims.ClaimNeverOverstates` | scripts/lib_readme_stats.py:66-74 | reading the claim gives n with step dividing n and n <= value < n + step; there is no claim exactly for a step that is not positive |
| `ReadmeClaims.ClaimReadsBack` | scripts/lib_readme_stats.py:66-74 | dropping the plus and the commas and parsing gives the floored value, negative ones included |
| `ReadmeClaims.ClaimChangesWithTheFloor` | scripts/lib_readme_stats.py:55-56 | the text changes if and only if the count crosses a multiple of the step, and a larger count never claims less |
| `ReadmeClaims.CommasEveryFourth` | scripts/lib_readme_stats.py:70-74 | counted from the right, exactly every fourth character is a comma and the others are digits |
| `ReadmeClaims.GroupIsLossless` | scripts/lib_readme_stats.py:70-74 | removing the commas gives the digits back |
| `ReadmeClaims.PassesAreOneMap` | scripts/lib_readme_stats.py:77-83 | the three replaces in sequence are one per-character map |
| `ReadmeClaims.DecodeInvertsEscape` | scripts/lib_readme_stats.py:77-83 | percent-decoding (section 2.1 of RFC 3986) gives every string back |
| `ReadmeClaims.EscapedAlphabet` | scripts/lib_readme_stats.py:77-83 | escaped text has no comma and no plus, and has a dash exactly where the text did |
| `ReadmeClaims.BadgeSeparator` | scripts/lib_readme_stats.py:80-83 | a claim's escaped text holds the path's field separator if and only if the count is negative |
| `Decimal.ParseDigits` | mcp-server-voice/livekit_bridge.py:530 | reading printed digits gives the number back |

## Left out

- Database, HTTP, CUDA, NVML, OCR, speech recognition and synthesis, LiveKit and Discord calls are parameters of steps: any result, any failure.
- The order in which the asyncio lock wakes its waiters: any waiter may take it, so the safety results hold for the source's order too, and no fairness between waiters is claimed.
- The free-VRAM reading, its floor and the settings read behind a hard unload are one answer, `reclaim`.
- The periodic refresh of the OCR gate's settings, the detector's own lock, `last_used` and the idle timeout's arithmetic: whether the timeout has passed is a parameter.
- Request parameters of a render (steps, guidance, size) and their coercions; a partial file left by a failed save or by a cancelled render; the audit row.
- Float coordinates and NaN: boxes have integer corners, confidences are reals. `coverage_pct` and its rounding are left out.
- `Watchdog.HealsWithinAMinute`: bounds when the healing poll starts, not when it ends, because a reload that changes the model waits for the lock behind whoever holds it; a read of the model already configured heals without it (`GpuReloads.OutageKeepsModel`). Polls are given as a timed run, since the source's loop never ends.
- Whitespace and line breaks are the fixed code points Python's `strip` and `splitlines` use; other Unicode tables are not needed. Offsets count characters, not UTF-8 bytes, and there is no newline translation.
- Appends of part of a line to `.out`, several bridge states on one file, and a file that already held text.
- `VoiceBridge.PipecatPlane.Connect`: does not model a connect that starts while a disconnect is still under way, because the source leaves that case to its caller; pipeline construction is left out.
- `VoiceBridge.PipecatPlane.Speak`: the error a refusal raises is the result `false`.
- Inbound speech: the utterance callback, `.in`, watchdog counters, and `start_bridge`, `stop_bridge`, `terminate_bridge_process` and the registry around them.
- Cancellation inside the audio plane's connect, after which the source does not clean up its lock.
- `BridgeHandshake.LockIsHonest`: reads decimal digits only; the other spellings Python's `int` accepts never come from a pid.
- One worker at a time per session id; `ensure_session_pipes` succeeding in the launcher; the log tail in error messages.
- Decoding the token to find `exp`, and the HTTP details of a mint: its result is `exp` or a failure. The clock does not go back.
- `VoiceSink.VadSink.Write`: the source's four dictionaries with the same keys are one map of records, and the tasks it schedules are a list of what was handed over.
- `VoiceSink.VadSink.Cleanup`: ends the sink's use; `Valid` is not kept because the emitted remainder is not part of the segmentation.
- `VoiceSegments.OneVadFrame`: a sample is its two bytes; unpacking to a number and packing it again is the identity on them.
- Panels with part of a grid position, nested row panels, the dashboard's other fields, and the fixed layout of `_mission_control`.
- `ReadmeClaims.DecodeInvertsEscape`: decodes to characters of one octet each, which covers the three escapes the source writes.
- `GpuProgress.HolderIsBounded`: counts the holder's moves; that a thread does end, and an await does return, is assumed of the GPU and the database.
