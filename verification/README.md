# Verification of the FFmpeg command-line tools

A Dafny model of the hard parts of the `fftools` of FFmpeg 8.1.1: the transcoding scheduler,
frame-rate conversion, timestamp repair and stream selection. `dafny verify dfyconfig.toml`
checks all of it.

## What is modelled

**The scheduler** (`ffmpeg_sched.c`). `Topology` holds the graph of demuxers, decoders,
filtergraphs, encoders and muxers; a `SchedulerNode` is a `Source` or a `Sink`, by its role.
`Acyclic` is the start-up search for filtergraphs that feed each other, over its mark array and
explicit stack. `Sources` follows source links up and destinations down. `Schedule` is the decision
of `schedule_update_locked` with its mutually recursive walks, as a class on whose fields the walks
and loops work in place; its central notion is the least set of tasks that contains the roots asked
for and, with a demuxer, the roots of all filtergraphs its streams reach. Every operation that
changes what the decision depends on is shown to leave the decision up to date (`UpToDate`), from
the start of the first task on (`Consistent`). The queues of decoders are frozen with the demuxer
that feeds them, and thawed by a finish (`thread_queue.c`); what always holds of them is part of
`Consistent`.

Four protocols between threads are state machines. A step is what lies between two lock operations
or is one atomic access; results are for every sequence of steps. `Handoff` is the double-checked
start of a muxer, with the flush of `PreMux` as its other side. `EndTimestamp` is the exchange of
flush packets and end timestamps when an input is played again. `Waiter` is the sleep of a choked
task. `FinishFanout` is the way data and the end of a stream reach all destinations; what the queues
answer is given by `Reply` values.

**Frame-rate conversion** (`ffmpeg_filter.c`). `FrameRate` has `video_sync_process` and
`fg_output_frame` as methods over the filter's state, each tied to a function of the old state;
`FrameRateLaws` proves drift, conservation and order of the output over whole runs. Doubles are
reals; `llrint` rounds to nearest, halves to even. Times are in output frames.

**Timestamps and selection** (`ffmpeg_demux.c`, `ffmpeg_mux.c`, `ffmpeg_dec.c`, `cmdutils.c`).
`StreamLoop` is `-stream_loop`, `MuxTimestamps` the last repair before writing, `AudioTimebase` (on
`Arithmetic`) the clock of audio decoders, `Specifiers` (on `Numbers`) and `Matching` the parser and
matcher of stream specifiers. `AV_NOPTS_VALUE` is the 64-bit sentinel it is in C.

## Where the code is not what one might expect

- `sch_connect` accepts a loop made only of decoders and encoders, and nothing later looks for one;
  `src_filtergraph` would not return on it (`CodecLoopIsAccepted`). Its absence is a precondition,
  `CodecLoopFree`, and `LoopFreeIffNoLoop` says that this is all it asks for.
- `tq_send_finish` clears the flag with which `choke_demux` freezes a queue, without a word to the
  scheduler. So a queue is frozen exactly if its demuxer is choked and it was sent no finish since
  the demuxer's flag last changed (`QueueFollows`, `FinishDecoder`).
- A demuxer that is choked after `waiter_wait` has let it through can wait in `demux_flush` for a
  decoder whose queue is frozen (`StuckIsReached`). It waits until the queue is thawed, and in no
  other case (`WaitMovesIff`, `WaitEnds`).
- The mark that a stream has finished goes through the same bounded buffer as packets before the
  muxer starts and is lost exactly if it meets an exhausted one (`FinishLostIff`, `FinishCanBeLost`);
  the callers ignore the error (`FinishFanout.Task.Done`), and the scheduler goes on to count the
  stream as unfinished and holds all others back for it (`UnfinishedHoldsBack`).
- Tasks run and make updates before `sch_start` makes its own, so all operations start from
  `Consistent` and not from a decision in force. A demuxer without streams is never started, but the
  fallback may still pick it (`FallbackRunsIff`).
- The comment on `data_size` of the pre-muxing queue (`ffmpeg_sched.c:181-185`) says that it is
  updated when a packet is pulled; the code only ever adds to it. Since nothing is queued after the
  flush this has no effect.
- The call at `ffmpeg_mux_init.c:1522` passes the packet limit where `sch_mux_stream_buffering`
  (`ffmpeg_sched.c:1215`) takes the data threshold, and the other way round. Claims about the
  pre-muxing queue are over the fields of the struct.
- An update that had begun before `sch_stop` can unchoke a task for good after `sch_stop` has passed
  it, and nothing else can (`ProceedsAfterStopIff`, `NeverChokedAgain`).
- Flushes get their own end timestamps as long as every other packet carries data or side data; if
  one did not, exactly the flushes after it would get a foreign one (`MispairedIff`). Only decoders
  that report ends are concerned, and nothing in these sources is known to send such a packet.
- VSCFR can be up to a whole frame behind after its first frame (`StartDriftIff`). Frame counts
  balance for durations down to -0.6 of an output frame, and no further (`BalanceIffDuration`), and
  not at the end of the stream under the condition of `EofBalanceIff`.
- A packet without dts makes `mux_fixup_ts` forget the order so far; the next one keeps it exactly if
  it does so by itself (`OrderAcrossGapIff`).
- A stream index is a `long` cut to an `int`; those that come out negative, from 2^31 to 2^32 - 1 and
  beyond, are silently no index, others become a smaller one (`IndexAsWritten`).

## Model

| member | source | states |
|---|---|---|
| `Topology.ConnectKeepsLinks` | ffmpeg-8.1.1/fftools/ffmpeg_sched.c:937-1113 | one `sch_connect` adds exactly the one link, in both directions, and nothing else; destination lists and source links go on agreeing |
| `Topology.Building.SchConnect` | ffmpeg-8.1.1/fftools/ffmpeg_sched.c:937-1113 | the in-place update of both ends of a link, for every accepted pair of node types; both sides agree afterwards |
| `Topology.BuiltGraphIsLinked` | ffmpeg-8.1.1/fftools/ffmpeg_sched.c:937-1113 | every graph built by any series of accepted connections has agreeing links |
| `Topology.AllowedIff` | ffmpeg-8.1.1/fftools/ffmpeg_sched.c:946-1109 | the accepted pairs are those in which one side gives what the other takes, packets or frames |
| `Topology.CompleteIff` | ffmpeg-8.1.1/fftools/ffmpeg_sched.c:1583-1697 | the structural checks of `start_prepare` pass exactly if every source has a destination and every sink a source |
| `Acyclic.SrcFiltergraph` | ffmpeg-8.1.1/fftools/ffmpeg_sched.c:1480-1498 | returns the demuxer or filtergraph above a node, whenever following source links leaves the codecs at all |
| `Acyclic.EndsWithinCodecs` | ffmpeg-8.1.1/fftools/ffmpeg_sched.c:1480-1498 | source links that leave the codecs at all do so within as many steps as there are decoders and encoders, so the assumed absence of codec loops is no more than that the walk returns |
| `Acyclic.CodecLoopIsAccepted` | ffmpeg-8.1.1/fftools/ffmpeg_sched.c:937-1113 | a decoder and an encoder that feed each other pass every check of `sch_connect` and of completeness, and the walk up never leaves them |
| `Acyclic.LoopFreeIffNoLoop` | ffmpeg-8.1.1/fftools/ffmpeg_sched.c:1480-1498 | on a complete graph the walk up returns from everywhere exactly if no codec feeds itself through codecs only |
| `Acyclic.LayeredHasNoCycle` | ffmpeg-8.1.1/fftools/ffmpeg_sched.c:1500-1545 | where filtergraphs can be layered so that each is fed from lower layers, no path upstream returns to a filtergraph it has passed |
| `Acyclic.StartedExactly` | ffmpeg-8.1.1/fftools/ffmpeg_sched.c:1514-1536 | during the search the nodes marked as started are exactly those on the stack and the current one, and the stack has room for one more |
| `Acyclic.Descend` | ffmpeg-8.1.1/fftools/ffmpeg_sched.c:1520-1536 | entering a filtergraph, even one that is done already, keeps the search's invariant and lowers its measure, which counts the steps still to spend and not the nodes visited |
| `Acyclic.Ascend` | ffmpeg-8.1.1/fftools/ffmpeg_sched.c:1538-1543 | leaving a filtergraph keeps the invariant and lowers the measure, and the filtergraph can be added to the layering |
| `Acyclic.LookUp` | ffmpeg-8.1.1/fftools/ffmpeg_sched.c:1513-1534 | the step to the next input: on past a demuxer, up into a filtergraph over the stack, or a cycle that is really there |
| `Acyclic.Return` | ffmpeg-8.1.1/fftools/ffmpeg_sched.c:1536-1542 | the step back to the entry on top of the stack |
| `Acyclic.CheckAcyclicForOutput` | ffmpeg-8.1.1/fftools/ffmpeg_sched.c:1500-1545 | the depth-first search over the explicit stack terminates, stays within its `nb_filters` entries, and fails exactly if a cycle of filtergraphs is reachable upstream |
| `Acyclic.CheckAcyclic` | ffmpeg-8.1.1/fftools/ffmpeg_sched.c:1547-1581 | succeeds exactly if no cycle is reachable from any filtergraph, and then all filtergraphs can be layered |
| `Acyclic.FeedsAreResolved` | ffmpeg-8.1.1/fftools/ffmpeg_sched.c:1480-1498 | on a complete, linked graph without codec loops every filtergraph input has one well-defined node above it |
| `Sources.StartPrepare` | ffmpeg-8.1.1/fftools/ffmpeg_sched.c:1583-1697 | accepts exactly the complete graphs in which no filtergraph feeds itself; on these every walk of the scheduler terminates |
| `Sources.RootExists` | ffmpeg-8.1.1/fftools/ffmpeg_sched.c:1324-1360 | on an accepted graph, following source links and `best_input` leads from every node to exactly one demuxer or filtergraph |
| `Sources.RootIs` | ffmpeg-8.1.1/fftools/ffmpeg_sched.c:1324-1360 | what the root of a node is, case by case: the demuxer itself; for a codec the root of its source; for a filtergraph the root of the source of its input `best_input`, or the filtergraph itself if it wants none |
| `Sources.ReachesIs` | ffmpeg-8.1.1/fftools/ffmpeg_sched.c:1289-1322 | which filtergraphs lie below a node, case by case |
| `Sources.StepUp` | ffmpeg-8.1.1/fftools/ffmpeg_sched.c:1324-1360 | each step up stays in the graph and lowers the pair of filtergraph layer and codec height |
| `Sources.StepDown` | ffmpeg-8.1.1/fftools/ffmpeg_sched.c:1289-1322 | each step down stays in the graph and lowers the codec depth |
| `Sources.SendFinishKeepsCounts` | ffmpeg-8.1.1/fftools/ffmpeg_sched.c:2302-2308 | the sending counter of a filtergraph equals the number of inputs that are finished, and its control stream is finished exactly when all inputs are |
| `Sources.ReceiveFinishKeepsCounts` | ffmpeg-8.1.1/fftools/ffmpeg_sched.c:2553-2578 | the same for the receiving side |
| `Schedule.Scheduler.constructor` | ffmpeg-8.1.1/fftools/ffmpeg_sched.c:1699-1763 | the state in which the tasks are started: nothing choked, nothing sent |
| `Schedule.Scheduler.UnchokeForStream` | ffmpeg-8.1.1/fftools/ffmpeg_sched.c:1324-1360 | terminates, and unchokes the root above a node together with the least set its demuxers call for |
| `Schedule.Scheduler.UnchokeDownstream` | ffmpeg-8.1.1/fftools/ffmpeg_sched.c:1289-1322 | terminates, and unchokes exactly the roots of all filtergraphs reached below, and what these call for; only the first destination of a decoder output is followed, and every destination of an encoder |
| `Schedule.Scheduler.UnchokeBelowDec` | ffmpeg-8.1.1/fftools/ffmpeg_sched.c:1295-1299 | the decoder case: what the first destinations of all outputs call for |
| `Schedule.Scheduler.UnchokeBelowEnc` | ffmpeg-8.1.1/fftools/ffmpeg_sched.c:1300-1304 | the encoder case: what all destinations call for |
| `Schedule.Scheduler.TrailingDts` | ffmpeg-8.1.1/fftools/ffmpeg_sched.c:438-458 | the least last dts over the counted streams, unknown if one of them is unknown or none stands below the largest dts |
| `Schedule.Scheduler.UnchokeForMuxers` | ffmpeg-8.1.1/fftools/ffmpeg_sched.c:1414-1434 | the first pass unchokes the least closed set holding the root of every eligible muxer stream, and reports whether there was one |
| `Schedule.Scheduler.UnchokeForInputs` | ffmpeg-8.1.1/fftools/ffmpeg_sched.c:1436-1446 | the second pass adds the roots of inputs that are closed but still fed |
| `Schedule.Scheduler.UnchokeOne` | ffmpeg-8.1.1/fftools/ffmpeg_sched.c:1448-1458 | the fallback adds the first demuxer, or failing that filtergraph, that has not exited |
| `Schedule.Scheduler.Decide` | ffmpeg-8.1.1/fftools/ffmpeg_sched.c:1406-1458 | the tasks unchoked are exactly the least set that contains the roots of eligible muxer streams and of closed but fed inputs and is closed under the demuxers' downstream walks, plus the fallback if no stream was eligible |
| `Schedule.Scheduler.ChokeDemux` | ffmpeg-8.1.1/fftools/ffmpeg_sched.c:1362-1390 | exactly the queues of decoders that come first in a stream of the demuxer take the flag |
| `Schedule.Scheduler.FinishDecoder` | ffmpeg-8.1.1/fftools/thread_queue.c:227-241 | a finish unfreezes the decoder's queue, also while its demuxer stays choked, and without an update; what holds of all queues goes on holding, and a decision in force stays so |
| `Schedule.Scheduler.ApplyFlag` | ffmpeg-8.1.1/fftools/ffmpeg_sched.c:1460-1468 | the turn for one demuxer: waiter and queues take the new flag only if it has changed |
| `Schedule.Scheduler.ApplyFlags` | ffmpeg-8.1.1/fftools/ffmpeg_sched.c:1460-1469 | every waiter has its new flag; a queue is frozen exactly if its decoder comes first in a stream of a choked demuxer and it was not sent a finish since that flag last changed |
| `Schedule.Scheduler.ScheduleUpdate` | ffmpeg-8.1.1/fftools/ffmpeg_sched.c:1392-1471 | leaves the decision for the current state in force, from any state of the queues that finishes may have left; after termination it changes nothing |
| `Schedule.Scheduler.Start` | ffmpeg-8.1.1/fftools/ffmpeg_sched.c:1756-1758 | the update at the start puts the decision in force, whatever the tasks started before have done |
| `Schedule.Scheduler.MuxProgress` | ffmpeg-8.1.1/fftools/ffmpeg_sched.c:2010-2020 | a packet with a timestamp moves its muxer stream and nothing else, and the decision is up to date again |
| `Schedule.Scheduler.MuxFinish` | ffmpeg-8.1.1/fftools/ffmpeg_sched.c:2194-2210 | a finished muxer stream is noted and the decision is up to date again |
| `Schedule.Scheduler.MuxDone` | ffmpeg-8.1.1/fftools/ffmpeg_sched.c:2238-2263 | a muxer that exits finishes all its streams and nothing else, and the decision is up to date again |
| `Schedule.Scheduler.SendToFilterFinish` | ffmpeg-8.1.1/fftools/ffmpeg_sched.c:2294-2315 | the first finish of an input is counted once and brings the decision up to date, later ones change nothing |
| `Schedule.Scheduler.FilterReceiveFinish` | ffmpeg-8.1.1/fftools/ffmpeg_sched.c:2553-2578 | the same for the receiving side |
| `Schedule.Scheduler.FilterWants` | ffmpeg-8.1.1/fftools/ffmpeg_sched.c:2519-2530 | a filtergraph that wants another input changes `best_input` and nothing else, and brings the decision up to date |
| `Schedule.Scheduler.FilterChokeInputs` | ffmpeg-8.1.1/fftools/ffmpeg_sched.c:2643-2653 | a filtergraph that wants no input, with an update in any case |
| `Schedule.Scheduler.DemuxExited` | ffmpeg-8.1.1/fftools/ffmpeg_sched.c:2170-2176 | a demuxer that exits is noted and the decision is up to date again |
| `Schedule.Scheduler.SendFinishToMux` | ffmpeg-8.1.1/fftools/ffmpeg_sched.c:1967-2023 | a finish marks its stream and brings the decision up to date, but if the pre-muxing queue refuses it nothing changes for the scheduler |
| `Schedule.Scheduler.DemuxDone` | ffmpeg-8.1.1/fftools/ffmpeg_sched.c:2159-2179 | a demuxer that ends, choked or not, finishes just the muxer streams it had not finished and whose mark is not refused, unfreezes the queues it sends a finish, and leaves the decision up to date |
| `Schedule.Scheduler.FilterExited` | ffmpeg-8.1.1/fftools/ffmpeg_sched.c:2622-2628 | a filtergraph that exits is noted and the decision is up to date again |
| `Schedule.Scheduler.Stop` | ffmpeg-8.1.1/fftools/ffmpeg_sched.c:2725-2733 | after a stop everything is choked and the queues drain |
| `Schedule.EligibleIff` | ffmpeg-8.1.1/fftools/ffmpeg_sched.c:1418-1433 | some muxer stream is eligible exactly if an unfinished one stands below the largest dts, and every trailing one is eligible |
| `Schedule.TrailingRootRuns` | ffmpeg-8.1.1/fftools/ffmpeg_sched.c:1414-1434 | after an update the root of every trailing unfinished muxer stream may run |
| `Schedule.AskedForIff` | ffmpeg-8.1.1/fftools/ffmpeg_sched.c:1418-1433 | the streams that the first pass lets through: the unfinished ones without a timestamp; and while there are none, those less than 100000 above every unfinished one, unless all stand at the largest dts |
| `Schedule.ReleasedIff` | ffmpeg-8.1.1/fftools/ffmpeg_sched.c:1392-1471 | after an update exactly those tasks may run that the streams asked for and the closed inputs need and, if no stream is asked for, the first task left |
| `Schedule.NearRootRuns` | ffmpeg-8.1.1/fftools/ffmpeg_sched.c:1418-1433 | after an update the root of every unfinished stream below the largest dts may run if every unfinished stream has a dts and it stands less than 100000 above each of them (the constant is at line 45) |
| `Schedule.NeededIff` | ffmpeg-8.1.1/fftools/ffmpeg_sched.c:1324-1360 | a task is needed exactly if it is called for, or is the root of a filtergraph that a needed demuxer feeds |
| `Schedule.FirstDemuxerIff` | ffmpeg-8.1.1/fftools/ffmpeg_sched.c:1362-1390 | the demuxer a decoder's queue is frozen with is the one, if any, with a stream that goes to that decoder first |
| `Schedule.NothingRunsIff` | ffmpeg-8.1.1/fftools/ffmpeg_sched.c:1392-1471 | all sources are choked exactly if no unfinished muxer stream stands below the largest dts, every demuxer and filtergraph has exited, and no closed input is still fed |
| `Schedule.UnfinishedHoldsBack` | ffmpeg-8.1.1/fftools/ffmpeg_sched.c:1418-1433 | a muxer stream that stays unfinished, such as one whose finish was refused, holds every other stream within the tolerance of its last dts |
| `Schedule.UnfinishedKeepsSomeFree` | ffmpeg-8.1.1/fftools/ffmpeg_sched.c:1414-1458 | below the largest dts it also keeps some task unchoked, and the fallback from being used |
| `Schedule.ReleasedHaveThreads` | ffmpeg-8.1.1/fftools/ffmpeg_sched.c:1406-1458 | every task released has a thread, but for the one released as a fallback |
| `Schedule.FallbackRunsIff` | ffmpeg-8.1.1/fftools/ffmpeg_sched.c:1448-1458 | the fallback's task has a thread exactly if in front of every demuxer without streams, which is never started, there is one with streams that has not exited |
| `Schedule.GrowsFromNothing` | ffmpeg-8.1.1/fftools/ffmpeg_sched.c:1406-1446 | walks that start with everything choked release exactly the least closed set of what they start from |
| `PreMux.MuxQueuePacket` | ffmpeg-8.1.1/fftools/ffmpeg_sched.c:1931-1965 | queues an item at the end unless the queue is full and both its packet limit and its data threshold are reached |
| `PreMux.QueuedFits` | ffmpeg-8.1.1/fftools/ffmpeg_sched.c:1931-1965 | what is queued fits, the data sizes are added up, and above the threshold the queue does not grow beyond its limit in packets |
| `PreMux.BelowThresholdAll` | ffmpeg-8.1.1/fftools/ffmpeg_sched.c:1931-1965 | up to the data threshold every series of items is queued, in order, whatever the limit in packets |
| `PreMux.AboveThresholdNone` | ffmpeg-8.1.1/fftools/ffmpeg_sched.c:1941-1948 | above the threshold a queue full at its limit takes nothing more |
| `PreMux.MinStream` | ffmpeg-8.1.1/fftools/ffmpeg_sched.c:1123-1150 | finds the stream to flush next: the first with a finish mark or an unknown dts at its head, or else the first of those whose head is earliest, across time bases; none exactly if all are empty |
| `PreMux.ChosenIsUnique` | ffmpeg-8.1.1/fftools/ffmpeg_sched.c:1123-1150 | the stream to flush next is determined |
| `PreMux.SomeChosen` | ffmpeg-8.1.1/fftools/ffmpeg_sched.c:1123-1150 | unless all buffers are empty there is a stream to flush next |
| `PreMux.MergeStep` | ffmpeg-8.1.1/fftools/ffmpeg_sched.c:1123-1168 | flushing the chosen head keeps what was flushed in the order of time and ahead of all that is left |
| `PreMux.DeliveredInOrder` | ffmpeg-8.1.1/fftools/ffmpeg_sched.c:1152-1168 | of each stream the thread queue gets every flushed item in order up to the first packet it refuses, and after it only the finish marks |
| `PreMux.Mux.MuxTaskStart` | ffmpeg-8.1.1/fftools/ffmpeg_sched.c:1115-1175 | the flush terminates with all buffers empty; each stream leaves in its own order and, if its dts values are known and non-decreasing, all streams together in the order of time; only then the muxer counts as started |
| `Handoff.StepKeepsInv` | ffmpeg-8.1.1/fftools/ffmpeg_sched.c:1967-2006 | every step of a sender, of the flush or of another lock holder keeps each stream's items in one place and in send order |
| `Handoff.EachPartyMoves` | ffmpeg-8.1.1/fftools/ffmpeg_sched.c:1967-2006 | nobody is held up but by the lock: every sender, and whoever holds the lock, can always take its next step |
| `Handoff.StartHoldsLock` | ffmpeg-8.1.1/fftools/ffmpeg_sched.c:1115-1175 | the flush keeps the lock until the muxer is started with nothing buffered, and from then on a sender needs no lock |
| `Handoff.EofIsRemembered` | ffmpeg-8.1.1/fftools/ffmpeg_sched.c:1152-1168 | the flush remembers exactly the streams of which the queue has refused a packet, and these are closed for good, so that they would be refused again |
| `Handoff.HandoffDelivers` | ffmpeg-8.1.1/fftools/ffmpeg_sched.c:1967-2006 | in every interleaving of senders and muxer start, what reaches the queue is what was sent and not refused, in order, but for packets after the queue's end of file; nothing stays buffered once the muxer is started |
| `Handoff.NoOvertaking` | ffmpeg-8.1.1/fftools/ffmpeg_sched.c:1967-2006 | a packet sent directly comes after all that was sent before it |
| `Handoff.FinishesAccounted` | ffmpeg-8.1.1/fftools/ffmpeg_sched.c:1967-2006 | in every interleaving each finish mark handed over is in the muxer's queue, buffered, on its way, or was refused |
| `Handoff.FinishLostIff` | ffmpeg-8.1.1/fftools/ffmpeg_sched.c:1985-1995 | once the muxer is started and the sender is done, the stream's finish is missing exactly if the sender met an exhausted pre-muxing queue with it |
| `Handoff.FinishCanBeLost` | ffmpeg-8.1.1/fftools/ffmpeg_sched.c:1937-1948 | a run from the initial state, with the least queue there is, that ends with the muxer started and the finish nowhere |
| `EndTimestamp.MaxEnd` | ffmpeg-8.1.1/fftools/ffmpeg_sched.c:2093-2135 | the end reported to the demuxer is the latest known one of its decoders', across time bases, and unknown if none is known |
| `EndTimestamp.StepKeepsInv` | ffmpeg-8.1.1/fftools/ffmpeg_sched.c:2265-2292 | every step keeps what was accepted equal, in order, to the answers read and the tokens under way |
| `EndTimestamp.OneTokenWhileWaiting` | ffmpeg-8.1.1/fftools/ffmpeg_sched.c:2093-2135 | in every run in which all packets but flushes carry data, exactly one token is under way while the demuxer waits, its own, and none while it does not; the decoder never blocks when it reports; each flush is answered by its own end |
| `EndTimestamp.WaitMovesIff` | ffmpeg-8.1.1/fftools/ffmpeg_sched.c:2093-2135 | a waiting demuxer can be answered or its decoder can step exactly unless the decoder sits in front of a frozen queue with no answer ready |
| `EndTimestamp.StuckIsReached` | ffmpeg-8.1.1/fftools/ffmpeg_sched.c:1362-1390 | an update that chokes the demuxer while it waits can bring that about |
| `EndTimestamp.WaitEnds` | ffmpeg-8.1.1/fftools/ffmpeg_sched.c:2391-2401 | while the queue is not frozen the wait ends: the decoder has a bounded number of steps and the demuxer its answer when there are no more, also if the decoder exits |
| `EndTimestamp.DemuxerGoesOn` | ffmpeg-8.1.1/fftools/ffmpeg_sched.c:2093-2135 | a demuxer that does not wait can flush, which fails exactly if the decoder reads no more, and can finish the decoder; its wait fails exactly if the decoder has exited without an answer |
| `EndTimestamp.RefusedIsFinish` | ffmpeg-8.1.1/fftools/ffmpeg_sched.c:2043-2056 | to a decoder that reads no more a packet is as good as the finish |
| `EndTimestamp.FinishIsRead` | ffmpeg-8.1.1/fftools/thread_queue.c:227-241 | after the finish the decoder is never held up: it has a bounded number of steps and can go on until it has exited, unless its queue is frozen once more |
| `EndTimestamp.AllTaken` | ffmpeg-8.1.1/fftools/thread_queue.c:156-195 | a decoder that does not stop by itself exits only when it has been finished and has taken every packet |
| `EndTimestamp.MispairedIff` | ffmpeg-8.1.1/fftools/ffmpeg_sched.c:2284-2290 | the n-th answer read is that to the n-th packet without data accepted; a flush is given a foreign end exactly if a packet without data that was no flush was accepted before it |
| `Waiter.RunKeepsInv` | ffmpeg-8.1.1/fftools/ffmpeg_sched.c:320-347 | every interleaving of a waiting task with the schedule update and `sch_stop` keeps the lock discipline and a signal due for every reason to wake |
| `Waiter.NoLostWakeUp` | ffmpeg-8.1.1/fftools/ffmpeg_sched.c:320-347 | a task asleep that has not been signalled is still choked, or its unchoking is about to signal; and `sch_stop` has not signalled it yet |
| `Waiter.EachPartyMoves` | ffmpeg-8.1.1/fftools/ffmpeg_sched.c:320-347 | a task inside `waiter_wait`, or else the holder of its lock, can always take its next step |
| `Waiter.UnchokedGoesOn` | ffmpeg-8.1.1/fftools/ffmpeg_sched.c:320-337 | while the task is unchoked each of its steps brings its return nearer, and no step of others sets it back |
| `Waiter.UnchokedReturns` | ffmpeg-8.1.1/fftools/ffmpeg_sched.c:320-347 | in every run along which the task is unchoked it takes no more than the steps left, and it can step, or the holder of the lock can, until it has returned |
| `Waiter.StopEndsEveryWait` | ffmpeg-8.1.1/fftools/ffmpeg_sched.c:2725-2733 | once `sch_stop` has passed, a task inside `waiter_wait` or the holder of its lock can step, and each step of the task brings its return nearer, whatever others do |
| `Waiter.WhatReturnsMean` | ffmpeg-8.1.1/fftools/ffmpeg_sched.c:320-337 | `waiter_wait` returns 1 exactly from the slow path after `terminate` is set, and 0 only while unchoked |
| `Waiter.ProceedsAfterStopIff` | ffmpeg-8.1.1/fftools/ffmpeg_sched.c:1399-1464 | once `sch_stop` has passed, a task can still be told to proceed exactly if it is unchoked, or an update that began before is about to unchoke it |
| `Waiter.NeverChokedAgain` | ffmpeg-8.1.1/fftools/ffmpeg_sched.c:1399-1464 | a task unchoked after `sch_stop` has passed is never choked again |
| `Waiter.StopMayPassAnUpdate` | ffmpeg-8.1.1/fftools/ffmpeg_sched.c:2725-2733 | such a moment is reached by a run from the start |
| `FinishFanout.SendToDst` | ffmpeg-8.1.1/fftools/ffmpeg_sched.c:2025-2059 | one destination: nothing once finished, the finish for an end or a refused packet, and for muxers the stream-copy end in place of the packet |
| `FinishFanout.DemuxSend` | ffmpeg-8.1.1/fftools/ffmpeg_sched.c:2061-2091 | every destination is told up to the first that fails; end of file is returned exactly if none failed and all are finished |
| `FinishFanout.EncSend` | ffmpeg-8.1.1/fftools/ffmpeg_sched.c:2460-2491 | the same, but never reports that all destinations are finished |
| `FinishFanout.CallIssues` | ffmpeg-8.1.1/fftools/ffmpeg_sched.c:2025-2091 | what a call issues: to a destination that is not finished and not behind a failing one exactly one packet, with a finish after it exactly if the packet is refused with the end; a finish alone at the end, or to a muxer under the stream-copy end; to all others nothing |
| `FinishFanout.CallFails` | ffmpeg-8.1.1/fftools/ffmpeg_sched.c:2061-2091 | the call fails exactly if a destination does that it gets to, with the error of the first |
| `FinishFanout.FanKeepsEnds` | ffmpeg-8.1.1/fftools/ffmpeg_sched.c:2025-2091 | a call only adds to what a destination was issued, and nothing to a finished one |
| `FinishFanout.FinishedAtMostOnce` | ffmpeg-8.1.1/fftools/ffmpeg_sched.c:2317-2389 | over every run of calls each destination is issued data, at most one finish, and nothing after it |
| `FinishFanout.DataPerCall` | ffmpeg-8.1.1/fftools/ffmpeg_sched.c:2025-2091 | over every run of calls a destination is issued exactly one packet for each call with data that gets to it while it is not finished, stream-copy ends left out |
| `FinishFanout.DoneFinishesOnce` | ffmpeg-8.1.1/fftools/ffmpeg_sched.c:2493-2507 | after any calls and the end of the task each destination has been issued exactly one finish, last, and further calls add nothing |
| `FinishFanout.Task.Send` | ffmpeg-8.1.1/fftools/ffmpeg_sched.c:2347-2389 | one output of a task is told, the others are untouched |
| `FinishFanout.Task.Done` | ffmpeg-8.1.1/fftools/ffmpeg_sched.c:2159-2168 | the end of a task adds one finish to every destination not finished yet, and reports no error whatever becomes of it |
| `FrameRate.Median3` | ffmpeg-8.1.1/fftools/ffmpeg_filter.c:2492-2506 | the median of three |
| `FrameRate.RintMonotone` | ffmpeg-8.1.1/fftools/ffmpeg_filter.c:2551-2591 | rounding to the nearest integer is monotone |
| `FrameRate.OutputFilter.VideoSyncProcess` | ffmpeg-8.1.1/fftools/ffmpeg_filter.c:2513-2634 | the whole new state and both counts of the in-place algorithm, for every sync method and for the end of the stream |
| `FrameRate.OutputFilter.FgOutputFrame` | ffmpeg-8.1.1/fftools/ffmpeg_filter.c:2702-2783 | the frames sent, with timestamps and key marks, and the state after them, for a consumer that may refuse any of them |
| `FrameRate.OutputFilter.SendAll` | ffmpeg-8.1.1/fftools/ffmpeg_filter.c:2725-2765 | which frames the send loop sends, how often the previous one, and when the key marks are spent, also when a frame is refused |
| `FrameRateLaws.CfrStepDrift` | ffmpeg-8.1.1/fftools/ffmpeg_filter.c:2533-2584 | after every frame the output is at most half a frame behind the frame's end and, if anything was sent, at most 2.1 frames ahead |
| `FrameRateLaws.CfrDriftBound` | ffmpeg-8.1.1/fftools/ffmpeg_filter.c:2533-2584 | the same over every run: at most 0.5 always, and at least -2.1 from the first sent frame on when frame ends do not decrease |
| `FrameRateLaws.StartDriftIff` | ffmpeg-8.1.1/fftools/ffmpeg_filter.c:2560-2566 | the exact drift after the frame that moves the start of a VSCFR output, when it exceeds 0.5 in terms of start and duration, and its bounds |
| `FrameRateLaws.VscfrStepDrift` | ffmpeg-8.1.1/fftools/ffmpeg_filter.c:2560-2584 | after every other frame the bounds are those of CFR |
| `FrameRateLaws.VscfrDriftBound` | ffmpeg-8.1.1/fftools/ffmpeg_filter.c:2533-2584 | over every VSCFR run: at most 1.0, at most 0.5 but after the moving frame, at least -2.6 from the first sent frame on, and -2.1 with durations of at least -0.6 |
| `FrameRateLaws.VscfrDriftIsReached` | ffmpeg-8.1.1/fftools/ffmpeg_filter.c:2560-2584 | first frames with drift 1.0 and -2.6 |
| `FrameRateLaws.CountsOf` | ffmpeg-8.1.1/fftools/ffmpeg_filter.c:2568-2584 | when the previous frame is repeated, and when more often than frames are sent, in terms of the frame's start and end |
| `FrameRateLaws.StepBalanceIff` | ffmpeg-8.1.1/fftools/ffmpeg_filter.c:2600-2634 | a frame's books balance exactly if its gap does not ask for more repeats than frames are sent or, when the count was skipped as too large, if the previous frame is repeated or was not pending |
| `FrameRateLaws.PrevAtMostAllIff` | ffmpeg-8.1.1/fftools/ffmpeg_filter.c:2568-2584 | the repeats never outnumber the total, in any state and configuration, exactly for durations of at least -0.6 |
| `FrameRateLaws.BalanceIffDuration` | ffmpeg-8.1.1/fftools/ffmpeg_filter.c:2600-2634 | at a constant rate all frames of a duration balance exactly if it is at least -0.6 |
| `FrameRateLaws.Conservation` | ffmpeg-8.1.1/fftools/ffmpeg_filter.c:2702-2772 | over every run from any state with durations of at least -0.6: frames in + duplicated = sent + dropped + pending |
| `FrameRateLaws.FramesAccounted` | ffmpeg-8.1.1/fftools/ffmpeg_filter.c:2702-2772 | the same from the start of the stream |
| `FrameRateLaws.BelowThatTooMany` | ffmpeg-8.1.1/fftools/ffmpeg_filter.c:2573-2581 | for every duration below -0.6 a first CFR frame whose repeats outnumber the total |
| `FrameRateLaws.EofBalanceIff` | ffmpeg-8.1.1/fftools/ffmpeg_filter.c:2522-2531 | at the end of the stream one drop is counted twice exactly if the last frame is pending and not repeated |
| `FrameRateLaws.CfrSends` | ffmpeg-8.1.1/fftools/ffmpeg_filter.c:2565-2584 | how often a frame is sent at a constant rate: not at all if it ends more than 1.1 before the output or below the drop threshold, once up to 1.1 after it, else as often as is nearest |
| `FrameRateLaws.VfrSends` | ffmpeg-8.1.1/fftools/ffmpeg_filter.c:2585-2592 | at a variable rate a frame is sent exactly once unless its end is at most -0.6 past the output, and then dropped; its timestamp is the rounded later of its start and the output if the end is more than 0.6 past it, else where the output stands |
| `FrameRateLaws.VfrSendsLate` | ffmpeg-8.1.1/fftools/ffmpeg_filter.c:2585-2592 | over every run at a variable rate just the frames that end late enough are sent, and none is duplicated |
| `FrameRateLaws.PassthroughSends` | ffmpeg-8.1.1/fftools/ffmpeg_filter.c:2593-2597 | the methods that pass frames through send each exactly once, at its rounded start |
| `FrameRateLaws.BooksOf` | ffmpeg-8.1.1/fftools/ffmpeg_filter.c:2600-2634 | which sends count as duplicated, when the previous frame counts as dropped and when this one is pending, in terms of what is sent |
| `FrameRateLaws.PlainIff` | ffmpeg-8.1.1/fftools/ffmpeg_filter.c:2615-2622 | a count is too large exactly if something would be duplicated and it exceeds 30 times the configured limit |
| `FrameRateLaws.TooLargeDrops` | ffmpeg-8.1.1/fftools/ffmpeg_filter.c:2615-2622 | a count that is too large sends nothing and is booked as one more drop |
| `FrameRateLaws.HistoryHolds` | ffmpeg-8.1.1/fftools/ffmpeg_filter.c:2604-2607 | after any three frames the history holds how often the previous frame was repeated before each of them, the latest first |
| `FrameRateLaws.EofRepeats` | ffmpeg-8.1.1/fftools/ffmpeg_filter.c:2522-2531 | at the end of the stream the last frame is repeated as often as the middle one of the last three counts |
| `FrameRateLaws.StepMovesForward` | ffmpeg-8.1.1/fftools/ffmpeg_filter.c:2548-2591 | no branch of CFR, VSCFR or VFR moves `next_pts` back, and a frame's output is consecutive |
| `FrameRateLaws.OutputIncreases` | ffmpeg-8.1.1/fftools/ffmpeg_filter.c:2725-2765 | over every run the timestamps sent strictly increase, and for CFR they are consecutive integers |
| `FrameRateLaws.KeyMarkWaits` | ffmpeg-8.1.1/fftools/ffmpeg_filter.c:2630-2633 | the key mark of a dropped frame waits for the next frame sent and is spent on it |
| `FrameRateLaws.KeyOnce` | ffmpeg-8.1.1/fftools/ffmpeg_filter.c:2725-2765 | the key mark of a frame is spent on its first send after the repeats, and on none later; the repeats carry what was left of their frame's |
| `StreamLoop.Demuxer.TsFixup` | ffmpeg-8.1.1/fftools/ffmpeg_demux.c:424-448 | both timestamps are shifted by the current duration and the bounds widened, packet durations counting only without an audio decoder |
| `StreamLoop.Demuxer.SeekToStart` | ffmpeg-8.1.1/fftools/ffmpeg_demux.c:197-222 | the length of what was played, the end reported by decoders included; the loop counter goes down unless it is endless |
| `StreamLoop.Demuxer.InputThread` | ffmpeg-8.1.1/fftools/ffmpeg_demux.c:753-783 | with `loop` at n the input is played n + 1 times, each pass the same packets shifted by the duration at its start |
| `StreamLoop.Extent` | ffmpeg-8.1.1/fftools/ffmpeg_demux.c:430-444 | the bounds are the least start and the greatest end of the packets with a timestamp |
| `StreamLoop.HiIs` | ffmpeg-8.1.1/fftools/ffmpeg_demux.c:430-444 | the greatest end leaves out packet durations with an audio decoder, and includes them otherwise |
| `StreamLoop.ShiftedIs` | ffmpeg-8.1.1/fftools/ffmpeg_demux.c:424-448 | in each pass every known timestamp of a packet is later by the same amount, and the packet is otherwise the same |
| `StreamLoop.PassWidens` | ffmpeg-8.1.1/fftools/ffmpeg_demux.c:424-448 | a pass moves the bounds by its own extent |
| `StreamLoop.Offset` | ffmpeg-8.1.1/fftools/ffmpeg_demux.c:205-216 | each pass starts exactly at the latest timestamp so far, later than the one before by the input's length or up to a later end reported by a decoder |
| `StreamLoop.OffsetWithoutEnds` | ffmpeg-8.1.1/fftools/ffmpeg_demux.c:205-216 | without reported ends pass n is shifted by n times the length |
| `StreamLoop.OffsetWithoutPts` | ffmpeg-8.1.1/fftools/ffmpeg_demux.c:205-216 | an input without timestamps is shifted by the latest reported end |
| `StreamLoop.PassesFollow` | ffmpeg-8.1.1/fftools/ffmpeg_demux.c:205-216 | no packet of a pass begins before the end of any packet of any earlier pass or before any reported end, and one begins exactly there |
| `MuxTimestamps.MuxStream.MuxFixupTs` | ffmpeg-8.1.1/fftools/ffmpeg_mux.c:138-207 | the packet and the memory after the repair, for every kind of stream and format, and when it is refused |
| `MuxTimestamps.MuxStream.Write` | ffmpeg-8.1.1/fftools/ffmpeg_mux.c:209-248 | a stream's packets, one repair each, up to the first refused one |
| `MuxTimestamps.GuessIsMedian` | ffmpeg-8.1.1/fftools/ffmpeg_mux.c:167-176 | the guess for a pair out of order is the median of pts, dts and last dts + 1 |
| `MuxTimestamps.StrictGuess` | ffmpeg-8.1.1/fftools/ffmpeg_mux.c:167-200 | in strict formats such a pair ends as the later of its pts and the first free dts |
| `MuxTimestamps.LeastChange` | ffmpeg-8.1.1/fftools/ffmpeg_mux.c:177-200 | a pair in order is moved no further than any admissible pair above it |
| `MuxTimestamps.WrittenByKind` | ffmpeg-8.1.1/fftools/ffmpeg_mux.c:138-207 | over every run: video to be dropped loses both timestamps, copied audio has its dts for pts, formats without timestamps and pairs in order of other kinds of streams are written as they come |
| `MuxTimestamps.AllWritten` | ffmpeg-8.1.1/fftools/ffmpeg_mux.c:177-191 | nothing is refused without `exit_on_error`, in a format without timestamps, or of other kinds of streams |
| `MuxTimestamps.PtsNotBelowDts` | ffmpeg-8.1.1/fftools/ffmpeg_mux.c:166-201 | over every run no packet is written with a known pts below its known dts |
| `MuxTimestamps.DtsIncrease` | ffmpeg-8.1.1/fftools/ffmpeg_mux.c:166-201 | dts values strictly increase, or do not decrease in non-strict formats, between any two packets with no unknown dts between them |
| `MuxTimestamps.MonotonicRun` | ffmpeg-8.1.1/fftools/ffmpeg_mux.c:166-201 | so they do over every run of packets with known dts |
| `MuxTimestamps.UnknownDtsForgets` | ffmpeg-8.1.1/fftools/ffmpeg_mux.c:201 | after a packet without dts any pair in order is written unchanged, however far back it lies |
| `MuxTimestamps.OrderAcrossGapIff` | ffmpeg-8.1.1/fftools/ffmpeg_mux.c:166-201 | after one or more packets without dts a packet is written with the dts it brings, so the order with the last dts before the gap is kept if and only if that one keeps it |
| `MuxTimestamps.AcceptedIff` | ffmpeg-8.1.1/fftools/ffmpeg_mux.c:177-191 | with `exit_on_error` a run of packets with known, ordered timestamps is written completely exactly if their dts ascend, or do not descend in non-strict formats |
| `MuxTimestamps.AscendingPairs` | ffmpeg-8.1.1/fftools/ffmpeg_mux.c:177-191 | the same for any two packets of the run |
| `AudioTimebase.DecoderPriv.AudioSamplerateUpdate` | ffmpeg-8.1.1/fftools/ffmpeg_dec.c:203-244 | the clock after a change of rate, and that it stays of the form 1/D |
| `AudioTimebase.DecoderPriv.AudioTsProcess` | ffmpeg-8.1.1/fftools/ffmpeg_dec.c:246-281 | the clock and the outgoing frame, with or without a timestamp of its own |
| `AudioTimebase.FallsBackIff` | ffmpeg-8.1.1/fftools/ffmpeg_dec.c:215-222 | the fallback is taken exactly when the least common multiple reaches the greatest multiple of the rate within `INT_MAX` |
| `AudioTimebase.NewDenCovers` | ffmpeg-8.1.1/fftools/ffmpeg_dec.c:215-231 | otherwise the new D is a common multiple of the old D and the rate, and fits an `int` |
| `AudioTimebase.OwnTimestampExact` | ffmpeg-8.1.1/fftools/ffmpeg_dec.c:227-231 | a frame's own time base 1/D is taken up if it covers the old one and the rate, and then the clock keeps its timestamps as they are |
| `AudioTimebase.NewDenIs` | ffmpeg-8.1.1/fftools/ffmpeg_dec.c:215-231 | without the fallback the new D is the least common multiple, or the frame's own if that is finer |
| `AudioTimebase.UpdateIsExact` | ffmpeg-8.1.1/fftools/ffmpeg_dec.c:233-237 | without the fallback the stored timestamp and duration keep their instants |
| `AudioTimebase.RescaleExactIff` | ffmpeg-8.1.1/fftools/ffmpeg_dec.c:233-237 | rescaling keeps an instant exactly if the new time base can express it |
| `AudioTimebase.CoversEveryRate` | ffmpeg-8.1.1/fftools/ffmpeg_dec.c:203-244 | over every run without fallback D is a multiple of every rate seen and fits an `int` |
| `AudioTimebase.NoFinerThanNeeded` | ffmpeg-8.1.1/fftools/ffmpeg_dec.c:215-225 | and D divides every common multiple of the rates, unless a frame's own time base was taken |
| `AudioTimebase.PredictionIsExact` | ffmpeg-8.1.1/fftools/ffmpeg_dec.c:246-277 | without input timestamps the clock stands at the exact sum of all frame lengths, across any changes of rate |
| `AudioTimebase.OutputIsNear` | ffmpeg-8.1.1/fftools/ffmpeg_dec.c:277-280 | the frame leaves in a time base of one sample, with its own length, no more than half a sample away from its instant |
| `AudioTimebase.FallbackStays` | ffmpeg-8.1.1/fftools/ffmpeg_dec.c:217-225 | once the fallback was taken every rate that divides it stays covered |
| `AudioTimebase.FallbackCoversUsualRates` | ffmpeg-8.1.1/fftools/ffmpeg_dec.c:222-223 | 28224000 is the least common multiple of 192000 and 44100 and a multiple of the usual rates |
| `Arithmetic.LcmIsLeast` | ffmpeg-8.1.1/fftools/ffmpeg_dec.c:215-225 | `prev / gcd * sr` divides every common multiple of its arguments |
| `Numbers.StrtolOfDecimal` | ffmpeg-8.1.1/fftools/cmdutils.c:1027-1030 | `strtol` with base 0 reads a number written in decimal back, saturated |
| `Numbers.StrtolOfNumber` | ffmpeg-8.1.1/fftools/cmdutils.c:1027-1030 | after spaces and a sign, digits after "0x", after "0", or else are read as a number in base 16, 8 or 10, saturated, up to the first character that is no such digit |
| `Numbers.StrtolOfNone` | ffmpeg-8.1.1/fftools/cmdutils.c:1071-1075 | without a digit there is no number and nothing is taken |
| `Specifiers.StreamSpecifierParse` | ffmpeg-8.1.1/fftools/cmdutils.c:1011-1224 | the loop over the components, the trailing text and every error of the parser |
| `Specifiers.ParsedIsSound` | ffmpeg-8.1.1/fftools/cmdutils.c:1025-1192 | no parsed specifier has both a stream ID and an index, so the matcher's assertion holds |
| `Specifiers.ComponentReads` | ffmpeg-8.1.1/fftools/cmdutils.c:1025-1181 | the text of each kind of component, in front of a colon or at the end, is read as that component and no further |
| `Specifiers.TextReads` | ffmpeg-8.1.1/fftools/cmdutils.c:1025-1181 | round trip: components written with colons, in any order and number, are read as those components, with the errors for repeated ones and the rest after a final one |
| `Specifiers.EachLetterMeans` | ffmpeg-8.1.1/fftools/cmdutils.c:1046-1055 | the six letters one by one: "v" and "V" mean video, "a" audio, "s" subtitle, "d" data, "t" attachment, and only "V" excludes attached pictures |
| `Specifiers.MetaMeans` | ffmpeg-8.1.1/fftools/cmdutils.c:1156-1179 | a metadata component gives its key and, after a colon, its value, where the library reads the key up to the colon and the value to the end |
| `Specifiers.RemainderIs` | ffmpeg-8.1.1/fftools/cmdutils.c:1194-1212 | what follows the component that ends the specifier is handed back without its colon, or makes the text invalid |
| `Specifiers.OrderDoesNotMatter` | ffmpeg-8.1.1/fftools/cmdutils.c:1025-1181 | components of different kinds may be exchanged |
| `Specifiers.IndexAsWritten` | ffmpeg-8.1.1/fftools/cmdutils.c:1026-1027 | an index comes out as written exactly if it is below 2^31, and negative, that is ignored, exactly if it is at least `LONG_MAX` or its bit 31 is set |
| `Matching.Scan` | ffmpeg-8.1.1/fftools/cmdutils.c:1289-1333 | the loop with its counter picks exactly the stream whose first place among the satisfying entries is the index |
| `Matching.StreamSpecifierMatch` | ffmpeg-8.1.1/fftools/cmdutils.c:1226-1336 | the whole matcher agrees with a full scan of the selected list, for every kind of list and for missing programs and groups |
| `Matching.ScanOfOne` | ffmpeg-8.1.1/fftools/cmdutils.c:1236-1248 | without an index, scanning the one stream agrees with scanning all |
| `Matching.ScanUpTo` | ffmpeg-8.1.1/fftools/cmdutils.c:1245-1248 | with an index, what lies behind the stream does not matter |
| `Matching.IndexPicksOne` | ffmpeg-8.1.1/fftools/cmdutils.c:1289-1333 | in a list without repetitions index n picks the n-th candidate and no other stream |
| `Matching.NoIndexPicksAll` | ffmpeg-8.1.1/fftools/cmdutils.c:1289-1333 | without an index every listed stream that satisfies the constraints is picked |
| `Matching.ListedIs` | ffmpeg-8.1.1/fftools/cmdutils.c:1235-1284 | which streams each kind of list names; programs and groups are the first with the ID |
| `Matching.ListPicks` | ffmpeg-8.1.1/fftools/cmdutils.c:1011-1336 | "g:n", "g:#id", "p:id" and "#id" as text pick the streams of the n-th group, of the first group and the first program with that ID, and the streams with that ID |
| `Matching.LetterPicks` | ffmpeg-8.1.1/fftools/cmdutils.c:1292-1295 | a letter as text picks all streams of its type, "V" without those with an attached picture |
| `Matching.DispositionPicks` | ffmpeg-8.1.1/fftools/cmdutils.c:1325-1327 | "disp:names" picks the streams that have all the dispositions named |
| `Matching.MetaPicks` | ffmpeg-8.1.1/fftools/cmdutils.c:1297-1305 | "m:key" picks the streams with such a tag, "m:key:value" those where it has that value |
| `Matching.UsablePicks` | ffmpeg-8.1.1/fftools/cmdutils.c:1307-1323 | "u" picks audio and video with known parameters, no stream of unknown type, and all of other types |
| `Matching.TextPicks` | ffmpeg-8.1.1/fftools/cmdutils.c:1011-1336 | parser and matcher together: program, one of the six letters and index as text pick the n-th stream of the type the letter stands for in the first program with that ID; "V" does not count attached pictures |

## Left out

- Thread queues (`thread_queue.c`) are unbounded FIFOs with finish marks and, where it matters, the choke flag, so that a sender blocks on a full queue is not captured; `sync_queue.c` and libavutil are not part of this model. `av_compare_ts` and `av_rescale_q` are exact and unbounded, so overflow of 64 bits is not captured, nor in `last_dts - dts` or in the sum that gives the median.
- Schedule.Scheduler.Stop: takes the loop of `sch_stop` over the waiters as one step, although it runs without `schedule_lock`; what can happen between is in `Waiter`.
- Schedule.Scheduler.ScheduleUpdate: is one step, as it runs under `schedule_lock`; a finish that reaches a queue while it runs is taken as before or after it.
- Schedule.NothingRunsIff: allows for streams that stand at the dts `INT64_MAX`, which the code does not tell from finished ones.
- Acyclic.SrcFiltergraph: requires that the walk leaves the codecs, which no check of the program ensures.
- Topology.Building.SchConnect: requires what the function asserts; growing of arrays and memory failure are not modelled.
- Handoff.HandoffDelivers: counts as sent what `mux_queue_packet` did not refuse; `FinishLostIff` says what becomes of a refused finish, and a refused packet is the caller's error.
- EndTimestamp.OneTokenWhileWaiting: is for one decoder, since the demuxer waits for them one by one; `MispairedIff` has the case of packets without data.
- Waiter.NoLostWakeUp: is for one waiter, since each has its own lock and condition variable.
- FinishFanout.DemuxSend: takes the answers of the queues as given; it states what is issued to a destination, not what is delivered, and copying packets is assumed to succeed.
- FinishFanout.EncSend: the sync queues that encoders may send into are not modelled.
- Outputs of filtergraphs have one destination and no finished flag; their sends are not modelled.
- Binding and removing filtergraphs (`sch_remove_filtergraph`), the heartbeat of subtitles and commands to filtergraphs.
- FrameRateLaws.CfrDriftBound: leaves out a drop threshold and counts skipped as too large, for which no bound holds; so does `VscfrDriftBound`. Rounding of doubles is not modelled.
- FrameRateLaws.Conservation: is before the end of the stream, for a consumer that takes every frame, and without counts skipped as too large; for these `StepBalanceIff` has the exact condition.
- The conversion of filter timestamps to output frames, and the choice of the sync method.
- StreamLoop.Demuxer.TsFixup: is in one time base, and leaves out wrap correction, the start offset and scale (packets come with them applied), and the correction of discontinuities that follows.
- StreamLoop.Demuxer.InputThread: is for a finite number of loops and without errors in sending; `Offset` and `PassesFollow` hold for any number of passes.
- MuxTimestamps.MuxStream.MuxFixupTs: begins with timestamps in the stream's time base; `av_rescale_delta` for copied audio is a library call, of which only that pts becomes dts is kept.
- AudioTimebase.DecoderPriv.AudioTsProcess: what `av_rescale_delta` makes of a frame's own timestamp is a parameter, and a timestamp already in the clock's time base is assumed to be kept; the reset of its state at a gap is not modelled.
- The frame duration estimates for video, and multiview output of decoders.
- Specifiers.StreamSpecifierParse: the token of metadata and the names of dispositions are read by the library and are parameters; `long` has 64 bits.
- Specifiers.TextReads: leaves out metadata components, whose end the library decides; `MetaMeans` has them for a library that reads a key up to the colon.
- Matching.StreamSpecifierMatch: the lookup of metadata is a function of the stream, and codec parameters are a yes or no.
- Codec, filter, muxer and hardware calls, file and network I/O, logging, options, statistics and terminal handling; the wrapper application's configuration in `src/`.
- MuxTimestamps.AcceptedIff: is for packets that come with known, ordered timestamps; for others the guess depends on what was written before.
- Schedule.Scheduler.DemuxDone: is given the destinations that the demuxer has not finished before, which `FinishFanout` keeps track of, and the marks that are refused, which `Handoff` does.
