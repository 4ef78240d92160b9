# quicer: verification of the stream data path and the handle lifecycle

quicer binds MsQuic to Erlang. This project models, in Dafny, how the bytes of a stream
travel from the MsQuic callback to the process that owns the stream, and how listener,
connection and stream handles live and die. It proves what the code promises: bytes arrive
once, in order and correctly labelled while modes and owners change, no wake-up is lost, and
every handle is released exactly once. Where a promise does not hold of the code, the project
states the exact condition under which it does and exhibits a run that breaks it.

Verify everything with `dafny verify dfyconfig.toml`.

## Modules

| module | models |
|---|---|
| `Bytes`, `Runs`, `Places` | what the others share: slices of bytes, runs of a state machine, and items that travel through a row of places without changing their order |
| `FpBuffer` | the reassembly buffer of `src/quicer.erl`: insertion, popping, fast path, merge |
| `Reassembly` | whole runs of that buffer and of the data clauses of `quicer_stream:handle_info` |
| `RecvMode` | `active`, `active_count`, `set_owner_recv_mode`, and the object that holds them |
| `Receive` | the receive path as a state machine: RECEIVE events, `recv`, `setopt(active, _)`, with MsQuic as environment |
| `StreamCtx` | the stream context as a mutable object; each C function proved against a step of `Receive` |
| `Liveness` | why what is served fairly comes to an end: shared by `PassiveReader`, `ActiveFlow` and `HandoffEnds` |
| `ActiveFlow` | whether data keeps flowing in the active modes, under every fair schedule |
| `PassiveReader` | a process in `do_recv`, its mailbox, and the stream: what calls return and drop, and that they return under every fair schedule |
| `Messages` | the data messages of a stream, and when they carry its bytes without a gap |
| `Handoff` | `handoff_stream` against the MsQuic callback and the new owner, which may die at any time |
| `HandoffEnds` | that a handoff comes to an end under every fair schedule, and every message to an owner |
| `HandoffEvents` | the events without data during a handoff, and what the call returns |
| `EndToEnd` | the receive path, the handoff and the reassembly buffer together |
| `Listener` | start, stop, close, owner death, STOP_COMPLETE and deallocation of a listener |
| `Refs` | reference counts of the server configuration, its connections and their streams |
| `Release` | when those contexts are freed, and what keeps them for ever |
| `Reachability` | those counts against a collector that knows who holds what |
| `Acceptors` | ACCEPTOR records between queue, owner and free, over the life of a connection |
| `Ownership` | those records against a plain queue of processes: who gets which stream |
| `Monitors` | who is monitored as the owner, and whose death shuts a connection down |

The concurrent parts are state machines: a step is one critical section of the lock the C
code holds, one callback, or one message sent or taken; a run is any sequence of steps
(`Runs.Trace`); a step that is not possible changes nothing. In-place code is modelled twice: as a step
function, about which the theorems are proved, and as a class whose methods are proved
equal to it. MsQuic and the Erlang runtime appear as environment steps: MsQuic holds the
unconsumed bytes, shows a prefix of them, and drops what is completed; the runtime delivers
messages, keeps terms alive and fires monitors.

## What does not hold, and exactly when

* **Stale reads.** `setopt(Stream, active, V)` with V other than `false`, while a passive
  receive is outstanding, gives the bytes back to MsQuic but leaves `is_recv_pending` and the
  buffers as they were; so does a call that fails. A later read in passive mode, before a new
  receive arrives, follows pointers into memory that is MsQuic's again. Nothing is said about
  what it returns: once MsQuic has reused the memory it is anything of that length
  (`Receive.RevokedReadReadsAnything`); before, it is the old bytes once more. Delivery is
  exact if and only if no such read happens (`Receive.DeliversExactlyPrefix`).
* **Stalled streams.** A passive read that takes less than it was shown leaves receiving
  disabled and the buffer empty. A following `setopt(Stream, active, true)` succeeds but does
  not enable receiving, which it does only for a buffer that is not empty
  (`ActiveFlow.LeavingPassiveEnables`); the remaining bytes are never sent in that mode
  (`ActiveFlow.PartialReadStalls`). `Receive.EnabledIff` says exactly when receiving is
  enabled, and when it is, everything that arrives is sent (`ActiveFlow.ActiveSendsAll`).
* **A cancelled budget.** `setopt(Stream, active, N)` with N = -`active_count`, also 0 with no
  budget, leaves MULTI with nothing to spend; the next data message violates the assertion,
  or wraps to 65535 (`RecvMode.SetModeGood`).
* **Orphan streams** inherit the connection owner's budget although they are passive, so a
  first {active, N} yields more than N messages (`RecvMode.OrphanBudget`).
* **Failed reads** lose data. `do_recv` reads in pieces until it has what was asked for; the
  branches that end it with an error drop the pieces. `recv(Stream, Count)` followed by the
  peer's shutdown after fewer bytes returns an error, and those bytes are gone
  (`PassiveReader.PartialReadIsLost`). After every run the calls have returned exactly the
  bytes taken from the stream if and only if no failing call had read any
  (`PassiveReader.ReturnedIffNoneDropped`); calls with Count = 0 never drop any
  (`PassiveReader.ZeroCountsDropNothing`).
* **Failed handoffs** lose data. A DOWN is queued behind the messages already in the mailbox,
  so `handoff_stream` passes these on to a dead process before it returns
  `{error, owner_down}` and leaves the stream with the old owner. What is lost is exactly what
  was passed on (`Handoff.FailedHandoffLosesForwarded`, which also covers a new owner that
  dies between the last message and the transfer, where the call returns `ok`). Once the new
  owner is dead while messages are forwarded, nothing is lost if and only if no data was
  passed on before and none is queued ahead of the DOWN (`Handoff.LossIsSealed`);
  `Handoff.FailedHandoffLosesData` is such a run, for any bytes.
* **Handoff** restores the mode that `getopt` read, if and only if `setopt` can carry it: a
  count outside MULTI, or above 32767, is lost (`Handoff.HandoffRestoresMode`). A message sent between `getopt` and
  `setopt(false)` in `once` or {active, N} is forgotten (`Handoff.WindowMessageIsForgotten`).
* **After a handoff** at a positive offset, a `quicer_stream` process with a reassembly buffer
  never delivers anything: the buffer always starts at 0 (`EndToEnd.BufferAfterHandoff`).
* **Listeners.** The comment in `resource_listener_down_callback` says that deallocation
  closes the listener. It cannot: the own reference is released only by a close. Once no term
  is left, the listener can be deallocated if and only if it was closed
  (`Listener.FreedOnlyAfterClose`).
* **Untold owners.** If a new-connection or new-stream message cannot be sent, its context is
  never freed, whatever follows: the term made for the message stays in the context's own
  environment, or nobody is left to release the own reference. A stream then keeps its
  connection, and a connection the configuration (`Release.UntoldConnStays`,
  `Release.UntoldStreamStays`). After any run everything can still be released if and only if
  every owner could be told (`Release.ReleasedIffTold`).
* **Late acceptors.** An acceptor queued after SHUTDOWN_COMPLETE is neither served nor told
  (`Acceptors.LateAcceptorIsForgotten`): while a connection is down, an acceptor still waits if
  and only if it came after the shutdown (`Acceptors.WaitsForEverIffLate`).
* **Owner death.** An owner that dies before CONNECTED and was never monitored does not take
  the connection down (`Monitors.OwnerDeathShuts`). Nor does only the owner's death take it
  down: the down callback runs without the lock, and during a `controlling_process` call it
  can find the process it reports in the owner field, although the call will be refused. A
  call can go wrong in this way if and only if the process it hands to is still monitored or
  a report of its death is due (`Monitors.CallCanGoWrongIff`). That is the rule for clients:
  `async_connect3` and CONNECTED both set a monitor, and the first is never cancelled
  (`Monitors.ClientIsMonitoredTwice`, `Monitors.StrayOutlivesTransfer`); a transfer before
  CONNECTED does the same on a server. Handing over only to processes that were never
  monitored before is safe (`Monitors.NewOwnersAreSafe`), and so is every callback that runs
  while no call is in progress (`Monitors.IdleCallbackIsRight`).
* **Overlapping fragments.** The reassembly buffer accepts a fragment that overlaps another
  one ahead of the expected offset, and fails later, on one that may overlap nothing
  (`Reassembly.InnocentFragmentCrashes`). For every buffer that updates can lead to, an update
  fails if and only if its fragment starts behind the next offset, or is the expected one and
  what follows it runs into a buffered fragment (`FpBuffer.CrashIff`); over whole runs,
  `Reassembly.NextFragmentBreaks` and `Reassembly.CompleteRunFailsIff`. The receive path
  sends no such fragments, and no empty ones (`EndToEnd.RunConsecutive`,
  `EndToEnd.DataNotEmpty`).

## Model

| member | source | states |
|---|---|---|
| FpBuffer.AddElement | src/quicer.erl:1092-1093 | inserting keeps every element, adds exactly the new one, and once; an ordset stays an ordset |
| FpBuffer.Defrag | src/quicer.erl:1097-1108 | what is popped followed by what is kept is the input; the popped part is gap-free from the offset, the new offset is its end, and the kept head lies beyond it |
| FpBuffer.FastPathAgrees | src/quicer.erl:1089-1095 | on every input the fast path returns what insert-then-defrag returns |
| FpBuffer.DefragTotal | src/quicer.erl:1101-1108 | on a sorted buffer that does not start behind the offset some clause matches at every recursion |
| FpBuffer.DefragFailsIff | src/quicer.erl:1097-1108 | on any list at all, some recursion finds no clause if and only if the gap-free chain from the offset leads to a fragment that starts behind its end |
| FpBuffer.CrashIff | src/quicer.erl:1087-1108 | for every buffer that updates can lead to and any new fragment, an update fails if and only if the fragment starts behind the next offset, or starts there and what follows it collides |
| FpBuffer.UpdateKeepsValid | src/quicer.erl:1087-1108 | every update that does not fail leaves an ordset of fragments ahead of the next offset, emits a gap-free chain up to it, and forgets or invents no fragment; overlaps allowed |
| FpBuffer.BorBit | src/quicer.erl:1075-1079 | `bor` sets a bit exactly when one operand has it |
| FpBuffer.MergedFlags | src/quicer.erl:1075-1079 | a flag bit of the merge is set exactly when some merged fragment carries it |
| Reassembly.NewIsAhead | src/quicer.erl:1087-1095 | a fragment that overlaps nothing received cannot start behind the next offset |
| Reassembly.UpdateConsistent | src/quicer.erl:1087-1108 | an update with such a fragment succeeds, keeps the buffer valid, extends the gap-free output, and emitted plus buffered fragments are those received |
| Reassembly.FeedInvariant | src/quicer.erl:1081-1108 | after any run no update has failed, the buffer is sorted beyond `next_offset`, output and buffer are the received fragments, all below `next_offset` is covered and `next_offset` itself is not |
| Reassembly.AnyRunSplits | src/quicer.erl:1081-1108 | after any run that has not failed, overlapping or repeated fragments included, the output is a gap-free chain, and output and buffer are the received fragments, split at `next_offset` |
| Reassembly.NextFragmentBreaks | src/quicer.erl:1087-1108 | after any run of any fragments, any next one breaks the buffer if and only if it starts behind the next offset, or fills the gap and what follows collides |
| Reassembly.OverlapIsNeverPassed | src/quicer.erl:1087-1108 | a run that has accepted two different overlapping fragments never gets past either of them without failing |
| Reassembly.InnocentFragmentCrashes | src/quicer.erl:1087-1108 | any two overlapping fragments ahead are accepted, and the fragment that fills the gap before them fails although it overlaps neither |
| Reassembly.CompleteRunFailsIff | src/quicer.erl:1087-1108 | different fragments that leave no gap have broken the buffer, whatever their order, if and only if two of them overlap |
| Reassembly.ChainBytes | src/quicer.erl:1075-1079 | merging a gap-free list of stream fragments yields that slice of the stream and its length |
| Reassembly.PoppedStartsHere | src/quicer_stream.erl:353-369 | an update emits data exactly when its fragment is the expected one, and that fragment comes first, so the untouched offset in Props is right |
| Reassembly.DisabledPassesThrough | src/quicer_stream.erl:345-352 | with the buffer disabled the callback gets every message unchanged, in order of arrival, and nothing fails |
| Reassembly.DeliveryLabel | src/quicer_stream.erl:353-369 | a callback gets the next bytes of the stream, their true offset and their number, and a message that delivers nothing leaves `next_offset` where it was |
| Reassembly.DeliveryFlags | src/quicer_stream.erl:353-369 | a flag bit reported to the callback is set exactly when some fragment merged into the call carried it |
| Reassembly.FlagsDelivered | src/quicer_stream.erl:353-369 | over every run that leaves the buffer empty, the callback has seen a flag bit if and only if some message carried it |
| Reassembly.DeliversPrefix | src/quicer_stream.erl:353-369 | over every run of messages the callback has seen exactly the stream up to `next_offset`, in order, every call correctly labelled, and the process has not crashed |
| Reassembly.AnyOrderDelivers | src/quicer.erl:1069-1108 | for every cut of a stream into non-empty pieces and every order of their arrival, the callback gets exactly the stream and the buffer ends empty at its end |
| RecvMode.SetModeGood | c_src/quicer_queue.c:111-155 | setopt keeps the budget in range and positive exactly in MULTI, if and only if it does not cancel the budget exactly; if it does, the next message violates the assertion |
| RecvMode.BudgetAdds | c_src/quicer_queue.c:127-148 | an integer is accepted exactly when it and the sum fit an int16_t; the budget becomes the sum, never below zero, and MULTI is left exactly when the sum is negative |
| RecvMode.SetModeIsRead | c_src/quicer_queue.c:111-155 | from every owner record, `false`, `true` and `once` are accepted, are what getopt then returns, and leave no budget; an accepted integer is read back as the new budget, or as `false` if that is negative; a refused call changes nothing |
| RecvMode.BudgetConserved | c_src/quicer_stream.c:948-976 | over any run of setopt calls and messages the budget is what was granted less what was forfeited and spent, and no decrement wraps |
| RecvMode.ReadSetRestores | c_src/quicer_config.c:1194-1212 | reading the mode, setting false and setting the value read restores mode and count, if and only if the count belongs to the mode |
| RecvMode.OrphanBudget | c_src/quicer_connection.c:1289-1293 | an orphan's first {active, N} grants exactly N messages if and only if the connection owner had no budget |
| RecvMode.OrphanIsPassive | c_src/quicer_connection.c:1289-1293 | an orphan is read back as `false`, whatever the mode of the connection owner |
| RecvMode.Acceptor.SetRecvMode | c_src/quicer_queue.c:111-155 | the in-place update and its result are those of the mode function, on every term |
| RecvMode.Acceptor.SpendMessage | c_src/quicer_stream.c:948-976 | spending one message in place leaves the mode, the 16-bit count and the passive report of the budget function |
| Receive.RunInv | c_src/quicer_stream.c:702-989 | over every run, bytes on loan are the next unconsumed ones, taken in passive mode and marked pending |
| Receive.ReadAnswers | c_src/quicer_stream.c:702-789 | only recv is answered, with exactly one answer; it is einval, and changes nothing, exactly when getopt does not return `false`, and bytes exactly when a passive receive is ready |
| Receive.WaitingIffUnanswered | c_src/quicer_stream.c:744-781 | over every run each recv has one answer, and a reader is registered if and only if the last passive read got no bytes |
| Receive.BufferIsLatest | c_src/quicer_stream.c:876-894 | over every run the buffer has the length that the latest RECEIVE showed, also if that is 0, until a read is given bytes |
| Receive.EnabledIff | c_src/quicer_stream.c:702-989 | over every run receiving is enabled in MsQuic if and only if, since the last `passive` message or partial read, there was a not_ready or a setopt that found a buffer |
| Receive.LeavingPassiveGivesBack | c_src/quicer_config.c:1266-1277 | a setopt other than `false`, with a receive outstanding, gives its bytes back unread and enables receiving, even if it is refused |
| Receive.StepDelivers | c_src/quicer_stream.c:702-989 | one step delivers exactly the bytes it consumes, except a read of a revoked receive, which consumes nothing and returns something |
| Receive.TrackStep | c_src/quicer_config.c:1262-1285 | `is_recv_pending` without a loan means that a setopt has revoked the receive, and nothing else |
| Receive.DeliversExactlyPrefix | c_src/quicer_stream.c:702-989 | over every run, the bytes sent and returned are exactly the consumed prefix of the peer's stream if and only if no revoked receive is read; otherwise they are more |
| Receive.NoRevocationNoHazard | c_src/quicer_config.c:1262-1285 | a run that sets only false while a receive is outstanding never reads a revoked one |
| Receive.RevokedReadReadsAnything | c_src/quicer_config.c:1266-1277 | from every state with an outstanding receive, `once`, its message and a read: the read can return any bytes of that length, since MsQuic owns the memory |
| Receive.FailedSetRepeats | c_src/quicer_config.c:1266-1281 | after a setopt that fails with param_error, the outstanding bytes can be read twice |
| Receive.MessagesLabelled | c_src/quicer_stream.c:929-946 | in every run without such a read, each data message carries the number of bytes delivered before it as its offset |
| Receive.GrantIsExact | c_src/quicer_stream.c:929-986 | until the next setopt, {active, N} yields exactly N data messages, then one `passive`, then nothing; `once` one message and no `passive`; `true` one per receive; `false` none |
| Receive.GrantAfterSet | c_src/quicer_queue.c:111-155 | after any setopt in any state, the messages until the next one are exactly those the value promises: all, one, the new budget and then one `passive`, or none; a refused call leaves what was granted |
| Receive.BudgetOfRun | c_src/quicer_stream.c:948-976 | over every run of a stream in which no setopt cancels the budget exactly, it stays within 0..32767, is positive exactly in MULTI, and agrees with the ledger |
| StreamCtx.FlushBuffers | c_src/quicer_stream.c:825-863 | terminates, never indexes past the buffers, and fills a new binary with exactly the first requested bytes of their concatenation, or with all for 0 |
| StreamCtx.CopyMemory | c_src/quicer_stream.c:847-860 | changes exactly the n bytes from the given place on |
| StreamCtx.MsQuicStream.ReceiveComplete | c_src/quicer_stream.c:755-772 | drops the completed bytes, ends the loan, disables receiving when partial, and has no effect without a loan |
| StreamCtx.Stream.ResetRecv | c_src/quicer_stream.c:1197-1207 | forgets buffers and pending flag, and keeps the waiting flag |
| StreamCtx.Stream.HandleRecv | c_src/quicer_stream.c:865-989 | for the at most two buffers that MsQuic shows and any flags, context, owner, MsQuic and messages end as in the RECEIVE step; an empty receive sends nothing; the stream is shut down exactly when a `continue` finds its owner dead |
| StreamCtx.Stream.Recv | c_src/quicer_stream.c:702-789 | context, MsQuic and result end as in the read step, for every requested size |
| StreamCtx.Stream.SetOpt | c_src/quicer_config.c:1262-1285 | context, owner and MsQuic end as in the setopt step, also when the value is refused |
| StreamCtx.Stream.GetOpt | c_src/quicer_config.c:1194-1212 | returns the option value of the owner's mode and changes nothing |
| ActiveFlow.EagerIsFair | c_src/quicer_stream.c:865-989 | fair schedules exist from every state |
| ActiveFlow.ActiveSendsAll | c_src/quicer_stream.c:929-978 | with `true` and receiving enabled, it stays enabled, and under every fair schedule without another setopt all bytes that have arrived are sent, in order |
| ActiveFlow.GrantIsUsed | c_src/quicer_stream.c:948-976 | with `once` or {active, N} all are sent, or the grant is used up |
| ActiveFlow.GivenBackIsSent | c_src/quicer_config.c:1266-1277 | bytes shown to a passive stream and not read when it becomes active are sent after all, under every fair schedule |
| ActiveFlow.LeavingPassiveEnables | c_src/quicer_config.c:1266-1277 | after a setopt on a passive stream receiving is enabled if and only if it was before or the buffer is not empty |
| ActiveFlow.PartialReadStalls | c_src/quicer_config.c:1262-1285 | after a partial read and a setopt of `true` or `once`, in every run in which MsQuic shows bytes only while enabled and the mode does not become passive, nothing more is sent although bytes are there |
| PassiveReader.ReadPassive | c_src/quicer_stream.c:735-786 | a passive read returns the next bytes, as many as asked for or all that are shown, and never none; otherwise it registers the reader and enables receiving; either way the loan ends |
| PassiveReader.IndicatePassive | c_src/quicer_stream.c:903-928 | a passive RECEIVE consumes nothing and sends a continue exactly when a reader is registered and bytes are shown |
| PassiveReader.RecvIsSound | src/quicer.erl:695-718 | over every run with a passive owner, whatever its count, a blocked reader is registered and has a continue coming, a successful recv returns exactly the next Count bytes (one non-empty chunk for 0), and the case expression never lacks a clause |
| PassiveReader.FailingCallDrops | src/quicer.erl:699-709 | a call that fails drops exactly the bytes it has read since it began, and takes no more from the stream |
| PassiveReader.CallFailsIff | src/quicer.erl:695-709 | a call fails exactly when it is woken by a message other than continue, or must wait and receiving cannot be enabled |
| PassiveReader.AnswersTheCall | src/quicer.erl:695-718 | over every run, what a recv returns was asked for with its own Count, from where the stream then stood |
| PassiveReader.ReturnedIffNoneDropped | src/quicer.erl:695-718 | over every run, once no call is in progress, returned and dropped bytes are those taken from the stream, and the returned ones are exactly these, in order, if and only if none was dropped |
| PassiveReader.ZeroCountsDropNothing | src/quicer.erl:695-718 | over every run in which all calls have Count = 0, nothing is dropped, however they end |
| PassiveReader.PartialReadIsLost | src/quicer.erl:699-709 | for any bytes and any larger Count, the run in which the peer then ends the stream returns nothing and drops them all |
| PassiveReader.StepMovesOn | src/quicer.erl:695-718 | whatever happens during a call, it returns, or gets closer to returning, or nothing it depends on changes; and it does not stand still when the action it waits for is taken |
| PassiveReader.RoundRobinIsFair | src/quicer.erl:695-718 | fair schedules exist from every state: the three actions in turn |
| PassiveReader.RecvCompletes | src/quicer.erl:695-718 | under every fair schedule, once enough bytes have arrived the call returns exactly the next ones, as many as asked for, whatever the chunks and however many stale continues wait |
| Handoff.CallbackSends | c_src/quicer_stream.c:865-989 | a RECEIVE sends one message with exactly the bytes it consumes, their offset and flags, and none in passive mode |
| Places.MovedKeeps | src/quicer.erl:1004-1021 | moving messages between places, past empty places only, keeps each of them once and in order |
| Handoff.AnyStreamStarts | src/quicer.erl:1004-1153 | the handoff results apply from every state of a stream, in any mode and after any bytes, whether these were sent or read |
| Handoff.Simulate | src/quicer.erl:1004-1153 | each step of callback, old owner and new owner, setopt calls and the new owner's death included, is such a move and keeps the ownership rules of the phases |
| Handoff.NothingVanishes | src/quicer.erl:1004-1153 | in every interleaving, also when the new owner dies, each data message sent is in exactly one place, the places hold them in stream order, and they carry exactly the bytes consumed since the start of the run; while the new owner lives none is lost |
| Handoff.HandoffPreservesOrder | src/quicer.erl:1004-1153 | in every interleaving in which the new owner lives, what it has handled and what waits for it are the correctly labelled messages of the stream from where the old owner stopped, without gap or repeat, and nothing is left behind |
| Handoff.FailedHandoffLosesForwarded | src/quicer.erl:1138-1153 | in every run in which the new owner has died and the old one keeps the stream, exactly the forwarded messages are lost, the old owner has or gets all others, and these are all the bytes consumed if and only if nothing was forwarded |
| Handoff.LossIsSealed | src/quicer.erl:1138-1153 | once the new owner is dead during forwarding, in every continuation the handoff fails and loses what was forwarded before and what is queued ahead of DOWN: nothing if and only if there is neither |
| Handoff.FailedHandoffLosesData | src/quicer.erl:1138-1153 | from every active stream at rest, a run, for any bytes, in which the handoff fails and the old owner, who keeps the stream, never gets them |
| Handoff.OldOwnerStops | src/quicer.erl:1007-1021 | from getopt on, the old owner handles no more data |
| Handoff.SimulateTakesDone | src/quicer_stream.erl:160-177 | taking `handoff_done` out of the middle of the mailbox leaves the data in it, in order |
| Handoff.HandoffRestoresMode | src/quicer.erl:1008-1021 | from any state, whether it succeeds or finds the new owner dead, a handoff ends with exactly the mode and budget that getopt read if and only if the count belongs to the mode and fits an int16_t, unless the new owner sets one |
| Handoff.WindowMessageIsForgotten | src/quicer.erl:1008-1010 | in every run between getopt and setopt(false), the owner record is still the one read if and only if its mode is passive or active, or no receive with data came in between |
| HandoffEnds.RoundRobinIsFair | src/quicer.erl:1004-1153 | fair schedules exist from every state: the moves of the two owners in turn |
| HandoffEnds.HandoffEnds | src/quicer.erl:1004-1153 | under every fair schedule with finitely many events from MsQuic, a handoff that has begun ends, also when the new owner dies, and every message is handled; while the new owner lives, the two owners have then handled exactly the bytes consumed |
| HandoffEvents.NoEventVanishes | src/quicer.erl:1138-1153 | in every interleaving each stream event without data has been handled, waits in a mailbox, or was lost with a dead new owner, exactly once; none is lost while that lives |
| HandoffEvents.OkIffDownNotFound | src/quicer.erl:1004-1021 | the call returns ok if and only if it has not come across the DOWN message of the new owner |
| EndToEnd.DataNotEmpty | c_src/quicer_stream.c:891-894 | no run sends an empty data message |
| EndToEnd.NoAnswersNoHazard | c_src/quicer_stream.c:702-989 | a run in which recv/2 returns no bytes has no stale read |
| EndToEnd.RunConsecutive | c_src/quicer_stream.c:929-978 | the data messages of such a run are consecutive non-empty pieces of the consumed bytes |
| EndToEnd.StreamReachesCallback | src/quicer_stream.erl:353-369 | over every such run, in whatever order its messages are handled, the callback gets exactly the bytes MsQuic has consumed, in order, and sees exactly the flags that came with them |
| EndToEnd.BufferAfterHandoff | src/quicer_stream.erl:499-503 | in every run of a handoff, the new owner's buffer delivers all the messages it has handled if it takes over at byte 0 of the stream, and nothing at all otherwise; without a buffer they pass unchanged |
| Listener.NextInv | c_src/quicer_listener.c:407-547 | every step keeps a handle in one of four stages: open, closing, past ListenerClose, closed; with running and is_stopped opposite until ListenerClose |
| Listener.ClosedExactlyOnce | c_src/quicer_listener.c:197-229 | in all interleavings destroy_l_ctx runs at most once, and once when a close has completed; ListenerClose is called at most once; the assertion in STOP_COMPLETE holds; memory is freed only after all that |
| Listener.RunningIffStarted | c_src/quicer_listener.c:446-547 | over every run that leaves the listener open, it is running, and is_stopped false, if and only if the latest of successful start, stop and owner death was a start, or there was none |
| Listener.ClosedIffSomeClose | c_src/quicer_listener.c:407-444 | over every run a listener is closed if and only if some process that held it called close |
| Listener.EveryStopIsReported | c_src/quicer_listener.c:197-229 | over every run the owner is sent as many stopped messages as the listener went from running to stopped |
| Listener.TermsAreCounted | c_src/quicer_listener.c:197-229 | over every run the live terms are the one of listen, one per stopped report, and those copied less those dropped |
| Listener.CallsEnd | c_src/quicer_listener.c:430-444 | after any run a close call under way ends with ListenerClose called and the own reference released, by one of the two paths |
| Listener.FreedOnlyAfterClose | c_src/quicer_nif.c:812-842 | deallocation finds the listener closed and never calls ListenerClose; once no term is left, no reference is left if and only if the listener was closed |
| Listener.ListenerCtx.CloseListener | c_src/quicer_listener.c:407-444 | run alone, the whole close equals its three steps, and is refused exactly when already closed |
| Refs.ReleaseConnInv | c_src/quicer_nif.c:844-863 | releasing one reference owed by a connection keeps all counters exact; if it was the last, no stream is left and the configuration loses one |
| Refs.ReleaseStrmInv | c_src/quicer_nif.c:882-898 | the same for a stream, whose deallocation then releases its connection |
| Refs.NewConnInv | c_src/quicer_listener.c:41-195 | accepting, finding no acceptor, and failing to tell the owner, whose term then stays in the environment of the context, all leave every counter exact |
| Refs.ConnShutdownInv | c_src/quicer_connection.c:427-435 | SHUTDOWN_COMPLETE closes the connection before it gives up the connection's own reference |
| Refs.PeerStreamInv | c_src/quicer_connection.c:1252-1325 | a peer's stream keeps its connection, also when the owner cannot be told |
| Refs.LocalStreamInv | c_src/quicer_stream.c:243-367 | starting a stream, or failing to before its handle exists, leaves every counter exact |
| Refs.FailedStartIsUndone | c_src/quicer_stream.c:363-367 | failing to leaves everything as it was |
| Refs.StrmShutdownInv | c_src/quicer_stream.c:109-142 | a stream's end clears its environment and releases its handle term and its own reference, each once |
| Refs.CountsAreExact | c_src/quicer_ctx.c:109-239 | over all runs a connection's count is its own reference, its terms, also one in its own environment, and its live streams; the deallocation assertions hold; live streams have live connections and live connections a live configuration, which lives exactly as long as the listener or a connection |
| Release.GoneIffNobodyHolds | c_src/quicer_nif.c:844-898 | after any run everything is freed if and only if neither the listener nor MsQuic nor a process nor an environment holds anything: no cycle keeps a context alive |
| Release.UntoldStreamStays | c_src/quicer_connection.c:1313-1325 | a stream whose owner could not be told is never freed, in any continuation, nor are its connection and the configuration |
| Release.UntoldConnStays | c_src/quicer_listener.c:41-195 | a connection whose owner could not be told is never freed, in any continuation, nor is the configuration |
| Release.ReleasedIffTold | c_src/quicer_ctx.c:109-239 | after any run, some continuation frees everything if and only if every owner could be told |
| Reachability.CountingIsCollecting | c_src/quicer_ctx.c:109-239 | over every run the contexts alive and their contents are those of a server side without counters that drops, after every step, exactly what nobody holds |
| Refs.Contexts.ReleaseConfigCtx | c_src/quicer_ctx.c:192-196 | the in-place release equals the step |
| Refs.Contexts.ReleaseConnCtx | c_src/quicer_nif.c:844-863 | the in-place release with its deallocation callback equals the step |
| Refs.Contexts.ReleaseStrmCtx | c_src/quicer_nif.c:882-898 | the in-place release, which may free stream, connection and configuration, equals the step |
| Refs.Contexts.OnNewConnection | c_src/quicer_listener.c:41-195 | the callback in place equals the step, for each of its three endings, and keeps the counters exact |
| Refs.Contexts.OnConnShutdownComplete | c_src/quicer_connection.c:427-435 | the callback in place equals the step and keeps the counters exact |
| Acceptors.AcceptInv | c_src/quicer_stream.c:369-417 | a new acceptor is queued last or freed at once, and every record stays in one place |
| Acceptors.PeerHitInv | c_src/quicer_connection.c:1274-1299 | handing the first acceptor to a stream keeps every record in one place |
| Acceptors.PeerMissInv | c_src/quicer_connection.c:1274-1299 | so does the copy made for an orphan, which nobody shares |
| Acceptors.RunInv | c_src/quicer_queue.c:44-103 | over all runs: queue, freed and told records have no repeats, no two contexts share one, and those that entered the queue are those that left it followed by those waiting |
| Acceptors.LocalStreamInv | c_src/quicer_stream.c:243-367 | the record of a locally started stream is owned by that stream, or freed with it when the start fails |
| Acceptors.EveryRecordHasOnePlace | c_src/quicer_queue.c:44-109 | over all runs every allocated record is waiting, owned by exactly one context, or freed exactly once, and never two of these; transfers change none of it |
| Acceptors.NothingLeaks | c_src/quicer_nif.c:844-863 | once the connection is deallocated, exactly the allocated records have been freed, each once |
| Acceptors.OldestAcceptorFirst | c_src/quicer_connection.c:1274-1299 | a peer stream goes to the acceptor that has waited longest; only if none waits does it get a record of its own, naming the connection's current owner |
| Acceptors.ShutdownTellsAll | c_src/quicer_connection.c:1202-1212 | shutdown tells exactly the waiting acceptors, in order and once, frees each for the first time, and leaves none waiting |
| Acceptors.LateAcceptorIsForgotten | c_src/quicer_stream.c:369-417 | an acceptor queued after the shutdown is never told nor given a stream, whatever follows; it waits exactly until deallocation frees it |
| Acceptors.WaitsForEverIffLate | c_src/quicer_connection.c:1202-1212 | after any run and in any continuation, while the connection is down and not deallocated, an acceptor waits if and only if it was queued after the shutdown; otherwise it has left the queue |
| Ownership.RecordsArePids | c_src/quicer_queue.c:44-109 | over every run, transfers included, waiting processes, owners of streams and connection, and those told are what the calls alone say, without records |
| Ownership.CallersInOrder | c_src/quicer_stream.c:369-417 | until deallocation the waiting processes are the callers of accept from the first not served on, in the order of their calls |
| Ownership.StreamGoesToCaller | c_src/quicer_connection.c:1274-1299 | the next peer stream belongs to the next caller of accept, and to the connection's current owner only if none is left |
| Acceptors.QuicerConnCTX.constructor | c_src/quicer_ctx.c:109-133 | a new context has an empty queue and one record, its owner |
| Acceptors.QuicerConnCTX.Enqueue | c_src/quicer_queue.c:58-66 | the record goes to the tail |
| Acceptors.QuicerConnCTX.Dequeue | c_src/quicer_queue.c:68-86 | the head is taken, or nothing if the list is empty |
| Acceptors.QuicerConnCTX.AsyncAcceptStream | c_src/quicer_stream.c:369-417 | the call in place equals the accept step |
| Acceptors.QuicerConnCTX.PeerStreamStarted | c_src/quicer_connection.c:1252-1325 | the callback in place equals the peer-stream step |
| Acceptors.QuicerConnCTX.AsyncStartStream | c_src/quicer_stream.c:243-367 | allocation and, on failure, deallocation in place equal the local-stream step |
| Acceptors.QuicerConnCTX.ShutdownComplete | c_src/quicer_connection.c:1169-1214 | the draining loop ends with the whole queue told and freed, in order |
| Acceptors.QuicerConnCTX.StreamDealloc | c_src/quicer_nif.c:882-898 | frees the stream's record and no other |
| Acceptors.QuicerConnCTX.ConnDealloc | c_src/quicer_queue.c:44-56 | the destroying loop ends with the owner's record and the whole queue freed, nobody told |
| Monitors.ProceedInv | c_src/quicer_nif.c:1367-1399 | each step of a transfer keeps the settled owner guarded, from its start up to the point where the old monitor is cancelled and again from its end |
| Monitors.OrderlyIsSingle | c_src/quicer_nif.c:1367-1399 | over all interleavings in which no step monitors a live owner a second time there is at most one monitor, named by owner_mon and on the settled owner, and callbacks are due only for a dead owner |
| Monitors.DestroyedIsUnwatched | c_src/quicer_ctx.c:157-169 | in such runs destroying the context leaves no monitor |
| Monitors.ClientIsMonitoredTwice | c_src/quicer_connection.c:784-785 | a live client owner has two monitors after async_connect3 and CONNECTED, in either order |
| Monitors.OwnerIsGuarded | c_src/quicer_nif.c:1367-1399 | whenever the lock is free and a monitor was ever set, the owner is monitored if alive, and if dead its callback is due or has shut the connection; also after a refused transfer |
| Monitors.OwnerDeathShuts | c_src/quicer_connection.c:1078-1090 | once the due callbacks have run, a dead owner's connection is shut if and only if the owner was alive at CONNECTED or some monitor was set before |
| Monitors.OnlyTheOwnersDeathShuts | c_src/quicer_nif.c:865-880 | over every run, however many monitors there are, a connection has been shut under a live owner if and only if some callback fell into a transfer and found there, as the new owner, the process it reports |
| Monitors.IdleCallbackIsRight | c_src/quicer_nif.c:865-880 | after every run, a callback that runs while no transfer is under way shuts exactly when the process it reports is the owner, which is dead |
| Monitors.NewOwnersAreSafe | c_src/quicer_nif.c:1367-1399 | a run whose transfers never name a process that was monitored before, except the caller, shuts no connection under a live owner, on a client either |
| Monitors.CallCanGoWrongIff | c_src/quicer_nif.c:1367-1399 | a transfer started after any run can shut the connection under its live owner if and only if its target is still monitored or a report of its death is due |
| Monitors.StrayOutlivesTransfer | c_src/quicer_nif.c:1385-1389 | after any second monitor, handing over leaves the first on the former owner, and handing back can then shut the connection under its live owner |
| Monitors.RefusedRollsBack | c_src/quicer_nif.c:1387-1396 | a transfer to a dead process ends with the caller as owner, monitored again |
| Monitors.TransferOutcome | c_src/quicer_nif.c:1367-1399 | ownership moves if and only if the caller owns and the target lives; a caller that owns ends with a new monitor on whoever owns then, and the old one cancelled |
| Monitors.QuicerConnCTX.ConnectionControllingProcess | c_src/quicer_nif.c:1367-1399 | the call in place equals the transfer, with not_owner, owner_dead or ok in exactly the right cases |

## Left out

- MsQuic itself, TLS and certificates, sockets, registrations, tracing, datagrams: outside the bytes' path; MsQuic appears as environment steps only.
- Option parsing other than `active`, status and atom tables, address formatting, gen_server dispatch and callback returns: flat code, easy members.
- Client connect (`open_connectionX`, `async_connect3`), except for the monitor it sets, and a `listen2` that fails before it returns a handle: the counts are claimed for the server path and the listener for opened handles.
- Sending, and stream events other than receive, start, shutdown complete: they carry no received bytes. `Handoff` has them as opaque messages and claims nothing about their order; `HandoffEvents` counts them.
- Receive: a RECEIVE is allowed also while receiving is disabled, since disabling is asynchronous. Messages to a dead owner are not told apart; the StreamShutdown that follows a `continue` that cannot be sent is part of `StreamCtx.Stream.HandleRecv` only. The flags of a passive RECEIVE are dropped, as in the code.
- ActiveFlow: assumes only that MsQuic in the end shows bytes that it holds while receiving is enabled; `Receive` allows it to do so at other times too, since disabling is asynchronous.
- Receive.MessagesLabelled: only for runs without a stale read; after one, offsets still count what MsQuic consumed, which is no longer what was delivered.
- PassiveReader.RecvCompletes: assumes that enabling the stream succeeds and that no abort message comes; an abort ends the call with an error in `PassiveReader.Next`. Fair means that a NIF call under way is run, a queued message is taken and, while receiving is enabled, MsQuic shows bytes it holds.
- Handoff.HandoffPreservesOrder: says nothing once the new owner has died, where `Handoff.NothingVanishes` and `Handoff.FailedHandoffLosesForwarded` do; the death of the old owner is not a step, upon which the new owner in `wait_for_handoff` stops.
- Handoff: handing a stream to oneself; recv/2 within a run, which may start after any reads but has none; calls on the stream by processes other than its owner.
- HandoffEnds.HandoffEnds: assumes that from some point on MsQuic reports no more data and no other event; while events keep coming, `do_forward_stream_msgs` need not end.
- EndToEnd.StreamReachesCallback: the mailbox order is arbitrary rather than that of one owner; runs in which recv/2 returns bytes are excluded, since those bytes never become messages.
- Refs: the order of asynchronous deallocation; a callback runs at the release that reaches zero. A stream context whose owner could not be told keeps its own reference for ever, as in the code; what MsQuic does with its handle is not modelled.
- Release.ReleasedIffTold: says that everything can still be released, by MsQuic reporting the ends and the processes dropping their terms; whether they do is theirs.
- Acceptors: memory exhaustion, and the queue of the listener, which uses the same functions; a stream whose start fails after its handle exists counts as started, as in `Refs`.
- Monitors: a process inside controlling_process does not end before the call does; ConnectionShutdown is a flag; what MsQuic does with it is not modelled. Streams are covered as the runs without CONNECTED.
- FpBuffer.Before: Erlang's term order on buffered pairs is reduced to offset, size, flags and bytes; the flags and sizes are non-negative integers, so no other term classes occur.
- Acceptors, Listener, Refs: sequences, maps and counters stand for linked lists, resources and their counters; pointer aliasing is not modelled.
