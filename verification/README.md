# Lexaire: a verified model of its control core

Lexaire flies a drone from voice commands. A vision-language model (VLM) decides on tool calls, an orchestrator
dispatches them over a ZeroMQ request/reply socket, and a C++ flight bridge gates and executes them. This project
models the parts whose correctness depends on state, order and interleaving, and proves what they promise for every
input, every run and every interleaving. The VLM, PX4, the network and the operating system are unconstrained.

`dafny verify dfyconfig.toml` checks everything.

| file | what it models |
|---|---|
| `Messages.dfy` | values the services share |
| `CommandThreads.dfy`, `CommandAccounts.dfy`, `AbortBound.dfy`, `AbortWindow.dfy` | the orchestrator's command thread and main thread as small steps; what becomes of every command; how many tool calls can still go out once an abort is ready, and exactly when there is no bound |
| `Mission.dfy` | one voice command on the main thread, as objects updated in place: dispatch with the offline flag and the recycled REQ socket, batches, skip records, stuck detection, terminal tools |
| `SafetyGate.dfy`, `VehicleCommands.dfy` | the safety envelope, the argument readers and all tool handlers, over reals; which calls make the vehicle do what |
| `FlightBridge.dfy`, `BridgeScripts.dfy` | the bridge's latches: gate, dispatch, commit and the armed callback as atomic loads and stores; the script of each message |
| `RepLoop.dfy` | the bridge's request loop as the program runs it, refining the machine of `FlightBridge.dfy` and following one script per message |
| `System.dfy`, `AtMostOnce.dfy`, `Spoken.dfy` | orchestrator, network and bridge together: request/reply protocol, what is asked against what is done, and spoken authorisation end to end; the keyword search |
| `Watchdog.dfy` | the heartbeat watchdog loop against a declarative reading of tick traces |
| `Matcher.dfy`, `FramesetQueue.dfy` | the RGB/depth matcher's buffers as an object, and its drop-oldest output queue with a concurrent consumer |
| `TelemetryRing.dfy` | the pruned telemetry history |
| `PyJson.dfy`, `DecodedJson.dfy`, `Base64.dfy`, `Replay.dfy`, `ReplayFormat.dfy` | json.dumps/json.loads, what loads makes of UTF-8 text, base64, the replay recording file, and its format spelled out |
| `ShellQuote.dfy` | the deploy command builders and a POSIX shell tokenizer that reads them back |

Concurrent parts are state machines: a run is a list of steps, `After(steps)` is the state it leads to, and theorems
hold for every list of steps. Code that updates objects or variables step by step is imperative, proved against
specification functions or against the machine.

## Where the code does less than it seems to promise

* **Abort bound.** Once an abort has been drained, put and signalled, at most one more tool call goes out before an
  abort is sent, unless the main thread makes a *loose pass*: it goes past the queue check of its mission loop with
  the preempt event down (`AbortWindow.AtMostOneUnlessLoose`). From a loose pass on a batch of any length goes out
  (`AbortWindow.LoosePassLiftsTheBound`), so the bound holds exactly as long as there is none
  (`AbortWindow.BoundedExactlyUntilLoosePass`). It needs the queue to be empty while the abort is unsent, which is so
  only between the drain and the put of a further abort (`AbortWindow.LoosePassIsInADrain`); with no further abort
  received there is none, with one there can be (`AbortWindow.BoundedExactlyWithoutFurtherAborts`,
  `AbortWindow.SecondAbortLiftsTheBound`).
* **Reported end of a mission.** A bridge reply whose own error text is "timeout" ends the mission without raising the
  offline flag, so it is reported as `no_tool_calls` or `max_decisions`, never as `bridge_offline`; a mission whose
  last decision in the budget gets stuck or asks for no tool call is reported as `max_decisions`
  (`Mission.MisleadingEnds`). What each reported reason does say is `Mission.EndIsReported`.
* **Replay round trip.** A record comes back unchanged exactly when no string in it has a high surrogate directly
  followed by a low one; such a pair comes back as the one character it encodes (`Replay.FileRoundTrip`). The
  recorder never writes one in a header, since json.loads of UTF-8 text yields none: every file it writes, under
  channel names without pairs, reads back as written (`Replay.RecorderRoundTrip`). A channel name is whatever string
  the configuration gives, and one that is such a pair is lost (`Replay.PairedChannelIsLost`).
* **Envelope.** Everything a handler sends lies within the envelope, but for one case: `enable_offboard` sends zero
  velocity, which is outside an envelope whose configured maximum velocity is negative
  (`SafetyGate.CommandsWithinEnvelope`).
* **Deploy commands.** Configured values reach the programs intact exactly when they contain no NUL byte, since the
  command line is handed over as a C string (`ShellQuote.PublisherIntact`, `ShellQuote.RelayIntact`).

## Model

| member | source | states |
|---|---|---|
| AbortBound.AtMostOneMoreToolCall | python/services/orchestrator/main.py:234-250 | over every interleaving of the two threads, from the moment an abort is drained, put and signalled until its own call is sent, at most one more tool call goes out and the abort heads the queue or is being handled, as long as no further abort is received |
| AbortBound.BoundReachable | python/services/orchestrator/main.py:331-363 | in every reachable state a ready abort waits at the head of a queue no mission can get past, or is being handled |
| AbortBound.PendingCounts | python/services/orchestrator/main.py:428-434 | along any run the pending count is the number of tool calls really sent since the abort became ready |
| AbortWindow.AtMostOneUnlessLoose | python/services/orchestrator/main.py:378-434 | over every interleaving and however many further aborts come: from the moment an abort is ready until any abort is sent, at most one tool call goes out and an abort is at hand, unless the main thread has passed its queue check with the event down |
| AbortWindow.LoosePassIsInADrain | python/services/orchestrator/main.py:234-250 | the guard: with the abort unsent, the queue check is passed loosely exactly when the queue is empty and the event is down, and the queue is empty only between a further abort's drain and its put |
| AbortWindow.LoosePassLiftsTheBound | python/services/orchestrator/main.py:400-434 | from a loose pass on, for every n, some continuation sends n tool calls and nothing else |
| AbortWindow.BoundedExactlyUntilLoosePass | python/services/orchestrator/main.py:378-434 | for any run in which an abort is ready and unsent and any bound of one or more, all continuations keep to the bound before an abort is sent if and only if none of them makes a loose pass |
| AbortWindow.SecondAbortLiftsTheBound | python/services/orchestrator/main.py:234-250 | for every n, a concrete run with one further abort received in which n tool calls go out after an abort is ready and no abort at all has been sent |
| AbortWindow.BoundedExactlyWithoutFurtherAborts | python/services/orchestrator/main.py:378-399 | for any bound of one or more, all runs with an abort ready, none sent since and at most k further aborts received keep to it if and only if k is 0 |
| AbortWindow.HeldReachable | python/services/orchestrator/main.py:331-363 | in every reachable state, while an abort is ready and unsent and there was no loose pass, an abort is at hand, at most one call was sent and none is coming |
| CommandThreads.QueueSafety | python/services/orchestrator/main.py:234-255 | the command queue never holds more than 16, an abort in it is at its head, and the abort's put finds it empty, so no abort is ever refused |
| CommandThreads.TakenAsArrived | python/services/orchestrator/main.py:311-317 | commands are taken as a subsequence of their arrival order, in every interleaving |
| CommandThreads.PreemptedByLater | python/services/orchestrator/main.py:379-399 | a mission ends as preempted only after a later command was received, and by the signal only after a later abort set it; a late signal of a handled abort never cancels a newer command |
| CommandThreads.SoundReachable | python/services/orchestrator/main.py:218-255 | the inductive invariant over both threads, queue, event and history holds in every reachable state |
| CommandAccounts.EveryCommandAccounted | python/services/orchestrator/main.py:234-255 | over every interleaving, the commands that left the queue, those in it and the one on its way in are, in this order, exactly the commands received and not refused; at each refusal sixteen were waiting and the refused one is the one just received |
| CommandAccounts.TakenIsAnswered | python/services/orchestrator/main.py:331-363 | every command taken with the abort flag or keyword is answered by one abort call before another is taken, and by no mission; no other command leads to an abort call; all calls of a mission belong to the command taken last |
| CommandAccounts.NoMoreThanAsked | python/services/orchestrator/main.py:423-434 | between two answers of the VLM no more tool calls are sent than it asked for, and what is left of a batch is what was asked and not sent |
| Mission.Orchestrator.constructor | python/services/orchestrator/main.py:144-173 | an orchestrator starts without a REQ socket, with the offline flag down and no attempts; how its attempts go and what its preempt checks find are arbitrary functions it is given |
| Mission.Orchestrator.DispatchToolCall | python/services/orchestrator/main.py:574-648 | with the offline flag up nothing is attempted; otherwise exactly one attempt, with the name and arguments given, voice_confirmed on arm overwritten by the authorisation whatever was there; its result is the reply's ok and error, "timeout", or "wire_error: " with the error's text; the flag is up afterwards exactly after a timeout or ZMQ error; the socket survives exactly a reply and is never left waiting for one |
| Mission.Orchestrator.RunCall | python/services/orchestrator/main.py:435-463 | the call is attempted and recorded once, and the verdict is what the history says: bridge given up, failed (stuck exactly if it repeats one of the last three entries), terminal, or go on |
| Mission.Orchestrator.SkipRest | python/services/orchestrator/main.py:500-514 | the calls not executed end up as skip records in order, each with the reason that belongs to how the batch stopped, giving a whole batch record |
| Mission.Orchestrator.Advance | python/services/orchestrator/main.py:428-463 | the next call joins the executed prefix with its one attempt, and its verdict is what the history shows |
| Mission.Orchestrator.RunNext | python/services/orchestrator/main.py:428-463 | one round of a batch keeps the executed prefix, or finishes the batch with the stop its history shows and skip records that name it; the stop is a preemption exactly when the round's check found one |
| Mission.Orchestrator.RunBatch | python/services/orchestrator/main.py:426-463 | for any calls and any outcomes a batch adds an executed prefix with one real attempt each and a skipped suffix, and stops for the reason its last executed entry shows or, exactly when its last check hit, as preempted; the skip records carry the reason of that stop |
| Mission.Orchestrator.Decide | python/services/orchestrator/main.py:428-466 | a batch run at a decision boundary leads to the mission's end or to a new boundary, with history, attempts, flags and step count matching the longer list of batches |
| Mission.Orchestrator.Follow | python/services/orchestrator/main.py:416-466 | an answer without calls ends the mission, as an error exactly if its thought is one; any other becomes the next batch |
| Mission.Orchestrator.NextRound | python/services/orchestrator/main.py:378-466 | one round of the mission loop keeps the mission matching what the VLM emitted; it ends as preempted exactly when its last check hit, as a VLM error only if the VLM raised or answered an error, and without calls only if the VLM asked for none |
| Mission.Orchestrator.RunMission | python/services/orchestrator/main.py:364-487 | conservation and budget of a whole mission for any VLM and any outcomes, and its end reason: preempted exactly when the last check hit, terminal and offline exactly as the history and the last attempt show, VLM error and no tool calls only for what the VLM last answered, out of decisions only with the budget used up |
| Mission.Orchestrator.OnCommand | python/services/orchestrator/main.py:319-498 | a command starts with the offline flag down, so its first dispatch is attempted; after the first timeout or ZMQ error nothing more is attempted; an abort is one attempt of abort; every arm attempted says whether the command's text said arm, every other call goes out as the VLM gave it, and every executed entry has its attempt's result; a mission's history is the concatenation of the batches the VLM emitted, current_step counts the executed ones, decisions are at most the budget, and the end reason is that of the mission |
| Mission.OrchestratorMission.constructor | python/services/orchestrator/main.py:56-65 | a new mission is empty |
| Mission.OrchestratorMission.Record | python/services/orchestrator/main.py:66-76 | one entry is appended, and current_step grows exactly for an executed one |
| Mission.OrchestratorMission.RecordSkipped | python/services/orchestrator/main.py:500-514 | the remaining calls are appended in order as unexecuted failures and current_step stays |
| Mission.StuckMeansRepeat | python/services/orchestrator/main.py:444-455 | counting two or more matches in the last four entries is the same as repeating one of the three entries before |
| Mission.EndIsReported | python/services/orchestrator/main.py:472-487 | for every way a mission can stop, what the reported end says about stop, budget, bridge and VLM |
| Mission.MisleadingEnds | python/services/orchestrator/main.py:472-487 | the misleading reports at their inputs: a reply that says timeout ends its batch like a dead bridge but is none, and a last decision that gets stuck or asks for nothing reads as out of decisions |
| Mission.StopShows | python/services/orchestrator/main.py:435-463 | how a mission stopped, exactly: by one of the six terminal tools when an executed call of it did not fail, by a bridge given up when an executed entry has one of its errors, stuck when an executed failure has the tool and error of one of the three entries before it |
| Mission.NothingRunsAfter | python/services/orchestrator/main.py:435-463 | nothing is executed after an entry with an error of a bridge given up or after a terminal tool that did not fail |
| Mission.EntryOfCall | python/services/orchestrator/main.py:426-463 | call by call: the history's entry carries the call the VLM asked for; the first ones of a batch were executed and each of the others is a failure with the reason its batch was stopped for |
| Mission.AttemptsCarry | python/services/orchestrator/main.py:584-648 | each executed entry and its attempt: the attempted call is the entry's but for voice_confirmed on arm, and the entry's result is what the attempt's outcome explains |
| Mission.BatchOver | python/services/orchestrator/main.py:428-463 | appending a batch to a live history: whether and how the mission is over can be read off the joined history, and nothing ran after what ended it |
| Mission.BatchAdded | python/services/orchestrator/main.py:426-466 | one more batch preserves the correspondence of history, attempts, step count and VLM output |
| SafetyGate.CommandsWithinEnvelope | include/lexaire/safety.hpp:44-126 | for every call, any arguments, any latches and any PX4 state, every command that reaches the vehicle is within the envelope, if and only if it is not enable_offboard's zero velocity under a negative maximum |
| VehicleCommands.GotoReaches | src/flight_bridge/handlers.cpp:122-143 | exactly which calls send which position setpoint: the three numbers given, inside the fence and altitude band, with the heading asked for, else the present one; although the gate defaults missing keys and the handler requires them |
| VehicleCommands.VelocityReaches | src/flight_bridge/handlers.cpp:145-173 | exactly which calls send which velocity setpoint: a set_velocity within the speed limit, or the zero of enable_offboard |
| VehicleCommands.TakeoffReaches | src/flight_bridge/handlers.cpp:112-120 | exactly which takeoff calls lift off, and to what altitude, which is set first |
| VehicleCommands.ArmReaches | include/lexaire/safety.hpp:62-68 | exactly which calls arm: no abort standing, and the spoken-arm rule met by the latch or by voice_confirmed being there and true |
| VehicleCommands.EmergenciesReach | src/flight_bridge/handlers.cpp:175-197 | exactly which calls cut the motors (kill), land (abort, land) or disarm (disarm), none of them stopped by the abort latch |
| VehicleCommands.HoldAndReturnReach | src/flight_bridge/handlers.cpp:98-110 | exactly which calls hold or return to launch, both stopped by the abort latch |
| VehicleCommands.OffboardFollowsSetpoint | src/flight_bridge/handlers.cpp:138-141 | offboard control only starts right behind a setpoint |
| VehicleCommands.SetIntReaches | src/flight_bridge/handlers.cpp:206-226 | exactly which calls write which whole number to which parameter |
| VehicleCommands.SetFloatReaches | src/flight_bridge/handlers.cpp:227-236 | exactly which calls write which float to which parameter: only without an int_value |
| VehicleCommands.GetParameterReaches | src/flight_bridge/handlers.cpp:258-277 | exactly which calls read which parameter |
| VehicleCommands.PlainSucceeds | src/flight_bridge/handlers.cpp:98-110 | an arg-less tool is done exactly when PX4 says success; otherwise its error is PX4's, busy, or the missing plugin |
| VehicleCommands.ArgumentsSucceed | src/flight_bridge/handlers.cpp:112-173 | a setpoint is accepted also by a PX4 already in offboard mode, a takeoff only on success |
| VehicleCommands.BadRequests | src/flight_bridge/handlers.cpp:206-208 | exactly the parameter tools without a readable name end as bad_request |
| VehicleCommands.GateOfArm | include/lexaire/safety.hpp:62-68 | when the gate allows, denies or throws on arm |
| VehicleCommands.GateOfGoto | include/lexaire/safety.hpp:93-113 | when the gate allows a goto, and which reason it gives otherwise |
| VehicleCommands.AbortDenies | include/lexaire/safety.hpp:55-59 | with an abort standing exactly abort, kill, land and disarm are not refused for it |
| SafetyGate.StraightLegStaysInside | include/lexaire/safety.hpp:93-113 | the accepted goto region is convex: a straight leg between two accepted targets stays inside fence and altitude band |
| SafetyGate.RootExceedsIsRoot | include/lexaire/safety.hpp:110-112 | comparing a root with a limit of either sign is comparing squares, for every non-negative real root |
| FlightBridge.AbortLatchSafety | src/flight_bridge/main.cpp:287-307 | wherever the armed callback's two stores fall, the abort latch is set exactly when an abort or kill was handled with the vehicle in the air and no clear has followed; a clear not the callback's comes after the dispatch of a disarm that PX4 accepted; and no tool but abort, kill, land and disarm is dispatched while it is set |
| FlightBridge.Reachable | src/flight_bridge/main.cpp:127-132 | in every reachable state of loop and callback the latches are what the trace says, the loop knows its request, and every event fits the events before it |
| FlightBridge.InvariantKept | include/lexaire/safety.hpp:62-72 | every step keeps that: the gate judges the latches as loaded, a passed call was allowed, only a passed call is dispatched, the voice latch is set only by a confirmed arm PX4 accepted, and a request settles with the gate's verdict or the handler's answer after its commit |
| FlightBridge.PassedByCommit | src/flight_bridge/main.cpp:292-300 | with the spoken-arm rule on, every takeoff and every unconfirmed arm that passed the gate rests on the commit of an earlier confirmed arm that PX4 had accepted, with no clear in between |
| FlightBridge.ClearWasAccepted | src/flight_bridge/main.cpp:301-306 | every clear of either latch that is not the callback's has an earlier dispatch of that very request, a disarm with the action plugin present and PX4's success |
| FlightBridge.CommitWasAccepted | src/flight_bridge/main.cpp:293-299 | every set of the voice latch has an earlier dispatch of that very request, an arm with voice_confirmed true that PX4 accepted |
| FlightBridge.LatchesInTheAir | src/flight_bridge/handlers.cpp:177-197 | exactly the abort and kill calls handled with action and telemetry present and the vehicle in the air set the latch |
| BridgeScripts.SettledByScript | src/flight_bridge/main.cpp:281-312 | in every run each settled message has one whole script: garbage is refused; a refused call gets the gate's own reason; a passed call has one dispatch, the latch stores its tool and PX4's answer call for, and the handler's answer, but bad_request where voice_confirmed cannot be read |
| BridgeScripts.StoresOfCall | src/flight_bridge/main.cpp:291-307 | between a dispatch and its result the loop stores exactly: both clears for a disarm PX4 accepted, the voice latch for a confirmed arm PX4 accepted, nothing otherwise |
| BridgeScripts.Reachable | src/flight_bridge/main.cpp:265-342 | in every reachable state the events since the last result are the beginning of the message's script that the loop's place calls for |
| RepLoop.Bridge.constructor | src/flight_bridge/main.cpp:142-142 | the loop starts with both latches clear and a socket ready to receive |
| RepLoop.Bridge.Interfere | src/flight_bridge/main.cpp:127-132 | any number of callback stores is a run of the machine that leaves the request in the loop alone |
| RepLoop.Bridge.Gate | src/flight_bridge/main.cpp:288-290 | the verdict is the gate's on the two latch values as loaded, with the callback running between the loads, and it alone decides between passing and settling |
| RepLoop.Bridge.CommitLatches | src/flight_bridge/main.cpp:293-307 | the commit after a dispatch stores exactly what the tool and PX4's answer call for, refines the machine's commit, and settles with the handler's answer, or bad_request where voice_confirmed cannot be read after a successful arm |
| RepLoop.Bridge.ClearLatches | src/flight_bridge/main.cpp:301-306 | the two stores, with the callback in between, refine the machine's clears, and come only after the dispatch of a disarm that PX4 accepted |
| RepLoop.Bridge.Execute | src/flight_bridge/main.cpp:291-307 | a request that passed the gate is dispatched exactly once, committed and settled, and its result is PX4's unless reading voice_confirmed throws after a successful arm |
| RepLoop.Bridge.Handle | src/flight_bridge/main.cpp:281-310 | callback stores aside, what happens for one message is exactly its script: received, then for a request the gate's loads and either the gate's denial or one dispatch with its commit, then the result that is replied |
| RepLoop.Bridge.ServeOne | src/flight_bridge/main.cpp:273-341 | after a message's script and its reply, sent or not, the socket is ready to receive again or closed |
| RepLoop.Bridge.Serve | src/flight_bridge/main.cpp:265-342 | over any inbox and any send failures, every poll finds the REP socket ready to receive, and the run is the concatenation of one whole script per message, in arrival order, each with its result; the loop stops early only when the socket cannot be rebuilt |
| RepLoop.Bridge.AbortLatchHolds | src/flight_bridge/main.cpp:287-307 | the program's abort latch, clears and dispatches satisfy the machine's abort-latch theorem, and every message it has settled has its script |
| System.NoStaleReply | python/services/orchestrator/main.py:548-648 | over every run with lost, late, reordered and garbled messages and send failures, each reply returned answers the very request that was sent, with the result at the end of the whole script of that request as it was sent; each dispatch finds its REQ socket absent or ready to send, each poll its REP socket ready to receive |
| System.ProtocolReachable | python/services/orchestrator/main.py:566-648 | the protocol invariant (in turn, one place per request, nothing stale for the open socket, the bridge handling the request it has a route for, answers carrying settled results) holds in every reachable state |
| System.ArmingIsSpoken | python/services/orchestrator/main.py:584-589 | end to end, with the spoken-arm rule on: an arm the gate lets through was sent under a command containing the word "arm" or rests on such an arm that PX4 accepted and that was committed; a takeoff always rests on such a commit with no clear before the gate's check |
| System.AuthorisationReachable | python/services/orchestrator/main.py:337-337 | in every reachable state confirmed arms on the wire stem from commands saying "arm", and the bridge only handles requests as they were sent |
| System.SentAsAsked | python/services/orchestrator/main.py:584-597 | every request on the wire was asked for by a dispatch of the run, with that name and those arguments, voice_confirmed on arm saying whether the command then current said arm |
| System.DispatchedAsAsked | src/flight_bridge/main.cpp:281-291 | every call the bridge dispatches carries the name and arguments of such a dispatch of the orchestrator |
| AtMostOnce.DispatchedOnce | python/services/orchestrator/main.py:548-648 | over every run no request is dispatched twice, and one that was dispatched is no longer on the wire |
| Spoken.SaysIsAWord | python/services/orchestrator/main.py:154-172 | the keyword search finds a match exactly when one of the text's longest runs of word characters is the keyword in any case |
| Watchdog.Watch | src/flight_bridge/main.cpp:184-210 | on every tick trace the loop acts at exactly the first overdue tick of each outage that finds the vehicle armed by voice |
| Watchdog.OneActionPerOutage | src/flight_bridge/main.cpp:196-209 | an outage has at most one tick to act at |
| Watchdog.OutageVerdict | src/flight_bridge/main.cpp:196-209 | an outage is decided at its first overdue tick: it acts there if and only if the latch is set, and nowhere else |
| Watchdog.FirstOverdueExists | src/flight_bridge/main.cpp:189-196 | an outage that is overdue at some tick has a first such tick |
| Watchdog.ActionIsTimely | src/flight_bridge/main.cpp:185-196 | with a positive threshold T and ticks at most D apart, an action comes at an age in [T, T + D) |
| Matcher.Conservation | python/lexaire/subscriber.py:128-226 | over every interleaving of arrivals and match passes, the arrivals of each side are exactly the buffered, evicted, replaced and matched ones, the matched sequences of both sides have the same keys in the same order, and a buffer never exceeds its size |
| Matcher.NothingReplaced | python/lexaire/subscriber.py:128-160 | with unique sequence numbers no arrival replaces another, so arrivals partition into buffered, evicted and matched |
| Matcher.KeysAccountedFor | python/lexaire/subscriber.py:128-226 | every sequence number that arrived is buffered, evicted, or matched |
| Matcher.DisjointAfterPass | python/lexaire/subscriber.py:193-198 | after a match pass the two buffers share no sequence number |
| Matcher.PassTakesTheIntersection | python/lexaire/subscriber.py:193-226 | in an eviction-free run with well-formed headers the framesets emitted up to a pass are exactly the intersection of the arrivals |
| Matcher.EmittedInOrder | python/lexaire/subscriber.py:193-226 | with strictly increasing streams, all framesets ever emitted are strictly increasing, whatever is evicted and however arrivals and passes interleave |
| Matcher.EmittedIsMade | python/lexaire/subscriber.py:196-226 | over every run the framesets emitted are, in order, one for each matched pair with usable headers, each with that pair's sequence number, timestamp, intrinsics, images and scale, 0 where the scale is missing |
| Matcher.OldestEvicted | python/lexaire/subscriber.py:166-168 | with unique sequence numbers, what was evicted from a buffer and then what is in it are in the order of arrival: nothing is evicted before something older |
| Matcher.PutAssigns | python/lexaire/subscriber.py:128-129 | an insert gives the key the new value, leaves the others, and keeps the keys' places |
| Matcher.SensorSubscriber.constructor | python/lexaire/subscriber.py:61-64 | both buffers start empty |
| Matcher.SensorSubscriber.RgbArrives | python/lexaire/subscriber.py:128-131 | insert and trim keep the buffers those of the recorded history |
| Matcher.SensorSubscriber.DepthArrives | python/lexaire/subscriber.py:157-160 | insert and trim keep the buffers those of the recorded history |
| Matcher.SensorSubscriber.TrimLocked | python/lexaire/subscriber.py:166-168 | the loop keeps exactly the newest entries that fit |
| Matcher.SensorSubscriber.PopPair | python/lexaire/subscriber.py:197-198 | one pair leaves both buffers and is joined as the two headers say |
| Matcher.SensorSubscriber.MatchAll | python/lexaire/subscriber.py:196-226 | over the common keys in ascending order, the loop pops every pair, emits what each pair gives, and leaves the rest of both buffers |
| Matcher.SensorSubscriber.TryMatchLocked | python/lexaire/subscriber.py:193-226 | the popping loop returns what the pass adds to the emitted framesets and leaves the buffers of the history |
| FramesetQueue.QueueSafety | python/lexaire/subscriber.py:179-191 | with the consumer taking between any two queue operations: length at most 16, delivered and queued are an order-preserving subsequence of matched, every matched frameset is delivered, queued, dropped or in hand, and the put after dropping the oldest is never refused |
| FramesetQueue.OldestGoesFirst | python/lexaire/subscriber.py:179-191 | over every interleaving the delivered and the dropped framesets, run together in the order they left, then the queue, then the one in hand, are exactly the matched ones in order: the one dropped is always the oldest |
| FramesetQueue.DropsNeedAFullQueue | python/lexaire/subscriber.py:179-186 | the timed put gives up only on a queue of 16, and a frameset is only dropped after such a put |
| FramesetQueue.OneDropPerFrameset | python/lexaire/subscriber.py:179-191 | over any stretch of a run there is at most one drop per frameset picked up |
| FramesetQueue.DeliveredInOrder | python/lexaire/subscriber.py:170-226 | matcher and queue together: with strictly increasing streams, what is delivered and queued is strictly increasing, for every interleaving of arrivals, evictions, passes, producer and consumer |
| TelemetryRing.TelemetryHistory.constructor | python/services/orchestrator/main.py:286-295 | the history starts empty |
| TelemetryRing.TelemetryHistory.Prune | python/services/orchestrator/main.py:293-295 | the loop pops samples on the left, each before the cutoff, until the first one is fresh, and loses nothing else |
| TelemetryRing.TelemetryHistory.Append | python/services/orchestrator/main.py:286-295 | after every append-and-prune the ring is the full arrival log filtered to the window, in order |
| TelemetryRing.RecentIsTheWindow | python/services/orchestrator/main.py:293-295 | the filter keeps exactly the samples inside the window |
| Replay.FileRoundTrip | python/services/replay/store.py:56-72 | writing any records and reading them back, with blank lines, comments and malformed lines anywhere, yields the records if and only if no string in them has a surrogate pair |
| Replay.FileReads | python/services/replay/store.py:61-72 | what comes back from such a file in every case: the records in order, their surrogate pairs joined |
| Replay.RecorderRoundTrip | python/services/replay/main.py:103-113 | every file of records whose headers json.loads made of UTF-8 text, floats given by any repr, and whose channel names have no pair, reads back as exactly those records, with blank lines, comments and malformed lines anywhere |
| Replay.PairedChannelIsLost | python/services/replay/store.py:34-53 | a concrete record, its channel named by a surrogate pair, that comes back with another channel |
| Replay.RecordRoundTrip | python/services/replay/store.py:34-53 | a record comes back from its line if and only if no string in it has a surrogate pair |
| Replay.LineShape | python/services/replay/store.py:34-43 | a record is one line of printable ASCII from `{` to `}` |
| ReplayFormat.LineIs | python/services/replay/store.py:34-43 | a record's line, character by character: the four keys in this order, compact separators, the payload in base64 |
| ReplayFormat.LinesEnd | python/services/replay/store.py:61-63 | a line feed, a carriage return or both together end a line, and nothing else does |
| ReplayFormat.PassedOverUnread | python/services/replay/store.py:64-66 | exactly the lines of white space alone, or of white space and a number sign, are passed over unread |
| ReplayFormat.DictIsRecord | python/services/replay/store.py:45-53 | a decoded object is a record exactly when it has the four keys, a ts_ns that int() takes and a payload that is base64 |
| ReplayFormat.DictEndsReading | python/services/replay/store.py:45-53 | exactly when a decoded object raises an error that read_all does not catch |
| ReplayFormat.ReadsInOrder | python/services/replay/store.py:61-72 | reading goes on line by line, and such an error ends it with the records so far |
| ReplayFormat.LastValueWins | python/services/replay/store.py:46-46 | an object given a key twice has it once, with the last value |
| Replay.ReadAll | python/services/replay/store.py:61-72 | on every text, and for whatever int() makes of floats and strings, the reading loop yields what the line-by-line reading says, and ends where an error read_all does not catch ends it |
| Replay.Recording.constructor | python/services/replay/store.py:56-58 | a recording starts empty |
| Replay.Recording.Write | python/services/replay/store.py:56-58 | after every write the file reads back as all records written so far |
| PyJson.LoadsDumps | python/services/replay/store.py:34-46 | json.loads of json.dumps is the value with the surrogate pairs of its strings joined and keys that became equal merged |
| PyJson.ReloadedUnchanged | python/services/replay/store.py:34-46 | a value comes back unchanged if and only if it is free of surrogate pairs |
| PyJson.FloatTextReads | python/services/replay/store.py:46-46 | every text that denotes a float is read as that float, whatever may follow it in a compact text |
| DecodedJson.LoadsClean | python/services/replay/main.py:103-103 | json.loads of any text without surrogates yields only values that json.dumps writes and json.loads gives back unchanged |
| PyJson.EscapedReads | python/services/replay/store.py:35-43 | every string literal is read back up to joined surrogate pairs, whatever follows it |
| Base64.RoundTrip | python/services/replay/store.py:40-52 | the lenient decoder inverts the encoder on every byte string |
| Base64.EncodeIsAscii | python/services/replay/store.py:40-40 | an encoding is ASCII, four characters for every three bytes begun |
| ReplayFormat.GroupIsNumber | python/services/replay/store.py:40-40 | three bytes and their four letters are one number of 24 bits |
| ShellQuote.ShellSquote | src/main.cpp:596-604 | the quoting loop computes the escaped text |
| ShellQuote.EscapedIsLiteral | src/main.cpp:594-604 | for every value, inside single quotes the escaped text tokenizes back to exactly that value as part of one word |
| ShellQuote.PublisherWords | src/main.cpp:606-612 | for all hosts and repositories the publisher command tokenizes to exactly the intended words and redirections |
| ShellQuote.RelayWords | src/main.cpp:618-624 | for all hosts, devices and rates the relay command tokenizes to exactly the intended assignments, words and redirections, and the rate's text is its decimal numeral |
| ShellQuote.PublisherIntact | src/main.cpp:606-612 | through the C string, host and repository arrive intact if and only if they are NUL-free |
| ShellQuote.RelayIntact | src/main.cpp:618-624 | through the C string, host and device arrive intact if and only if they are NUL-free |

## Left out

- AbortBound.AtMostOneMoreToolCall: is conditional on no further abort received; `AbortWindow.dfy` has the exact condition.
- Mission.Orchestrator.DispatchToolCall: the text of an exception inside a wire error is an arbitrary string.
- Mission.Orchestrator.OnCommand: leaves out the history strings, status messages and the VLM's context; what each preempt check finds is an arbitrary function of its number, and when a check can really hit is the subject of `CommandThreads.dfy`.
- CommandThreads.QueueSafety: missions are reduced to their checks and calls, so calls counted as sent include those the offline flag refuses; the counts are upper bounds.
- System.NoStaleReply: a garbled request is taken to be one the bridge's parser refuses, and a garbled reply one the orchestrator's parser refuses; alterations that still parse are not modelled.
- Spoken.SaysIsAWord: word characters and letter case are those of ASCII, not of Python's Unicode regular expressions; the configurable abort keyword is a flag of the command.
- Watchdog.Watch: says when the loop acts; that the action is hold or return to launch as configured is not part of it.
- FlightBridge.AbortLatchSafety: a handler's store to the abort latch and its command to PX4 are one step; the watchdog does not consult this latch and is modelled apart.
- RepLoop.Bridge.Serve: a message is received as soon as one is there; receive errors and an empty poll change nothing and are not steps, and the fallback reply for results that cannot be serialized is not modelled.
- SafetyGate.CommandsWithinEnvelope: arithmetic is over reals; rounding, NaN, the narrowing to float in the handlers and int_values out of int's range are not modelled.
- Matcher.PassTakesTheIntersection: headers are well-formed or not; int() of an infinite float, which would end the matcher thread, and headers that are not objects are not modelled.
- Replay.FileRoundTrip: a float is modelled as a text that denotes it, the one repr gives when it is written; that repr and float() agree on it is Python's promise, and its limits on digits and nesting are not modelled.
- Replay.ReadAll: what int() makes of a float or a string is a parameter, and a file that is not UTF-8 is not modelled.
- ShellQuote.PublisherWords: covers the local shell's words; what the remote shell makes of the command it is given is not modelled.
- MAVSDK, PX4, ZeroMQ, the VLM backends, detectors, speech and image decoding are nondeterministic results or not part of this model.
- get_param's second attempt as a float is folded into one result.
- Shutdown, logging, configuration loading, the terminal interface and the remaining services would only add easy members.
