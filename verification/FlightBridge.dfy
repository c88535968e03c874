/**
 The flight bridge (src/flight_bridge/main.cpp) as a machine of atomic steps: the serial request loop with
 its gate, dispatch and commit, and the `armed` callback that runs on another thread and clears the two
 latches one after the other.  Every load and store of a latch is a step of its own, so the callback may
 fall anywhere.  The gate's second load is made for every call, also where the program would not need it.
*/
module FlightBridge {
  import opened Messages
  import opened SafetyGate
  import opened VehicleCommands

  /** A decoded request.  `id` tells requests apart; nothing the bridge does depends on it. */
  datatype Request = Request(id: nat, call: ToolCall)

  /** What a reply says: denied by the gate, the handler's answer, or bad_request. */
  datatype Result = Denied(reason: string) | Answered(reply: Reply) | Rejected

  /** Where the request loop stands. */
  datatype Loop =
    | Polling
    | LoadingAborted(req: Request)
    | LoadingVoice(req: Request, aborted: bool)
    | Dispatching(req: Request)
    | Committing(req: Request, handled: Handled)
    | ClearingVoice(req: Request, handled: Handled)
    | ClearingAborted(req: Request, handled: Handled)
    | Replying(id: nat, result: Result)

  /** The REP socket: it alternates receive and send. */
  datatype Rep = CanReceive | MustSend | Closed

  /** Where the armed callback stands. */
  datatype Callback = Quiet | HalfCleared

  /** `call` is None for a message that does not parse; `cause` is None for the armed callback, else a disarm. */
  datatype Event =
    | Received(id: nat, call: Option<ToolCall>)
    | GateLoaded(req: Request, aborted: bool, voice: bool, gate: Gate)
    | Passed(req: Request)
    | Dispatched(req: Request, px4: Px4, handled: Handled, aborted: bool)
    | VoiceSet(req: Request)
    | VoiceCleared(cause: Option<Request>)
    | AbortCleared(cause: Option<Request>)
    | Settled(id: nat, call: Option<ToolCall>, result: Result)

  datatype State = State(aborted: bool, armedWithVoice: bool, loop: Loop, callback: Callback, trace: seq<Event>)

  const START := State(false, false, Polling, Quiet, [])

  datatype Step =
    | Receive(req: Request)     // a request that parses
    | ReceiveGarbage(id: nat)   // one that does not: answered with bad_request
    | LoadAborted
    | LoadVoice
    | Dispatch(px4: Px4)
    | Commit
    | ClearVoice
    | ClearAborted
    | Reply
    | ArmedFalse                // a telemetry sample with armed == false: first store
    | ArmedFalseAgain           // second store

  predicate Enabled(s: State, step: Step) {
    match step
    case Receive(_) => s.loop.Polling?
    case ReceiveGarbage(_) => s.loop.Polling?
    case LoadAborted => s.loop.LoadingAborted?
    case LoadVoice => s.loop.LoadingVoice?
    case Dispatch(_) => s.loop.Dispatching?
    case Commit => s.loop.Committing?
    case ClearVoice => s.loop.ClearingVoice?
    case ClearAborted => s.loop.ClearingAborted?
    case Reply => s.loop.Replying?
    case ArmedFalse => s.callback.Quiet?
    case ArmedFalseAgain => s.callback.HalfCleared?
  }

  /** The result of a call the gate stopped. */
  function GateResult(gate: Gate): Result
    requires gate != Allow
  {
    if gate.Deny? then Denied(gate.reason) else Rejected
  }

  /** The handler ran and PX4 accepted. */
  predicate Succeeded(handled: Handled) { handled.Handled? && handled.reply == Done }

  /** The result of a handled call: the handler's, unless reading `voice_confirmed` throws after a successful arm. */
  function ResultOf(call: ToolCall, handled: Handled): Result {
    if handled.BadRequest? then Rejected
    else if Succeeded(handled) && call.name == "arm" && VoiceConfirmed(call.args) == None then Rejected
    else Answered(handled.reply)
  }

  /** A successful arm with a true `voice_confirmed`: the only commit that sets the voice latch. */
  predicate CommitsVoice(call: ToolCall, handled: Handled) {
    Succeeded(handled) && call.name == "arm" && VoiceConfirmed(call.args) == Some(true)
  }

  predicate CommitsClear(call: ToolCall, handled: Handled) { Succeeded(handled) && call.name == "disarm" }

  predicate Latches(handled: Handled) { handled.Handled? && handled.latchesAbort }

  function Settle(req: Request, result: Result): Event { Settled(req.id, Some(req.call), result) }

  /** What a step adds to the trace. */
  function Emits(s: State, env: Envelope, step: Step): seq<Event>
    requires Enabled(s, step)
  {
    match step
    case Receive(req) => [Received(req.id, Some(req.call))]
    case ReceiveGarbage(id) => [Received(id, None), Settled(id, None, Rejected)]
    case LoadVoice =>
      var gate := CheckTool(s.loop.req.call, env, s.loop.aborted, s.armedWithVoice);
      [GateLoaded(s.loop.req, s.loop.aborted, s.armedWithVoice, gate),
       if gate == Allow then Passed(s.loop.req) else Settle(s.loop.req, GateResult(gate))]
    case Dispatch(px4) =>
      var handled := SafetyGate.Dispatch(s.loop.req.call, px4);
      var entered := Dispatched(s.loop.req, px4, handled, s.aborted);
      if handled.BadRequest? then [entered, Settle(s.loop.req, Rejected)] else [entered]
    case Commit =>
      var settled := Settle(s.loop.req, ResultOf(s.loop.req.call, s.loop.handled));
      if CommitsClear(s.loop.req.call, s.loop.handled) then []
      else if CommitsVoice(s.loop.req.call, s.loop.handled) then [VoiceSet(s.loop.req), settled]
      else [settled]
    case ClearVoice => [VoiceCleared(Some(s.loop.req))]
    case ClearAborted => [AbortCleared(Some(s.loop.req)), Settle(s.loop.req, ResultOf(s.loop.req.call, s.loop.handled))]
    case ArmedFalse => [VoiceCleared(None)]
    case ArmedFalseAgain => [AbortCleared(None)]
    case _ => []
  }

  function NextLoop(s: State, env: Envelope, step: Step): Loop
    requires Enabled(s, step)
  {
    match step
    case Receive(req) => LoadingAborted(req)
    case ReceiveGarbage(id) => Replying(id, Rejected)
    case LoadAborted => LoadingVoice(s.loop.req, s.aborted)
    case LoadVoice =>
      var gate := CheckTool(s.loop.req.call, env, s.loop.aborted, s.armedWithVoice);
      if gate == Allow then Dispatching(s.loop.req) else Replying(s.loop.req.id, GateResult(gate))
    case Dispatch(px4) =>
      var handled := SafetyGate.Dispatch(s.loop.req.call, px4);
      if handled.BadRequest? then Replying(s.loop.req.id, Rejected) else Committing(s.loop.req, handled)
    case Commit =>
      if CommitsClear(s.loop.req.call, s.loop.handled) then ClearingVoice(s.loop.req, s.loop.handled)
      else Replying(s.loop.req.id, ResultOf(s.loop.req.call, s.loop.handled))
    case ClearVoice => ClearingAborted(s.loop.req, s.loop.handled)
    case ClearAborted => Replying(s.loop.req.id, ResultOf(s.loop.req.call, s.loop.handled))
    case Reply => Polling
    case _ => s.loop
  }

  function NextAborted(s: State, step: Step): bool
    requires Enabled(s, step)
  {
    match step
    case Dispatch(px4) => s.aborted || Latches(SafetyGate.Dispatch(s.loop.req.call, px4))
    case ClearAborted => false
    case ArmedFalseAgain => false
    case _ => s.aborted
  }

  function NextVoice(s: State, step: Step): bool
    requires Enabled(s, step)
  {
    match step
    case Commit => s.armedWithVoice || CommitsVoice(s.loop.req.call, s.loop.handled)
    case ClearVoice => false
    case ArmedFalse => false
    case _ => s.armedWithVoice
  }

  function NextCallback(s: State, step: Step): Callback {
    match step
    case ArmedFalse => HalfCleared
    case ArmedFalseAgain => Quiet
    case _ => s.callback
  }

  function Next(s: State, env: Envelope, step: Step): State
    requires Enabled(s, step)
  {
    State(NextAborted(s, step), NextVoice(s, step), NextLoop(s, env, step), NextCallback(s, step),
          s.trace + Emits(s, env, step))
  }

  /** The state after a list of steps, or None when one of them was not possible. */
  ghost function After(steps: seq<Step>, env: Envelope): Option<State> {
    if steps == [] then Some(START)
    else
      var n := |steps| - 1;
      match After(steps[..n], env)
      case None => None
      case Some(s) => if Enabled(s, steps[n]) then Some(Next(s, env, steps[n])) else None
  }

  // ---------------------------------------------------------------- what a trace says of the latches

  /** An abort or kill handled with the vehicle in the air. */
  predicate InAirEmergency(call: ToolCall, px4: Px4) {
    (call.name == "abort" || call.name == "kill") && px4.action && px4.telemetry && px4.inAir
  }

  lemma LatchesInTheAir(call: ToolCall, px4: Px4)
    ensures Latches(SafetyGate.Dispatch(call, px4)) <==> InAirEmergency(call, px4)
  {
  }

  predicate InAirAbort(e: Event) { e.Dispatched? && InAirEmergency(e.req.call, e.px4) }

  /** The position of the in-air abort or kill that no clear has followed, if there is one. */
  ghost function AbortOrigin(trace: seq<Event>): (o: Option<nat>)
    ensures o.Some? ==> o.value < |trace| && InAirAbort(trace[o.value])
    ensures o.Some? ==> forall i :: o.value < i < |trace| ==> !trace[i].AbortCleared?
    ensures o == None ==> forall i :: 0 <= i < |trace| && InAirAbort(trace[i]) ==>
                            exists j :: i < j < |trace| && trace[j].AbortCleared?
  {
    if trace == [] then None
    else
      var n := |trace| - 1;
      if InAirAbort(trace[n]) then Some(n)
      else if trace[n].AbortCleared? then None
      else
        assert AbortOrigin(trace[..n]) == None ==> forall i :: 0 <= i < n && InAirAbort(trace[i]) ==>
                 exists j :: i < j < n && trace[..n][j].AbortCleared?;
        AbortOrigin(trace[..n])
  }

  /** The position of the commit the voice latch stems from, if it is set. */
  ghost function VoiceCommit(trace: seq<Event>): (c: Option<nat>)
    ensures c.Some? ==> c.value < |trace| && trace[c.value].VoiceSet?
    ensures c.Some? ==> forall i :: c.value < i < |trace| ==> !trace[i].VoiceCleared?
    ensures c == None ==> forall i :: 0 <= i < |trace| && trace[i].VoiceSet? ==>
                            exists j :: i < j < |trace| && trace[j].VoiceCleared?
  {
    if trace == [] then None
    else
      var n := |trace| - 1;
      match trace[n]
      case VoiceSet(_) => Some(n)
      case VoiceCleared(_) => None
      case _ =>
        assert VoiceCommit(trace[..n]) == None ==> forall i :: 0 <= i < n && trace[i].VoiceSet? ==>
                 exists j :: i < j < n && trace[..n][j].VoiceCleared?;
        VoiceCommit(trace[..n])
  }

  /** The request being handled: the gate's loads, and its dispatch if it has been dispatched. */
  datatype Episode = Episode(load: Event, dispatch: Option<Event>)

  ghost function Current(trace: seq<Event>): (r: Option<Episode>)
    ensures r.Some? ==> r.value.load in trace && r.value.load.GateLoaded?
    ensures r.Some? && r.value.dispatch.Some? ==> r.value.dispatch.value in trace && r.value.dispatch.value.Dispatched?
  {
    if trace == [] then None
    else
      var n := |trace| - 1;
      var before := Current(trace[..n]);
      if trace[n].GateLoaded? then Some(Episode(trace[n], None))
      else if trace[n].Dispatched? && before.Some? then Some(before.value.(dispatch := Some(trace[n])))
      else before
  }

  lemma OriginMore(trace: seq<Event>, e: Event)
    ensures AbortOrigin(trace + [e]) ==
      if InAirAbort(e) then Some(|trace|) else if e.AbortCleared? then None else AbortOrigin(trace)
  {
    assert (trace + [e])[..|trace|] == trace;
  }

  lemma CommitMore(trace: seq<Event>, e: Event)
    ensures VoiceCommit(trace + [e]) ==
      if e.VoiceSet? then Some(|trace|) else if e.VoiceCleared? then None else VoiceCommit(trace)
  {
    assert (trace + [e])[..|trace|] == trace;
  }

  lemma CurrentMore(trace: seq<Event>, e: Event)
    ensures Current(trace + [e]) ==
      if e.GateLoaded? then Some(Episode(e, None))
      else if e.Dispatched? && Current(trace).Some? then Some(Current(trace).value.(dispatch := Some(e)))
      else Current(trace)
  {
    assert (trace + [e])[..|trace|] == trace;
  }

  // ---------------------------------------------------------------- what every event says

  predicate OfCallback(e: Event) { (e.VoiceCleared? || e.AbortCleared?) && e.cause == None }

  /** The abort latch had this value at a moment since which only the callback has stored anything. */
  ghost predicate WasLatched(trace: seq<Event>, aborted: bool) {
    exists j :: 0 <= j <= |trace| && LatchedAt(trace, j, aborted)
  }

  ghost predicate LatchedAt(trace: seq<Event>, j: nat, aborted: bool)
    requires j <= |trace|
  {
    (aborted <==> AbortOrigin(trace[..j]).Some?) && forall k :: j <= k < |trace| ==> OfCallback(trace[k])
  }

  ghost predicate SpokenArmMet(req: Request, voice: bool, env: Envelope) {
    && (req.call.name == "arm" && env.requireSpokenArm ==> voice || SaysConfirmed(req.call.args))
    && (req.call.name == "takeoff" && env.requireSpokenArm ==> voice)
  }

  /** The current episode is `req`'s, the gate let it through, and it has been handed to the handler. */
  ghost predicate RanBefore(trace: seq<Event>, req: Request) {
    var ep := Current(trace);
    && ep.Some? && ep.value.load.req == req && ep.value.load.gate == Allow
    && ep.value.dispatch.Some? && ep.value.dispatch.value.req == req
  }

  /** What the handler made of the current episode's call. */
  ghost function LastHandled(trace: seq<Event>): Handled
    requires Current(trace).Some? && Current(trace).value.dispatch.Some?
  {
    Current(trace).value.dispatch.value.handled
  }

  ghost predicate Ran(trace: seq<Event>, req: Request, handled: Handled) {
    RanBefore(trace, req) && LastHandled(trace) == handled
  }

  /** Just before it settles, a successful confirmed arm sets the voice latch, and a successful disarm clears both. */
  ghost predicate Committed(trace: seq<Event>, req: Request)
    requires RanBefore(trace, req)
  {
    && (CommitsVoice(req.call, LastHandled(trace)) ==> trace != [] && trace[|trace| - 1] == VoiceSet(req))
    && (CommitsClear(req.call, LastHandled(trace)) ==> trace != [] && trace[|trace| - 1] == AbortCleared(Some(req)))
  }

  /** The result a request settles with is the gate's, or the handler's with the latches committed. */
  ghost predicate SettlesAs(trace: seq<Event>, req: Request, result: Result) {
    var ep := Current(trace);
    && ep.Some? && ep.value.load.req == req
    && if ep.value.load.gate != Allow then result == GateResult(ep.value.load.gate)
       else RanBefore(trace, req) && result == ResultOf(req.call, LastHandled(trace)) && Committed(trace, req)
  }

  /** The request that runs is a disarm PX4 accepted. */
  ghost predicate DisarmedBefore(trace: seq<Event>, req: Request) {
    RanBefore(trace, req) && CommitsClear(req.call, LastHandled(trace))
  }

  /** What an event says about the events before it. */
  ghost predicate EventFits(before: seq<Event>, e: Event, env: Envelope) {
    match e
    case Received(_, _) => true
    case GateLoaded(req, aborted, voice, gate) =>
      && (voice <==> VoiceCommit(before).Some?) && WasLatched(before, aborted)
      && gate == CheckTool(req.call, env, aborted, voice)
    case Passed(req) =>
      before != [] && before[|before| - 1].GateLoaded? && before[|before| - 1].req == req &&
        before[|before| - 1].gate == Allow
    case Dispatched(req, px4, handled, aborted) =>
      && handled == SafetyGate.Dispatch(req.call, px4)
      && (aborted <==> AbortOrigin(before).Some?) && (aborted ==> EmergencyFollowup(req.call.name))
      && Current(before).Some? && Current(before).value.load.req == req && Current(before).value.load.gate == Allow
    case VoiceSet(req) => RanBefore(before, req) && CommitsVoice(req.call, LastHandled(before))
    case VoiceCleared(cause) => cause.Some? ==> DisarmedBefore(before, cause.value)
    case AbortCleared(cause) => cause.Some? ==> DisarmedBefore(before, cause.value)
    case Settled(id, call, result) =>
      if call == None then result == Rejected else SettlesAs(before, Request(id, call.value), result)
  }

  ghost predicate TraceSound(trace: seq<Event>, env: Envelope) {
    forall i :: 0 <= i < |trace| ==> EventFits(trace[..i], trace[i], env)
  }

  lemma TraceSoundMore(trace: seq<Event>, e: Event, env: Envelope)
    requires TraceSound(trace, env) && EventFits(trace, e, env)
    ensures TraceSound(trace + [e], env)
  {
    var more := trace + [e];
    forall i | 0 <= i < |more| ensures EventFits(more[..i], more[i], env) {
      if i < |trace| {
        assert more[..i] == trace[..i];
      } else {
        assert more[..i] == trace;
      }
    }
  }

  // ---------------------------------------------------------------- the invariant

  /** The result in the reply is that of the settled request. */
  ghost predicate SettledIn(trace: seq<Event>, id: nat, result: Result) {
    exists i :: 0 <= i < |trace| && trace[i].Settled? && trace[i].id == id && trace[i].result == result
  }

  /** What holds of the request in the loop. */
  ghost predicate LoopSound(s: State) {
    match s.loop
    case LoadingVoice(req, aborted) =>
      WasLatched(s.trace, aborted) && (!EmergencyFollowup(req.call.name) && !aborted ==> !s.aborted)
    case Dispatching(req) =>
      && (!EmergencyFollowup(req.call.name) ==> !s.aborted)
      && Current(s.trace).Some? && Current(s.trace).value.load.req == req && Current(s.trace).value.load.gate == Allow
    case Committing(req, handled) => Ran(s.trace, req, handled)
    case ClearingVoice(req, handled) => Ran(s.trace, req, handled) && CommitsClear(req.call, handled)
    case ClearingAborted(req, handled) => Ran(s.trace, req, handled) && CommitsClear(req.call, handled)
    case Replying(id, result) => SettledIn(s.trace, id, result)
    case _ => true
  }

  /** A sound trace, and latches that are what the trace says. */
  ghost predicate Tracks(trace: seq<Event>, aborted: bool, voice: bool, env: Envelope) {
    && (aborted <==> AbortOrigin(trace).Some?) && (voice <==> VoiceCommit(trace).Some?)
    && TraceSound(trace, env)
  }

  ghost predicate Invariant(s: State, env: Envelope) {
    Tracks(s.trace, s.aborted, s.armedWithVoice, env) && LoopSound(s)
  }

  // ---------------------------------------------------------------- every step keeps it

  /** One more event that fits. */
  lemma Appended(trace: seq<Event>, aborted: bool, voice: bool, e: Event, env: Envelope)
    requires Tracks(trace, aborted, voice, env) && EventFits(trace, e, env)
    ensures Tracks(trace + [e], if InAirAbort(e) then true else aborted && !e.AbortCleared?,
                   if e.VoiceSet? then true else voice && !e.VoiceCleared?, env)
    ensures Current(trace + [e]) ==
      if e.GateLoaded? then Some(Episode(e, None))
      else if e.Dispatched? && Current(trace).Some? then Some(Current(trace).value.(dispatch := Some(e)))
      else Current(trace)
  {
    TraceSoundMore(trace, e, env);
    OriginMore(trace, e);
    CommitMore(trace, e);
    CurrentMore(trace, e);
  }

  /** The request in the loop settles. */
  lemma SettleMore(trace: seq<Event>, aborted: bool, voice: bool, id: nat, call: Option<ToolCall>, result: Result,
        env: Envelope)
    requires Tracks(trace, aborted, voice, env)
    requires if call == None then result == Rejected else SettlesAs(trace, Request(id, call.value), result)
    ensures Tracks(trace + [Settled(id, call, result)], aborted, voice, env)
    ensures SettledIn(trace + [Settled(id, call, result)], id, result)
  {
    Appended(trace, aborted, voice, Settled(id, call, result), env);
    assert (trace + [Settled(id, call, result)])[|trace|] == Settled(id, call, result);
  }

  lemma OneThenOne(trace: seq<Event>, a: Event, b: Event)
    ensures trace + [a, b] == (trace + [a]) + [b]
  {
  }

  /** One event that fits, and the request settles. */
  lemma SettledAfter(s: State, t: State, e: Event, req: Request, result: Result, env: Envelope)
    requires Tracks(s.trace, s.aborted, s.armedWithVoice, env) && EventFits(s.trace, e, env)
    requires SettlesAs(s.trace + [e], req, result) && t.loop == Replying(req.id, result)
    requires t.trace == s.trace + [e, Settle(req, result)]
    requires t.aborted == (InAirAbort(e) || (s.aborted && !e.AbortCleared?))
    requires t.armedWithVoice == (e.VoiceSet? || (s.armedWithVoice && !e.VoiceCleared?))
    ensures Invariant(t, env)
  {
    Appended(s.trace, s.aborted, s.armedWithVoice, e, env);
    SettleMore(s.trace + [e], t.aborted, t.armedWithVoice, req.id, Some(req.call), result, env);
    OneThenOne(s.trace, e, Settle(req, result));
  }

  lemma SettledStays(trace: seq<Event>, e: Event, id: nat, result: Result)
    requires SettledIn(trace, id, result)
    ensures SettledIn(trace + [e], id, result)
  {
    var i :| 0 <= i < |trace| && trace[i].Settled? && trace[i].id == id && trace[i].result == result;
    assert (trace + [e])[i] == trace[i];
  }

  lemma WasLatchedNow(trace: seq<Event>, aborted: bool)
    requires aborted <==> AbortOrigin(trace).Some?
    ensures WasLatched(trace, aborted)
  {
    assert trace[..|trace|] == trace;
    assert LatchedAt(trace, |trace|, aborted);
  }

  lemma WasLatchedStays(trace: seq<Event>, e: Event, aborted: bool)
    requires WasLatched(trace, aborted) && OfCallback(e)
    ensures WasLatched(trace + [e], aborted)
  {
    var j :| 0 <= j <= |trace| && LatchedAt(trace, j, aborted);
    assert (trace + [e])[..j] == trace[..j];
    assert LatchedAt(trace + [e], j, aborted);
  }

  lemma ReceiveKept(s: State, env: Envelope, step: Step)
    requires Invariant(s, env) && Enabled(s, step) && (step.Receive? || step.ReceiveGarbage?)
    ensures Invariant(Next(s, env, step), env)
  {
    if step.Receive? {
      Appended(s.trace, s.aborted, s.armedWithVoice, Received(step.req.id, Some(step.req.call)), env);
    } else {
      var received := Received(step.id, None);
      Appended(s.trace, s.aborted, s.armedWithVoice, received, env);
      SettleMore(s.trace + [received], s.aborted, s.armedWithVoice, step.id, None, Rejected, env);
      OneThenOne(s.trace, received, Settled(step.id, None, Rejected));
    }
  }

  lemma QuietKept(s: State, env: Envelope, step: Step)
    requires Invariant(s, env) && Enabled(s, step) && Emits(s, env, step) == []
    ensures Invariant(Next(s, env, step), env)
  {
    assert s.trace + [] == s.trace;
    if step.LoadAborted? {
      WasLatchedNow(s.trace, s.aborted);
    }
  }

  lemma LoadVoiceKept(s: State, env: Envelope)
    requires Invariant(s, env) && Enabled(s, LoadVoice)
    ensures Invariant(Next(s, env, LoadVoice), env)
  {
    var req := s.loop.req;
    var gate := CheckTool(req.call, env, s.loop.aborted, s.armedWithVoice);
    var loaded := GateLoaded(req, s.loop.aborted, s.armedWithVoice, gate);
    Appended(s.trace, s.aborted, s.armedWithVoice, loaded, env);
    if gate == Allow {
      assert (s.trace + [loaded])[|s.trace|] == loaded;
      Appended(s.trace + [loaded], s.aborted, s.armedWithVoice, Passed(req), env);
      OneThenOne(s.trace, loaded, Passed(req));
      AllowedNotAborted(req.call, env, s.loop.aborted, s.armedWithVoice);
    } else {
      SettleMore(s.trace + [loaded], s.aborted, s.armedWithVoice, req.id, Some(req.call), GateResult(gate), env);
      OneThenOne(s.trace, loaded, Settle(req, GateResult(gate)));
    }
  }

  lemma AllowedNotAborted(call: ToolCall, env: Envelope, aborted: bool, voice: bool)
    requires CheckTool(call, env, aborted, voice) == Allow
    ensures aborted ==> EmergencyFollowup(call.name)
  {
  }

  lemma DispatchKept(s: State, env: Envelope, px4: Px4)
    requires Invariant(s, env) && Enabled(s, Dispatch(px4))
    ensures Invariant(Next(s, env, Dispatch(px4)), env)
  {
    var req := s.loop.req;
    var handled := SafetyGate.Dispatch(req.call, px4);
    var entered := Dispatched(req, px4, handled, s.aborted);
    var aborted := s.aborted || Latches(handled);
    LatchesInTheAir(req.call, px4);
    Appended(s.trace, s.aborted, s.armedWithVoice, entered, env);
    assert Tracks(s.trace + [entered], aborted, s.armedWithVoice, env);
    assert Ran(s.trace + [entered], req, handled);
    if handled.BadRequest? {
      SettleMore(s.trace + [entered], aborted, s.armedWithVoice, req.id, Some(req.call), Rejected, env);
      OneThenOne(s.trace, entered, Settle(req, Rejected));
    }
  }

  lemma CommitVoiceKept(s: State, env: Envelope)
    requires Invariant(s, env) && Enabled(s, Commit) && CommitsVoice(s.loop.req.call, s.loop.handled)
    ensures Invariant(Next(s, env, Commit), env)
  {
    var req := s.loop.req;
    var result := ResultOf(req.call, s.loop.handled);
    CurrentMore(s.trace, VoiceSet(req));
    SettledAfter(s, Next(s, env, Commit), VoiceSet(req), req, result, env);
  }

  lemma CommitOtherKept(s: State, env: Envelope)
    requires Invariant(s, env) && Enabled(s, Commit)
    requires !CommitsVoice(s.loop.req.call, s.loop.handled) && !CommitsClear(s.loop.req.call, s.loop.handled)
    ensures Invariant(Next(s, env, Commit), env)
  {
    var req := s.loop.req;
    SettleMore(s.trace, s.aborted, s.armedWithVoice, req.id, Some(req.call), ResultOf(req.call, s.loop.handled), env);
  }

  lemma ClearVoiceKept(s: State, env: Envelope)
    requires Invariant(s, env) && Enabled(s, ClearVoice)
    ensures Invariant(Next(s, env, ClearVoice), env)
  {
    Appended(s.trace, s.aborted, s.armedWithVoice, VoiceCleared(Some(s.loop.req)), env);
  }

  lemma ClearAbortedKept(s: State, env: Envelope)
    requires Invariant(s, env) && Enabled(s, ClearAborted)
    ensures Invariant(Next(s, env, ClearAborted), env)
  {
    var req := s.loop.req;
    var result := ResultOf(req.call, s.loop.handled);
    var cleared := AbortCleared(Some(req));
    CurrentMore(s.trace, cleared);
    SettledAfter(s, Next(s, env, ClearAborted), cleared, req, result, env);
  }

  /** An event of the callback leaves what holds of the loop alone. */
  lemma LoopStaysSound(s: State, t: State, e: Event)
    requires LoopSound(s) && OfCallback(e) && t.loop == s.loop && t.trace == s.trace + [e] && (t.aborted ==> s.aborted)
    ensures LoopSound(t)
  {
    CurrentMore(s.trace, e);
    if s.loop.LoadingVoice? {
      WasLatchedStays(s.trace, e, s.loop.aborted);
    } else if s.loop.Replying? {
      SettledStays(s.trace, e, s.loop.id, s.loop.result);
    }
  }

  lemma CallbackKept(s: State, env: Envelope, step: Step)
    requires Invariant(s, env) && Enabled(s, step) && (step.ArmedFalse? || step.ArmedFalseAgain?)
    ensures Invariant(Next(s, env, step), env)
  {
    var e := if step.ArmedFalse? then VoiceCleared(None) else AbortCleared(None);
    Appended(s.trace, s.aborted, s.armedWithVoice, e, env);
    LoopStaysSound(s, Next(s, env, step), e);
  }

  lemma InvariantKept(s: State, env: Envelope, step: Step)
    requires Invariant(s, env) && Enabled(s, step)
    ensures Invariant(Next(s, env, step), env)
  {
    if Emits(s, env, step) == [] {
      QuietKept(s, env, step);
    } else {
      match step
      case Receive(_) => ReceiveKept(s, env, step);
      case ReceiveGarbage(_) => ReceiveKept(s, env, step);
      case LoadVoice => LoadVoiceKept(s, env);
      case Dispatch(px4) => DispatchKept(s, env, px4);
      case Commit =>
        if CommitsVoice(s.loop.req.call, s.loop.handled) {
          CommitVoiceKept(s, env);
        } else {
          CommitOtherKept(s, env);
        }
      case ClearVoice => ClearVoiceKept(s, env);
      case ClearAborted => ClearAbortedKept(s, env);
      case _ => CallbackKept(s, env, step);
    }
  }

  lemma {:induction false} Reachable(steps: seq<Step>, env: Envelope)
    requires After(steps, env).Some?
    ensures Invariant(After(steps, env).value, env)
  {
    if steps != [] {
      Reachable(steps[..|steps| - 1], env);
      InvariantKept(After(steps[..|steps| - 1], env).value, env, steps[|steps| - 1]);
    }
  }

  // ---------------------------------------------------------------- the theorems

  /** An in-air abort or kill was handled and no clear has followed it. */
  ghost predicate AbortStands(trace: seq<Event>) {
    exists i :: 0 <= i < |trace| && InAirAbort(trace[i]) && forall j :: i < j < |trace| ==> !trace[j].AbortCleared?
  }

  /**
   Abort latch, over every interleaving with the armed callback: the latch is set exactly when an abort or kill
   was handled in the air and nothing has cleared the latch since, a clear being the callback's or a successful
   disarm's; and no tool other than abort, kill, land and disarm is ever dispatched while it is set.
  */
  lemma AbortLatchSafety(steps: seq<Step>, env: Envelope)
    requires After(steps, env).Some?
    ensures var s := After(steps, env).value;
      && (s.aborted <==> AbortStands(s.trace))
      && (forall i :: 0 <= i < |s.trace| && s.trace[i].Dispatched? && AbortStands(s.trace[..i]) ==>
            s.trace[i].req.call.name in {"abort", "kill", "land", "disarm"})
      && (forall i :: 0 <= i < |s.trace| && s.trace[i].AbortCleared? && s.trace[i].cause.Some? ==>
            exists d :: 0 <= d < i && DisarmedByPx4(s.trace[d], s.trace[i].cause.value))
  {
    Reachable(steps, env);
    var s := After(steps, env).value;
    StandsIsOrigin(s.trace);
    forall i | 0 <= i < |s.trace| && s.trace[i].Dispatched? && AbortStands(s.trace[..i])
      ensures s.trace[i].req.call.name in {"abort", "kill", "land", "disarm"}
    {
      StandsIsOrigin(s.trace[..i]);
      assert EventFits(s.trace[..i], s.trace[i], env);
    }
    forall i | 0 <= i < |s.trace| && s.trace[i].AbortCleared? && s.trace[i].cause.Some?
      ensures exists d :: 0 <= d < i && DisarmedByPx4(s.trace[d], s.trace[i].cause.value)
    {
      var d := ClearWasAccepted(s.trace, env, i);
    }
  }

  lemma StandsIsOrigin(trace: seq<Event>)
    ensures AbortStands(trace) <==> AbortOrigin(trace).Some?
  {
    var o := AbortOrigin(trace);
    if o.Some? {
      assert InAirAbort(trace[o.value]);
    }
  }

  /** An arm of this call that PX4 accepted. */
  predicate ArmedByPx4(e: Event, call: ToolCall) {
    e.Dispatched? && e.req.call == call && call.name == "arm" && e.px4.action && e.px4.answer == Success
  }

  /** The dispatch of this request, a disarm that PX4 accepted. */
  predicate DisarmedByPx4(e: Event, req: Request) {
    e.Dispatched? && e.req == req && req.call.name == "disarm" && e.px4.action && e.px4.answer == Success
  }

  /** A clear with a cause follows a disarm that PX4 accepted. */
  lemma ClearWasAccepted(trace: seq<Event>, env: Envelope, c: nat) returns (d: nat)
    requires TraceSound(trace, env) && c < |trace|
    requires (trace[c].VoiceCleared? || trace[c].AbortCleared?) && trace[c].cause.Some?
    ensures d < c && DisarmedByPx4(trace[d], trace[c].cause.value)
  {
    assert EventFits(trace[..c], trace[c], env);
    var dispatch := Current(trace[..c]).value.dispatch.value;
    d :| 0 <= d < c && trace[..c][d] == dispatch;
    assert EventFits(trace[..d], trace[d], env);
    DisarmCommits(trace[c].cause.value.call, dispatch.px4);
  }

  /** The loop is only ever about to clear the latches for a disarm that PX4 accepted. */
  lemma ClearingIsDisarm(s: State, env: Envelope)
    requires Invariant(s, env) && s.loop.ClearingVoice?
    ensures exists d :: 0 <= d < |s.trace| && DisarmedByPx4(s.trace[d], s.loop.req)
  {
    var dispatch := Current(s.trace).value.dispatch.value;
    var d :| 0 <= d < |s.trace| && s.trace[d] == dispatch;
    assert EventFits(s.trace[..d], s.trace[d], env);
    DisarmCommits(s.loop.req.call, dispatch.px4);
    assert DisarmedByPx4(s.trace[d], s.loop.req);
  }

  /** What the commit does, for each tool and each answer of PX4. */
  lemma DisarmCommits(call: ToolCall, px4: Px4)
    ensures CommitsClear(call, SafetyGate.Dispatch(call, px4)) <==>
      call.name == "disarm" && px4.action && px4.answer == Success
  {
    HandlersByName(call.name);
    if call.name == "disarm" {
      PlainSucceeds(HandlesDisarm, call.args, px4);
    }
  }

  lemma ArmCommits(call: ToolCall, px4: Px4)
    ensures CommitsVoice(call, SafetyGate.Dispatch(call, px4)) <==>
      call.name == "arm" && SaysConfirmed(call.args) && px4.action && px4.answer == Success
  {
    HandlersByName(call.name);
    ConfirmedIs(call.args);
    if call.name == "arm" {
      PlainSucceeds(HandlesArm, call.args, px4);
    }
  }

  /**
   With the spoken-arm rule on, a takeoff that passed the gate, and an arm that passed it without its own
   confirmation, was let through by the commit, at `c`, of an earlier confirmed arm that PX4 had accepted, at
   `d`, with no clear between the commit and the gate.
  */
  lemma PassedByCommit(trace: seq<Event>, env: Envelope, i: nat) returns (c: nat, d: nat)
    requires TraceSound(trace, env) && env.requireSpokenArm
    requires i < |trace| && trace[i].Passed?
    requires trace[i].req.call.name == "takeoff" ||
             (trace[i].req.call.name == "arm" && !SaysConfirmed(trace[i].req.call.args))
    ensures d < c < i && trace[c].VoiceSet? && trace[d].Dispatched? && trace[d].req == trace[c].req
    ensures ArmedByPx4(trace[d], trace[c].req.call) && SaysConfirmed(trace[c].req.call.args)
    ensures forall j :: c < j < i ==> !trace[j].VoiceCleared?
  {
    c := PassedOnLatch(trace, env, i);
    d := CommitWasAccepted(trace, env, c);
  }

  /** The gate found the voice latch set, by the commit at `c`. */
  lemma PassedOnLatch(trace: seq<Event>, env: Envelope, i: nat) returns (c: nat)
    requires TraceSound(trace, env) && env.requireSpokenArm
    requires i < |trace| && trace[i].Passed?
    requires trace[i].req.call.name == "takeoff" ||
             (trace[i].req.call.name == "arm" && !SaysConfirmed(trace[i].req.call.args))
    ensures c < i && trace[c].VoiceSet? && forall j :: c < j < i ==> !trace[j].VoiceCleared?
  {
    assert EventFits(trace[..i], trace[i], env);
    var load := trace[i - 1];
    assert trace[..i][|trace[..i]| - 1] == load;
    assert EventFits(trace[..i - 1], load, env);
    GatePassesSoundly(trace[i].req, env, load.aborted, load.voice);
    c := LatchOrigin(trace, i - 1);
  }

  lemma LatchOrigin(trace: seq<Event>, n: nat) returns (c: nat)
    requires n < |trace| && VoiceCommit(trace[..n]).Some? && trace[n].GateLoaded?
    ensures c < n && trace[c].VoiceSet? && forall j :: c < j <= n ==> !trace[j].VoiceCleared?
  {
    c := VoiceCommit(trace[..n]).value;
    assert forall j :: 0 <= j < n ==> trace[..n][j] == trace[j];
  }

  /** A commit of the voice latch follows an arm that PX4 accepted. */
  lemma CommitWasAccepted(trace: seq<Event>, env: Envelope, c: nat) returns (d: nat)
    requires TraceSound(trace, env) && c < |trace| && trace[c].VoiceSet?
    ensures d < c && trace[d].Dispatched? && trace[d].req == trace[c].req
    ensures ArmedByPx4(trace[d], trace[c].req.call) && SaysConfirmed(trace[c].req.call.args)
  {
    assert EventFits(trace[..c], trace[c], env);
    var dispatch := Current(trace[..c]).value.dispatch.value;
    d :| 0 <= d < c && trace[..c][d] == dispatch;
    assert EventFits(trace[..d], trace[d], env);
    ArmCommits(trace[c].req.call, dispatch.px4);
  }

  lemma GatePassesSoundly(req: Request, env: Envelope, aborted: bool, voice: bool)
    requires CheckTool(req.call, env, aborted, voice) == Allow
    ensures SpokenArmMet(req, voice, env)
  {
  }

  /** A trace without the stores of the callback. */
  ghost function Spoken(trace: seq<Event>): seq<Event> {
    if trace == [] then []
    else
      var n := |trace| - 1;
      Spoken(trace[..n]) + (if OfCallback(trace[n]) then [] else [trace[n]])
  }

  lemma SpokenMore(trace: seq<Event>, e: Event)
    ensures Spoken(trace + [e]) == Spoken(trace) + (if OfCallback(e) then [] else [e])
  {
    assert (trace + [e])[..|trace|] == trace;
  }

  // ---------------------------------------------------------------- which requests a step speaks of

  ghost function LoopRequest(loop: Loop): Option<Request> {
    match loop
    case LoadingAborted(req) => Some(req)
    case LoadingVoice(req, _) => Some(req)
    case Dispatching(req) => Some(req)
    case Committing(req, _) => Some(req)
    case ClearingVoice(req, _) => Some(req)
    case ClearingAborted(req, _) => Some(req)
    case _ => None
  }

  ghost function RequestOf(e: Event): Option<Request> {
    match e
    case Received(id, call) => if call.Some? then Some(Request(id, call.value)) else None
    case GateLoaded(req, _, _, _) => Some(req)
    case Passed(req) => Some(req)
    case Dispatched(req, _, _, _) => Some(req)
    case VoiceSet(req) => Some(req)
    case VoiceCleared(cause) => cause
    case AbortCleared(cause) => cause
    case Settled(id, call, _) => if call.Some? then Some(Request(id, call.value)) else None
  }

  /** The request a step is about: the one in the loop, or the one it puts there. */
  ghost function StepRequest(s: State, step: Step): Option<Request> {
    if step.Receive? then Some(step.req) else LoopRequest(s.loop)
  }

  /** A step only records events about its request, and only receiving puts a new one in the loop. */
  lemma StepSpeaksOfLoop(s: State, env: Envelope, step: Step)
    requires Enabled(s, step)
    ensures var t := Next(s, env, step);
      && t.trace == s.trace + Emits(s, env, step)
      && (forall e :: e in Emits(s, env, step) && RequestOf(e).Some? ==> RequestOf(e) == StepRequest(s, step))
      && (LoopRequest(t.loop).Some? ==> LoopRequest(t.loop) == StepRequest(s, step))
  {
    StepEmitsOfRequest(s, env, step);
    StepKeepsRequest(s, env, step);
  }

  lemma StepEmitsOfRequest(s: State, env: Envelope, step: Step)
    requires Enabled(s, step)
    ensures forall e :: e in Emits(s, env, step) && RequestOf(e).Some? ==> RequestOf(e) == StepRequest(s, step)
  {
  }

  lemma StepKeepsRequest(s: State, env: Envelope, step: Step)
    requires Enabled(s, step)
    ensures LoopRequest(NextLoop(s, env, step)).Some? ==> LoopRequest(NextLoop(s, env, step)) == StepRequest(s, step)
  {
  }

  /** The identity of the message being handled. */
  ghost function LoopId(loop: Loop): Option<nat> {
    if loop.Polling? then None
    else if loop.Replying? then Some(loop.id)
    else Some(loop.req.id)
  }

  lemma LoopIdStays(s: State, env: Envelope, step: Step)
    requires Enabled(s, step)
    ensures LoopId(NextLoop(s, env, step)) ==
      if step.Receive? then Some(step.req.id) else if step.ReceiveGarbage? then Some(step.id)
      else if step.Reply? then None else LoopId(s.loop)
  {
  }
}
