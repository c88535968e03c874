/**
 What the bridge machine says for one message, from its receipt to its result (src/flight_bridge/main.cpp), the
 stores of the armed callback aside.  In every run each settled message has one complete script: a denial with
 the gate's reason, or one dispatch, the latch stores its tool and PX4's answer call for, and the result.
*/
module BridgeScripts {
  import opened Messages
  import opened SafetyGate
  import opened VehicleCommands
  import opened FlightBridge

  /** The loop's events since the last message settled. */
  ghost function Open(trace: seq<Event>): seq<Event> {
    if trace == [] then []
    else
      var n := |trace| - 1;
      if trace[n].Settled? then []
      else if OfCallback(trace[n]) then Open(trace[..n])
      else Open(trace[..n]) + [trace[n]]
  }

  lemma OpenMore(trace: seq<Event>, e: Event)
    ensures Open(trace + [e]) ==
      if e.Settled? then [] else if OfCallback(e) then Open(trace) else Open(trace) + [e]
  {
    assert (trace + [e])[..|trace|] == trace;
  }

  // ---------------------------------------------------------------- scripts

  predicate Accepted(px4: Px4) { px4.action && px4.answer == Success }

  /** An accepted confirmed arm sets the voice latch; an accepted disarm clears both; nothing else stores. */
  function LatchStores(req: Request, px4: Px4): seq<Event> {
    if req.call.name == "disarm" && Accepted(px4) then [VoiceCleared(Some(req)), AbortCleared(Some(req))]
    else if req.call.name == "arm" && Accepted(px4) && SaysConfirmed(req.call.args) then [VoiceSet(req)]
    else []
  }

  /** The result of a dispatched call; an accepted arm with an unreadable voice_confirmed is refused all the same. */
  predicate Results(call: ToolCall, px4: Px4, handled: Handled, result: Result) {
    if handled.BadRequest? || (call.name == "arm" && Accepted(px4) && Unreadable(call.args)) then result == Rejected
    else result == Answered(handled.reply)
  }

  predicate Refusal(gate: Gate, result: Result) {
    match gate
    case Allow => false
    case Deny(reason) => result == Denied(reason)
    case Throws => result == Rejected
  }

  function Entering(req: Request, aborted: bool, voice: bool, gate: Gate): seq<Event> {
    [Received(req.id, Some(req.call)), GateLoaded(req, aborted, voice, gate)]
  }

  function Running(req: Request, aborted: bool, voice: bool, px4: Px4, later: bool): seq<Event> {
    Entering(req, aborted, voice, Allow) + [Passed(req)] +
      [Dispatched(req, px4, SafetyGate.Dispatch(req.call, px4), later)]
  }

  /** `said` and then `result` is all that happens for the message, with the gate's verdict on what it loaded. */
  ghost predicate Scripted(said: seq<Event>, id: nat, call: Option<ToolCall>, result: Result, env: Envelope) {
    if call == None then said == [Received(id, None)] && result == Rejected
    else
      var req := Request(id, call.value);
      || (exists aborted, voice :: WasRefused(said, req, aborted, voice, result, env))
      || (exists aborted, voice, px4, later :: WasRun(said, req, aborted, voice, px4, later, result, env))
  }

  predicate WasRefused(said: seq<Event>, req: Request, aborted: bool, voice: bool, result: Result, env: Envelope) {
    var gate := CheckTool(req.call, env, aborted, voice);
    Refusal(gate, result) && said == Entering(req, aborted, voice, gate)
  }

  predicate WasRun(said: seq<Event>, req: Request, aborted: bool, voice: bool, px4: Px4, later: bool, result: Result,
        env: Envelope) {
    && CheckTool(req.call, env, aborted, voice) == Allow
    && said == Running(req, aborted, voice, px4, later) + LatchStores(req, px4)
    && Results(req.call, px4, SafetyGate.Dispatch(req.call, px4), result)
  }

  ghost predicate ScriptedAt(trace: seq<Event>, i: nat, env: Envelope)
    requires i < |trace| && trace[i].Settled?
  {
    Scripted(Open(trace[..i]), trace[i].id, trace[i].call, trace[i].result, env)
  }

  ghost predicate AllScripted(trace: seq<Event>, env: Envelope) {
    forall i :: 0 <= i < |trace| && trace[i].Settled? ==> ScriptedAt(trace, i, env)
  }

  // ---------------------------------------------------------------- every run keeps to them

  /** How far the loop has come with its message. */
  ghost predicate UnderWay(open: seq<Event>, loop: Loop, env: Envelope) {
    match loop
    case Polling => open == []
    case LoadingAborted(req) => open == [Received(req.id, Some(req.call))]
    case LoadingVoice(req, _) => open == [Received(req.id, Some(req.call))]
    case Dispatching(req) => exists aborted, voice :: PassedWith(open, req, aborted, voice, env)
    case Committing(req, handled) =>
      exists aborted, voice, px4, later :: RanWith(open, req, handled, aborted, voice, px4, later, [], env)
    case ClearingVoice(req, handled) =>
      exists aborted, voice, px4, later :: DisarmedWith(open, req, handled, aborted, voice, px4, later, [], env)
    case ClearingAborted(req, handled) =>
      exists aborted, voice, px4, later ::
        DisarmedWith(open, req, handled, aborted, voice, px4, later, [VoiceCleared(Some(req))], env)
    case Replying(_, _) => open == []
  }

  ghost predicate PassedWith(open: seq<Event>, req: Request, aborted: bool, voice: bool, env: Envelope) {
    CheckTool(req.call, env, aborted, voice) == Allow && open == Entering(req, aborted, voice, Allow) + [Passed(req)]
  }

  ghost predicate RanWith(open: seq<Event>, req: Request, handled: Handled, aborted: bool, voice: bool, px4: Px4,
        later: bool, stores: seq<Event>, env: Envelope) {
    && CheckTool(req.call, env, aborted, voice) == Allow && handled == SafetyGate.Dispatch(req.call, px4)
    && handled.Handled? && open == Running(req, aborted, voice, px4, later) + stores
  }

  ghost predicate DisarmedWith(open: seq<Event>, req: Request, handled: Handled, aborted: bool, voice: bool,
        px4: Px4, later: bool, stores: seq<Event>, env: Envelope) {
    RanWith(open, req, handled, aborted, voice, px4, later, stores, env) && req.call.name == "disarm" && Accepted(px4)
  }

  ghost predicate Invariant(s: State, env: Envelope) {
    UnderWay(Open(s.trace), s.loop, env) && AllScripted(s.trace, env)
  }

  lemma ScriptedMore(trace: seq<Event>, e: Event, env: Envelope)
    requires AllScripted(trace, env)
    requires e.Settled? ==> Scripted(Open(trace), e.id, e.call, e.result, env)
    ensures AllScripted(trace + [e], env)
  {
    var more := trace + [e];
    assert more[..|trace|] == trace;
    forall i | 0 <= i < |more| && more[i].Settled? ensures ScriptedAt(more, i, env) {
      if i < |trace| {
        assert more[..i] == trace[..i];
        assert ScriptedAt(trace, i, env);
      }
    }
  }

  /** One event more that does not settle anything. */
  lemma Says(trace: seq<Event>, e: Event, env: Envelope)
    requires AllScripted(trace, env) && !e.Settled?
    ensures AllScripted(trace + [e], env)
    ensures Open(trace + [e]) == if OfCallback(e) then Open(trace) else Open(trace) + [e]
  {
    ScriptedMore(trace, e, env);
    OpenMore(trace, e);
  }

  lemma Settles(trace: seq<Event>, id: nat, call: Option<ToolCall>, result: Result, env: Envelope)
    requires AllScripted(trace, env) && Scripted(Open(trace), id, call, result, env)
    ensures AllScripted(trace + [Settled(id, call, result)], env) && Open(trace + [Settled(id, call, result)]) == []
  {
    ScriptedMore(trace, Settled(id, call, result), env);
    OpenMore(trace, Settled(id, call, result));
  }

  lemma QuietKept(s: State, env: Envelope, step: Step)
    requires Invariant(s, env) && Enabled(s, step) && (step.LoadAborted? || step.Reply?)
    ensures Invariant(Next(s, env, step), env)
  {
    assert s.trace + [] == s.trace;
  }

  lemma ReceiveKept(s: State, env: Envelope, step: Step)
    requires Invariant(s, env) && Enabled(s, step) && (step.Receive? || step.ReceiveGarbage?)
    ensures Invariant(Next(s, env, step), env)
  {
    if step.Receive? {
      Says(s.trace, Received(step.req.id, Some(step.req.call)), env);
    } else {
      Says(s.trace, Received(step.id, None), env);
      Settles(s.trace + [Received(step.id, None)], step.id, None, Rejected, env);
      OneThenOne(s.trace, Received(step.id, None), Settled(step.id, None, Rejected));
    }
  }

  lemma PassesOn(trace: seq<Event>, req: Request, aborted: bool, voice: bool, env: Envelope)
    requires AllScripted(trace, env) && Open(trace) == Entering(req, aborted, voice, Allow)
    requires CheckTool(req.call, env, aborted, voice) == Allow
    ensures AllScripted(trace + [Passed(req)], env)
    ensures PassedWith(Open(trace + [Passed(req)]), req, aborted, voice, env)
  {
    Says(trace, Passed(req), env);
  }

  lemma Refuses(trace: seq<Event>, req: Request, aborted: bool, voice: bool, env: Envelope)
    requires CheckTool(req.call, env, aborted, voice) != Allow && AllScripted(trace, env)
    requires Open(trace) == Entering(req, aborted, voice, CheckTool(req.call, env, aborted, voice))
    ensures var t := trace + [Settle(req, GateResult(CheckTool(req.call, env, aborted, voice)))];
      AllScripted(t, env) && Open(t) == []
  {
    var result := GateResult(CheckTool(req.call, env, aborted, voice));
    assert WasRefused(Open(trace), Request(req.id, req.call), aborted, voice, result, env);
    Settles(trace, req.id, Some(req.call), result, env);
  }

  lemma LoadVoiceKept(s: State, env: Envelope)
    requires Invariant(s, env) && Enabled(s, LoadVoice)
    ensures Invariant(Next(s, env, LoadVoice), env)
  {
    var req, aborted, voice := s.loop.req, s.loop.aborted, s.armedWithVoice;
    var gate := CheckTool(req.call, env, aborted, voice);
    var loaded := GateLoaded(req, aborted, voice, gate);
    Says(s.trace, loaded, env);
    assert Open(s.trace + [loaded]) == Entering(req, aborted, voice, gate);
    if gate == Allow {
      PassesOn(s.trace + [loaded], req, aborted, voice, env);
      OneThenOne(s.trace, loaded, Passed(req));
    } else {
      Refuses(s.trace + [loaded], req, aborted, voice, env);
      OneThenOne(s.trace, loaded, Settle(req, GateResult(gate)));
    }
  }

  lemma DispatchKept(s: State, env: Envelope, px4: Px4)
    requires Invariant(s, env) && Enabled(s, FlightBridge.Dispatch(px4))
    ensures Invariant(Next(s, env, FlightBridge.Dispatch(px4)), env)
  {
    var req := s.loop.req;
    var aborted, voice :| PassedWith(Open(s.trace), req, aborted, voice, env);
    var handled := SafetyGate.Dispatch(req.call, px4);
    var entered := Dispatched(req, px4, handled, s.aborted);
    Says(s.trace, entered, env);
    var open := Open(s.trace + [entered]);
    assert open == Running(req, aborted, voice, px4, s.aborted) + [];
    if handled.BadRequest? {
      BadRequestsStoreNothing(req, px4);
      assert WasRun(open, Request(req.id, req.call), aborted, voice, px4, s.aborted, Rejected, env);
      Settles(s.trace + [entered], req.id, Some(req.call), Rejected, env);
      OneThenOne(s.trace, entered, Settle(req, Rejected));
    } else {
      assert RanWith(open, req, handled, aborted, voice, px4, s.aborted, [], env);
    }
  }

  lemma BadRequestsStoreNothing(req: Request, px4: Px4)
    requires SafetyGate.Dispatch(req.call, px4).BadRequest?
    ensures LatchStores(req, px4) == []
  {
    HandlersByName(req.call.name);
    if HandlerOf(req.call.name).Some? {
      BadRequests(HandlerOf(req.call.name).value, req.call.args, px4);
    }
  }

  /** What the commit stores, and the result it settles with, in terms of the tool and PX4's answer. */
  lemma CommitIs(req: Request, px4: Px4)
    ensures var handled := SafetyGate.Dispatch(req.call, px4);
      && Results(req.call, px4, handled, ResultOf(req.call, handled))
      && (CommitsClear(req.call, handled) <==> req.call.name == "disarm" && Accepted(px4))
      && (!CommitsClear(req.call, handled) ==>
           LatchStores(req, px4) == if CommitsVoice(req.call, handled) then [VoiceSet(req)] else [])
  {
    DisarmCommits(req.call, px4);
    ArmCommits(req.call, px4);
    ConfirmedIs(req.call.args);
    HandlersByName(req.call.name);
    if req.call.name == "arm" {
      PlainSucceeds(HandlesArm, req.call.args, px4);
    }
  }

  lemma CommitEmits(s: State, env: Envelope, px4: Px4)
    requires Enabled(s, Commit) && s.loop.handled == SafetyGate.Dispatch(s.loop.req.call, px4)
    requires !CommitsClear(s.loop.req.call, s.loop.handled)
    ensures var req, result := s.loop.req, ResultOf(s.loop.req.call, s.loop.handled);
      Emits(s, env, Commit) == LatchStores(req, px4) + [Settle(req, result)]
  {
    CommitIs(s.loop.req, px4);
  }

  lemma CommitKept(s: State, env: Envelope)
    requires Invariant(s, env) && Enabled(s, Commit)
    ensures Invariant(Next(s, env, Commit), env)
  {
    var req, handled := s.loop.req, s.loop.handled;
    var aborted, voice, px4, later :|
      RanWith(Open(s.trace), req, handled, aborted, voice, px4, later, [], env);
    CommitIs(req, px4);
    var result := ResultOf(req.call, handled);
    if CommitsClear(req.call, handled) {
      assert s.trace + [] == s.trace;
      assert DisarmedWith(Open(s.trace), req, handled, aborted, voice, px4, later, [], env);
    } else {
      CommitEmits(s, env, px4);
      CommitSettles(s.trace, req, aborted, voice, px4, later, result, env);
    }
  }

  /** The last stores of a message, at most one here, and its result. */
  lemma CommitSettles(trace: seq<Event>, req: Request, aborted: bool, voice: bool, px4: Px4, later: bool,
        result: Result, env: Envelope)
    requires AllScripted(trace, env) && CheckTool(req.call, env, aborted, voice) == Allow
    requires Open(trace) == Running(req, aborted, voice, px4, later) + []
    requires LatchStores(req, px4) == [] || LatchStores(req, px4) == [VoiceSet(req)]
    requires Results(req.call, px4, SafetyGate.Dispatch(req.call, px4), result)
    ensures var t := trace + (LatchStores(req, px4) + [Settle(req, result)]);
      AllScripted(t, env) && Open(t) == []
  {
    if LatchStores(req, px4) == [] {
      assert WasRun(Open(trace), Request(req.id, req.call), aborted, voice, px4, later, result, env);
      Settles(trace, req.id, Some(req.call), result, env);
      assert [] + [Settle(req, result)] == [Settle(req, result)];
    } else {
      Says(trace, VoiceSet(req), env);
      var said := trace + [VoiceSet(req)];
      assert Open(said) == Running(req, aborted, voice, px4, later) + LatchStores(req, px4);
      assert WasRun(Open(said), Request(req.id, req.call), aborted, voice, px4, later, result, env);
      Settles(said, req.id, Some(req.call), result, env);
      assert said + [Settle(req, result)] == trace + (LatchStores(req, px4) + [Settle(req, result)]);
    }
  }

  lemma ClearVoiceKept(s: State, env: Envelope)
    requires Invariant(s, env) && Enabled(s, ClearVoice)
    ensures Invariant(Next(s, env, ClearVoice), env)
  {
    var req, handled := s.loop.req, s.loop.handled;
    var aborted, voice, px4, later :|
      DisarmedWith(Open(s.trace), req, handled, aborted, voice, px4, later, [], env);
    var e := VoiceCleared(Some(req));
    Says(s.trace, e, env);
    assert DisarmedWith(Open(s.trace + [e]), req, handled, aborted, voice, px4, later, [e], env);
  }

  lemma ClearAbortedKept(s: State, env: Envelope)
    requires Invariant(s, env) && Enabled(s, ClearAborted)
    ensures Invariant(Next(s, env, ClearAborted), env)
  {
    var req, handled := s.loop.req, s.loop.handled;
    var first, e := VoiceCleared(Some(req)), AbortCleared(Some(req));
    var aborted, voice, px4, later :|
      DisarmedWith(Open(s.trace), req, handled, aborted, voice, px4, later, [first], env);
    var result := ResultOf(req.call, handled);
    CommitIs(req, px4);
    Says(s.trace, e, env);
    assert Open(s.trace + [e]) == Running(req, aborted, voice, px4, later) + LatchStores(req, px4);
    assert WasRun(Open(s.trace + [e]), Request(req.id, req.call), aborted, voice, px4, later, result, env);
    Settles(s.trace + [e], req.id, Some(req.call), result, env);
    OneThenOne(s.trace, e, Settle(req, result));
  }

  lemma CallbackKept(s: State, env: Envelope, step: Step)
    requires Invariant(s, env) && Enabled(s, step) && (step.ArmedFalse? || step.ArmedFalseAgain?)
    ensures Invariant(Next(s, env, step), env)
  {
    Says(s.trace, if step.ArmedFalse? then VoiceCleared(None) else AbortCleared(None), env);
  }

  lemma InvariantKept(s: State, env: Envelope, step: Step)
    requires Invariant(s, env) && Enabled(s, step)
    ensures Invariant(Next(s, env, step), env)
  {
    match step
    case Receive(_) => ReceiveKept(s, env, step);
    case ReceiveGarbage(_) => ReceiveKept(s, env, step);
    case LoadAborted => QuietKept(s, env, step);
    case LoadVoice => LoadVoiceKept(s, env);
    case Dispatch(px4) => DispatchKept(s, env, px4);
    case Commit => CommitKept(s, env);
    case ClearVoice => ClearVoiceKept(s, env);
    case ClearAborted => ClearAbortedKept(s, env);
    case Reply => QuietKept(s, env, step);
    case ArmedFalse => CallbackKept(s, env, step);
    case ArmedFalseAgain => CallbackKept(s, env, step);
  }

  lemma {:induction false} Reachable(steps: seq<Step>, env: Envelope)
    requires After(steps, env).Some?
    ensures Invariant(After(steps, env).value, env)
  {
    if steps != [] {
      Reachable(steps[..|steps| - 1], env);
      InvariantKept(After(steps[..|steps| - 1], env).value, env, steps[|steps| - 1]);
    }
  }

  // ---------------------------------------------------------------- the theorems

  /** Every settled message has its script, whole and nothing else, in every run. */
  lemma SettledByScript(steps: seq<Step>, env: Envelope, i: nat)
    requires After(steps, env).Some?
    requires i < |After(steps, env).value.trace| && After(steps, env).value.trace[i].Settled?
    ensures ScriptedAt(After(steps, env).value.trace, i, env)
  {
    Reachable(steps, env);
  }

  lemma {:induction false} OpenSplits(trace: seq<Event>, d: nat)
    requires d <= |trace| && forall k :: d <= k < |trace| ==> !trace[k].Settled?
    ensures Open(trace) == Open(trace[..d]) + Spoken(trace[d..])
  {
    if d == |trace| {
      assert trace[..d] == trace && trace[d..] == [];
      assert Open(trace) + [] == Open(trace);
    } else {
      var n := |trace| - 1;
      OpenSplits(trace[..n], d);
      assert trace[..n][..d] == trace[..d];
      assert trace[d..] == trace[..n][d..] + [trace[n]];
      assert trace == trace[..n] + [trace[n]];
      SpokenMore(trace[..n][d..], trace[n]);
      OpenMore(trace[..n], trace[n]);
      ThenOne(Open(trace[..d]), Spoken(trace[..n][d..]), trace[n]);
    }
  }

  lemma ThenOne(a: seq<Event>, b: seq<Event>, e: Event)
    ensures (a + b) + [e] == a + (b + [e]) && b + [] == b
  {
  }

  lemma {:induction false} SpokenHead(trace: seq<Event>)
    requires trace != [] && !OfCallback(trace[0])
    ensures Spoken(trace) == [trace[0]] + Spoken(trace[1..])
  {
    if |trace| == 1 {
      assert trace == [] + [trace[0]];
      SpokenMore([], trace[0]);
    } else {
      var n := |trace| - 1;
      SpokenHead(trace[..n]);
      assert trace[1..] == trace[..n][1..] + [trace[n]] && trace == trace[..n] + [trace[n]];
      SpokenMore(trace[..n][1..], trace[n]);
      SpokenMore(trace[..n], trace[n]);
    }
  }

  /**
   Between the dispatch of a call and its result the loop stores exactly what the tool and PX4's answer call for:
   for an accepted disarm a clear of both latches, for an accepted confirmed arm the voice latch, for every other
   call nothing.  Then the call settles, with the handler's answer unless reading voice_confirmed throws.
  */
  lemma StoresOfCall(steps: seq<Step>, env: Envelope, d: nat, i: nat)
    requires After(steps, env).Some? && d < i < |After(steps, env).value.trace|
    requires After(steps, env).value.trace[d].Dispatched? && After(steps, env).value.trace[i].Settled?
    requires forall k :: d < k < i ==> !After(steps, env).value.trace[k].Settled?
    ensures var trace := After(steps, env).value.trace;
      var req, px4 := trace[d].req, trace[d].px4;
      && Spoken(trace[d + 1..i]) == LatchStores(req, px4)
      && trace[i].id == req.id && trace[i].call == Some(req.call)
      && Results(req.call, px4, trace[d].handled, trace[i].result)
  {
    var trace := After(steps, env).value.trace;
    SettledByScript(steps, env, i);
    OpenAround(trace, d, i);
    OneDispatch(Open(trace[..d]), trace[d], Spoken(trace[d + 1..i]), trace[i], env);
  }

  lemma OpenAround(trace: seq<Event>, d: nat, i: nat)
    requires d < i <= |trace| && !OfCallback(trace[d]) && forall k :: d <= k < i ==> !trace[k].Settled?
    ensures Open(trace[..i]) == Open(trace[..d]) + ([trace[d]] + Spoken(trace[d + 1..i]))
  {
    OpenSplits(trace[..i], d);
    Cuts(trace, d, i);
    SpokenHead(trace[d..i]);
  }

  lemma Cuts(trace: seq<Event>, d: nat, i: nat)
    requires d < i <= |trace|
    ensures trace[..i][..d] == trace[..d] && trace[..i][d..] == trace[d..i]
    ensures trace[d..i][0] == trace[d] && trace[d..i][1..] == trace[d + 1..i]
  {
  }

  /** A script with a dispatch in it: what comes behind the dispatch. */
  lemma OneDispatch(front: seq<Event>, e: Event, back: seq<Event>, settled: Event, env: Envelope)
    requires e.Dispatched? && settled.Settled?
    requires Scripted(front + ([e] + back), settled.id, settled.call, settled.result, env)
    ensures back == LatchStores(e.req, e.px4) && settled.id == e.req.id && settled.call == Some(e.req.call)
    ensures Results(e.req.call, e.px4, e.handled, settled.result)
  {
    var said := front + ([e] + back);
    assert said[|front|] == e;
    var req := Request(settled.id, settled.call.value);
    var aborted, voice, px4, later :| WasRun(said, req, aborted, voice, px4, later, settled.result, env);
    var running := Running(req, aborted, voice, px4, later);
    assert said == running + LatchStores(req, px4);
    assert |front| == 3;
    assert said[3] == running[3] && said[4..] == back;
    assert said[4..] == LatchStores(req, px4);
  }
}
