/**
 No tool call is executed twice: over the lossy network with its recycled REQ sockets
 (python/services/orchestrator/main.py) and rebuilt REP sockets (src/flight_bridge/main.cpp), every request that was
 sent is dispatched at most once.
*/
module AtMostOnce {
  import opened Messages
  import opened SafetyGate
  import opened System
  import FlightBridge

  ghost predicate DispatchOf(e: FlightBridge.Event, id: nat) { e.Dispatched? && e.req.id == id }

  /** A dispatch of this request is in the trace. */
  ghost predicate Ran(trace: seq<FlightBridge.Event>, id: nat) {
    exists i :: 0 <= i < |trace| && DispatchOf(trace[i], id)
  }

  ghost predicate OnceEach(trace: seq<FlightBridge.Event>) {
    forall i, j :: 0 <= i < j < |trace| && trace[i].Dispatched? && trace[j].Dispatched? ==>
      trace[i].req.id != trace[j].req.id
  }

  /** The loop has a request it has not dispatched yet. */
  predicate BeforeDispatch(loop: FlightBridge.Loop) {
    loop.LoadingAborted? || loop.LoadingVoice? || loop.Dispatching?
  }

  ghost predicate BridgeOnce(b: FlightBridge.State) {
    OnceEach(b.trace) && (BeforeDispatch(b.loop) ==> !Ran(b.trace, b.loop.req.id))
  }

  /** What has run is neither on the wire nor still to be sent. */
  ghost predicate Once(s: State) {
    BridgeOnce(s.bridge) && forall id: nat :: Ran(s.bridge.trace, id) ==> id !in s.requests && id < s.nextId
  }

  /** The request a bridge step dispatches. */
  ghost function Dispatching(b: FlightBridge.State, step: FlightBridge.Step): Option<nat> {
    if step.Dispatch? && b.loop.Dispatching? then Some(b.loop.req.id) else None
  }

  lemma RanMore(trace: seq<FlightBridge.Event>, more: seq<FlightBridge.Event>, id: nat)
    ensures Ran(trace + more, id) <==> Ran(trace, id) || Ran(more, id)
  {
    assert forall i :: 0 <= i < |trace| ==> (trace + more)[i] == trace[i];
    assert forall i :: 0 <= i < |more| ==> (trace + more)[|trace| + i] == more[i];
    if Ran(more, id) {
      var i :| 0 <= i < |more| && DispatchOf(more[i], id);
      assert DispatchOf((trace + more)[|trace| + i], id);
    }
    if Ran(trace, id) {
      var i :| 0 <= i < |trace| && DispatchOf(trace[i], id);
      assert DispatchOf((trace + more)[i], id);
    }
  }

  /** Only the dispatch step records a dispatch, as the first of what it records, and only one. */
  lemma StepDispatches(b: FlightBridge.State, env: Envelope, step: FlightBridge.Step)
    requires FlightBridge.Enabled(b, step)
    ensures var more := FlightBridge.Emits(b, env, step);
      && (forall k :: 0 <= k < |more| && more[k].Dispatched? ==> k == 0)
      && forall id: nat :: Ran(more, id) <==> Dispatching(b, step) == Some(id)
  {
    var more := FlightBridge.Emits(b, env, step);
    if step.Dispatch? {
      assert DispatchOf(more[0], b.loop.req.id);
    } else {
      assert forall k :: 0 <= k < |more| ==> !more[k].Dispatched?;
    }
  }

  lemma OnceMore(trace: seq<FlightBridge.Event>, more: seq<FlightBridge.Event>)
    requires OnceEach(trace) && forall k :: 0 <= k < |more| && more[k].Dispatched? ==> k == 0
    requires forall id: nat :: Ran(more, id) ==> !Ran(trace, id)
    ensures OnceEach(trace + more)
  {
    var all := trace + more;
    forall i, j | 0 <= i < j < |all| && all[i].Dispatched? && all[j].Dispatched?
      ensures all[i].req.id != all[j].req.id
    {
      if j >= |trace| {
        assert DispatchOf(more[j - |trace|], all[j].req.id);
        assert i < |trace|;
        assert !Ran(trace, all[j].req.id);
        assert !DispatchOf(trace[i], all[j].req.id);
      }
    }
  }

  /** A bridge step, with a fresh request if it receives one. */
  lemma BridgeOnceKept(b: FlightBridge.State, env: Envelope, step: FlightBridge.Step)
    requires BridgeOnce(b) && FlightBridge.Enabled(b, step)
    requires step.Receive? ==> !Ran(b.trace, step.req.id)
    ensures BridgeOnce(FlightBridge.Next(b, env, step))
    ensures forall id: nat :: Ran(FlightBridge.Next(b, env, step).trace, id) <==>
      Ran(b.trace, id) || Dispatching(b, step) == Some(id)
  {
    var more := FlightBridge.Emits(b, env, step);
    StepDispatches(b, env, step);
    forall id: nat ensures Ran(b.trace + more, id) <==> Ran(b.trace, id) || Dispatching(b, step) == Some(id) {
      RanMore(b.trace, more, id);
    }
    OnceMore(b.trace, more);
    LoopKeeps(b, env, step);
  }

  /** A request before its dispatch was received now or was there before. */
  lemma LoopKeeps(b: FlightBridge.State, env: Envelope, step: FlightBridge.Step)
    requires FlightBridge.Enabled(b, step)
    ensures var loop := FlightBridge.NextLoop(b, env, step);
      BeforeDispatch(loop) ==>
        && Dispatching(b, step) == None
        && if step.Receive? then loop.req == step.req else BeforeDispatch(b.loop) && loop.req == b.loop.req
  {
  }

  /** The steps that leave the bridge alone bring no request back on the wire. */
  lemma WireKeeps(s: State, env: Envelope, step: Step)
    requires Enabled(s, step) && !AtBridge(step)
    ensures var t := Next(s, env, step);
      && t.bridge == s.bridge && t.nextId >= s.nextId
      && forall id :: id in t.requests ==> id in s.requests || id == s.nextId
  {
  }

  lemma BridgeKeepsWire(s: State, env: Envelope, step: Step)
    requires Enabled(s, step) && AtBridge(step)
    ensures var t := Next(s, env, step);
      && t.nextId == s.nextId && (forall id :: id in t.requests ==> id in s.requests)
      && (step.BridgeReceives? ==> t.requests == s.requests - {step.id})
  {
  }

  lemma OnceKept(s: State, env: Envelope, step: Step)
    requires Once(s) && Protocol(s) && Enabled(s, step)
    ensures Once(Next(s, env, step))
  {
    if AtBridge(step) {
      BridgeMoves(s, env, step);
      BridgeKeepsWire(s, env, step);
      var move := BridgeMove(s, step).value;
      BridgeOnceKept(s.bridge, env, move);
      if Dispatching(s.bridge, move).Some? {
        assert s.route.Some? && s.route.value.id == s.bridge.loop.req.id;
      }
    } else {
      WireKeeps(s, env, step);
    }
  }

  /**
   At most once, over every run with lost, late, reordered and garbled messages, timeouts and rebuilt sockets: two
   dispatches in the bridge's trace are always of two different requests.
  */
  lemma {:induction false} DispatchedOnce(steps: seq<Step>, env: Envelope)
    requires After(steps, env).Some?
    ensures Once(After(steps, env).value)
    ensures OnceEach(After(steps, env).value.bridge.trace)
  {
    if steps != [] {
      DispatchedOnce(steps[..|steps| - 1], env);
      ProtocolReachable(steps[..|steps| - 1], env);
      OnceKept(After(steps[..|steps| - 1], env).value, env, steps[|steps| - 1]);
    }
  }
}
