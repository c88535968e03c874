/**
 The request loop of the flight bridge as the program runs it (src/flight_bridge/main.cpp): receive, gate,
 dispatch, commit, reply, and a new socket when a reply cannot be sent, with the armed callback of the other
 thread running between any two of its accesses to the latches.  Every such run is a run of the bridge machine,
 and what it does for each message is exactly that message's script.
*/
module RepLoop {
  import opened Messages
  import opened SafetyGate
  import opened FlightBridge
  import BridgeScripts

  /** A message that parses, with what PX4 will say to it, or one that does not. */
  datatype Incoming = Parses(req: Request, px4: Px4) | Garbage(id: nat)

  datatype Sending = Sent | Rebuilt | RebuildFails

  // ---------------------------------------------------------------- scripts

  /** The commit of a handled call. */
  function Commits(req: Request, handled: Handled): seq<Event> {
    if CommitsVoice(req.call, handled) then [VoiceSet(req)]
    else if CommitsClear(req.call, handled) then [VoiceCleared(Some(req)), AbortCleared(Some(req))]
    else []
  }

  /** A call that passed the gate: one dispatch, its commit, its result. */
  function ExecutionScript(req: Request, px4: Px4, aborted: bool): seq<Event> {
    var handled := SafetyGate.Dispatch(req.call, px4);
    [Dispatched(req, px4, handled, aborted)] +
      (BridgeScripts.LatchStores(req, px4) + [Settle(req, ResultOf(req.call, handled))])
  }

  lemma CommitsAre(req: Request, px4: Px4)
    ensures Commits(req, SafetyGate.Dispatch(req.call, px4)) == BridgeScripts.LatchStores(req, px4)
  {
    BridgeScripts.CommitIs(req, px4);
  }

  /**
   Everything the loop does for one request: it is received, the gate loads the latches as `aborted` and `voice`,
   and either it settles as the gate says, or it passes, is dispatched with the latch at `later`, and settles.
  */
  function Script(req: Request, px4: Px4, aborted: bool, voice: bool, later: bool, env: Envelope): seq<Event> {
    var gate := CheckTool(req.call, env, aborted, voice);
    [Received(req.id, Some(req.call)), GateLoaded(req, aborted, voice, gate)] +
    (if gate != Allow then [Settle(req, GateResult(gate))] else [Passed(req)] + ExecutionScript(req, px4, later))
  }

  /** What the loop did for one message, and the result it replied. */
  ghost predicate Told(incoming: Incoming, told: seq<Event>, result: Result, env: Envelope) {
    match incoming
    case Garbage(id) => told == [Received(id, None), Settled(id, None, Rejected)] && result == Rejected
    case Parses(req, px4) =>
      && told != [] && told[|told| - 1] == Settle(req, result)
      && exists aborted, voice, later :: told == Script(req, px4, aborted, voice, later, env)
  }

  predicate ByCallback(step: Step) { step.ArmedFalse? || step.ArmedFalseAgain? }

  /** At most two events more, all of the callback or none. */
  lemma SpokenTail(trace: seq<Event>, more: seq<Event>, silent: bool)
    requires |more| <= 2 && forall e :: e in more ==> (OfCallback(e) <==> silent)
    ensures Spoken(trace + more) == Spoken(trace) + (if silent then [] else more)
  {
    if |more| == 0 {
      assert trace + more == trace;
    } else if |more| == 1 {
      assert more == [more[0]];
      SpokenMore(trace, more[0]);
    } else {
      assert more == [more[0], more[1]];
      OneThenOne(trace, more[0], more[1]);
      SpokenMore(trace, more[0]);
      SpokenMore(trace + [more[0]], more[1]);
    }
  }

  /** What one machine step adds to it. */
  lemma StepSpeaks(s: State, env: Envelope, step: Step)
    requires Enabled(s, step)
    ensures Spoken(s.trace + Emits(s, env, step)) ==
        Spoken(s.trace) + (if ByCallback(step) then [] else Emits(s, env, step))
  {
    EmitsSpoken(s, env, step);
    SpokenTail(s.trace, Emits(s, env, step), ByCallback(step));
  }

  lemma EmitsSpoken(s: State, env: Envelope, step: Step)
    requires Enabled(s, step)
    ensures |Emits(s, env, step)| <= 2
    ensures forall e :: e in Emits(s, env, step) ==> (OfCallback(e) <==> ByCallback(step))
  {
  }

  lemma OneStepMore(steps: seq<Step>, env: Envelope, s: State, step: Step)
    requires After(steps, env) == Some(s) && Enabled(s, step)
    ensures After(steps + [step], env) == Some(Next(s, env, step))
  {
    assert (steps + [step])[..|steps|] == steps;
  }

  ghost function Flat(tellings: seq<seq<Event>>): seq<Event> {
    if tellings == [] then [] else Flat(tellings[..|tellings| - 1]) + tellings[|tellings| - 1]
  }

  lemma FlatMore(tellings: seq<seq<Event>>, told: seq<Event>)
    ensures Flat(tellings + [told]) == Flat(tellings) + told
  {
    assert (tellings + [told])[..|tellings|] == tellings;
  }

  /** One script and one result for each message so far, in order. */
  ghost predicate Served(inbox: seq<Incoming>, results: seq<Result>, tellings: seq<seq<Event>>, env: Envelope) {
    && |results| == |tellings| <= |inbox|
    && forall i :: 0 <= i < |results| ==> Told(inbox[i], tellings[i], results[i], env)
  }

  lemma ServedMore(inbox: seq<Incoming>, results: seq<Result>, tellings: seq<seq<Event>>, result: Result,
        told: seq<Event>, env: Envelope)
    requires Served(inbox, results, tellings, env) && |results| < |inbox| && Told(inbox[|results|], told, result, env)
    ensures Served(inbox, results + [result], tellings + [told], env)
  {
  }

  lemma Regroup(a: seq<Event>, b: seq<Event>, c: seq<Event>)
    ensures (a + b) + c == a + (b + c)
  {
  }

  function AfterGate(req: Request, gate: SafetyGate.Gate): Event {
    if gate == Allow then Passed(req) else Settle(req, GateResult(gate))
  }

  /** A denied request has its script. */
  lemma DeniedTold(req: Request, px4: Px4, aborted: bool, voice: bool, gate: Gate, env: Envelope)
    requires gate == CheckTool(req.call, env, aborted, voice) && gate != Allow
    ensures Told(Parses(req, px4), [Received(req.id, Some(req.call))] +
                 ([GateLoaded(req, aborted, voice, gate)] + [AfterGate(req, gate)]), GateResult(gate), env)
  {
    assert [Received(req.id, Some(req.call))] +
        ([GateLoaded(req, aborted, voice, gate)] + [Settle(req, GateResult(gate))])
        == Script(req, px4, aborted, voice, false, env);
  }

  /** So has one that was executed. */
  lemma ExecutedTold(req: Request, px4: Px4, aborted: bool, voice: bool, later: bool, env: Envelope)
    requires CheckTool(req.call, env, aborted, voice) == Allow
    ensures Told(Parses(req, px4), [Received(req.id, Some(req.call))] +
                 ([GateLoaded(req, aborted, voice, Allow)] + [AfterGate(req, Allow)]) +
                   ExecutionScript(req, px4, later),
                 ResultOf(req.call, SafetyGate.Dispatch(req.call, px4)), env)
  {
    assert [Received(req.id, Some(req.call))] + ([GateLoaded(req, aborted, voice, Allow)] + [Passed(req)])
           + ExecutionScript(req, px4, later) == Script(req, px4, aborted, voice, later, env);
  }

  // ---------------------------------------------------------------- the program

  lemma ClearsSaid(req: Request, handled: Handled)
    requires CommitsClear(req.call, handled)
    ensures [VoiceCleared(Some(req))] + ([AbortCleared(Some(req))] + [Settle(req, ResultOf(req.call, handled))])
         == Commits(req, handled) + [Settle(req, ResultOf(req.call, handled))]
  {
  }

  lemma CommitSaid(s: State, env: Envelope, req: Request, handled: Handled)
    requires s.loop == Committing(req, handled) && !CommitsClear(req.call, handled)
    ensures Emits(s, env, Commit) == Commits(req, handled) + [Settle(req, ResultOf(req.call, handled))]
  {
  }

  /** The machine has moved to these latches and this place in its loop, saying this. */
  ghost predicate Moved(s: State, t: State, aborted: bool, voice: bool, loop: Loop, said: seq<Event>) {
    && t.aborted == aborted && t.armedWithVoice == voice && t.loop == loop && t.callback == s.callback
    && Spoken(t.trace) == Spoken(s.trace) + said
  }

  class Bridge {
    const env: Envelope
    var aborted: bool
    var armedWithVoice: bool
    var halfCleared: bool   // the armed callback is between its two stores
    var rep: Rep
    ghost var steps: seq<Step>
    ghost var machine: State

    /** The machine that has taken `steps` is where the program is. */
    ghost predicate Valid()
      reads this
    {
      && Running()
      && aborted == machine.aborted && armedWithVoice == machine.armedWithVoice
      && (halfCleared <==> machine.callback.HalfCleared?)
    }

    constructor (env: Envelope)
      ensures Valid() && this.env == env && machine == START && rep == CanReceive
    {
      this.env := env;
      aborted, armedWithVoice, halfCleared, rep := false, false, false, CanReceive;
      steps, machine := [], START;
    }

    ghost predicate Running()
      reads this
    {
      After(steps, env) == Some(machine)
    }

    ghost method Take(step: Step)
      requires Running() && Enabled(machine, step)
      modifies this`steps, this`machine
      ensures Running() && machine == Next(old(machine), env, step)
      ensures Spoken(machine.trace) ==
              Spoken(old(machine.trace)) + (if ByCallback(step) then [] else Emits(old(machine), env, step))
    {
      OneStepMore(steps, env, machine, step);
      StepSpeaks(machine, env, step);
      steps, machine := steps + [step], Next(machine, env, step);
    }

    // The steps one by one: what each leaves behind, and what it says.

    ghost method TakeReceive(req: Request)
      requires Running() && machine.loop.Polling?
      modifies this`steps, this`machine
      ensures Running() &&
          Moved(old(machine), machine, old(machine.aborted), old(machine.armedWithVoice), LoadingAborted(req),
                                 [Received(req.id, Some(req.call))])
    {
      Take(Receive(req));
    }

    ghost method TakeGarbage(id: nat)
      requires Running() && machine.loop.Polling?
      modifies this`steps, this`machine
      ensures Running() &&
          Moved(old(machine), machine, old(machine.aborted), old(machine.armedWithVoice), Replying(id, Rejected),
                                 [Received(id, None), Settled(id, None, Rejected)])
    {
      Take(ReceiveGarbage(id));
    }

    ghost method TakeLoadAborted(req: Request)
      requires Running() && machine.loop == LoadingAborted(req)
      modifies this`steps, this`machine
      ensures Running() && Moved(old(machine), machine, old(machine.aborted), old(machine.armedWithVoice),
                                 LoadingVoice(req, old(machine.aborted)), [])
    {
      Take(LoadAborted);
    }

    ghost method TakeLoadVoice(req: Request, sawAborted: bool, gate: SafetyGate.Gate)
      requires Running() && machine.loop == LoadingVoice(req, sawAborted)
      requires gate == CheckTool(req.call, env, sawAborted, machine.armedWithVoice)
      modifies this`steps, this`machine
      ensures Running() && Moved(old(machine), machine, old(machine.aborted), old(machine.armedWithVoice),
                                 if gate == Allow then Dispatching(req) else Replying(req.id, GateResult(gate)),
                                 [GateLoaded(req, sawAborted, old(machine.armedWithVoice), gate)] +
                                   [AfterGate(req, gate)])
    {
      Take(LoadVoice);
    }

    ghost method TakeDispatch(req: Request, px4: Px4, handled: Handled)
      requires Running() && machine.loop == Dispatching(req) && handled == SafetyGate.Dispatch(req.call, px4)
      modifies this`steps, this`machine
      ensures Running() &&
          Moved(old(machine), machine, old(machine.aborted) || Latches(handled), old(machine.armedWithVoice),
                                 if handled.BadRequest? then Replying(req.id, Rejected) else Committing(req, handled),
                                 [Dispatched(req, px4, handled, old(machine.aborted))] +
                                 (if handled.BadRequest? then [Settle(req, Rejected)] else []))
    {
      Take(FlightBridge.Dispatch(px4));
    }

    ghost method TakeCommit(req: Request, handled: Handled)
      requires Running() && machine.loop == Committing(req, handled) && !CommitsClear(req.call, handled)
      modifies this`steps, this`machine
      ensures Running() && Moved(old(machine), machine, old(machine.aborted),
                                 old(machine.armedWithVoice) || CommitsVoice(req.call, handled),
                                 Replying(req.id, ResultOf(req.call, handled)),
                                 Commits(req, handled) + [Settle(req, ResultOf(req.call, handled))])
    {
      CommitSaid(machine, env, req, handled);
      Take(Commit);
    }

    ghost method TakeClears(req: Request, handled: Handled)
      requires Running() && machine.loop == Committing(req, handled) && CommitsClear(req.call, handled)
      modifies this`steps, this`machine
      ensures Running() && Moved(old(machine), machine, old(machine.aborted), old(machine.armedWithVoice),
                                 ClearingVoice(req, handled), [])
    {
      Take(Commit);
    }

    ghost method TakeClearVoice(req: Request, handled: Handled)
      requires Running() && machine.loop == ClearingVoice(req, handled)
      modifies this`steps, this`machine
      ensures Running() && Moved(old(machine), machine, old(machine.aborted), false, ClearingAborted(req, handled),
                                 [VoiceCleared(Some(req))])
    {
      Take(ClearVoice);
    }

    ghost method TakeClearAborted(req: Request, handled: Handled)
      requires Running() && machine.loop == ClearingAborted(req, handled)
      modifies this`steps, this`machine
      ensures Running() && Moved(old(machine), machine, false, old(machine.armedWithVoice),
                                 Replying(req.id, ResultOf(req.call, handled)),
                                 [AbortCleared(Some(req))] + [Settle(req, ResultOf(req.call, handled))])
    {
      Take(ClearAborted);
    }

    ghost method TakeReply()
      requires Running() && machine.loop.Replying?
      modifies this`steps, this`machine
      ensures Running() && Moved(old(machine), machine, old(machine.aborted), old(machine.armedWithVoice), Polling, [])
    {
      Take(Reply);
    }

    /** What holds of every run of the machine holds of the program. */
    lemma AbortLatchHolds()
      requires Valid()
      ensures aborted <==> AbortStands(machine.trace)
      ensures forall i ::
          0 <= i < |machine.trace| && machine.trace[i].Dispatched? && AbortStands(machine.trace[..i]) ==>
                machine.trace[i].req.call.name in {"abort", "kill", "land", "disarm"}
      ensures forall i :: 0 <= i < |machine.trace| && machine.trace[i].AbortCleared? && machine.trace[i].cause.Some? ==>
                exists d :: 0 <= d < i && DisarmedByPx4(machine.trace[d], machine.trace[i].cause.value)
      ensures BridgeScripts.AllScripted(machine.trace, env)
    {
      AbortLatchSafety(steps, env);
      BridgeScripts.Reachable(steps, env);
    }

    /** A store of the callback: the loop stays where it is, and nothing is said. */
    ghost method TakeStore(step: Step)
      requires Running() && Enabled(machine, step)
      requires step == ArmedFalse || step == ArmedFalseAgain
      modifies this`steps, this`machine
      ensures Running() && machine.loop == old(machine.loop) && Spoken(machine.trace) == Spoken(old(machine.trace))
      ensures step == ArmedFalse ==>
        machine.callback.HalfCleared? && !machine.armedWithVoice && machine.aborted == old(machine.aborted)
      ensures step == ArmedFalseAgain ==>
        !machine.callback.HalfCleared? && !machine.aborted && machine.armedWithVoice == old(machine.armedWithVoice)
    {
      Take(step);
    }

    /** The next store of the armed callback. */
    method Store()
      requires Valid()
      modifies this`aborted, this`armedWithVoice, this`halfCleared, this`steps, this`machine
      ensures Valid() && machine.loop == old(machine.loop) && Spoken(machine.trace) == Spoken(old(machine.trace))
    {
      if halfCleared {
        aborted, halfCleared := false, false;
        TakeStore(ArmedFalseAgain);
      } else {
        armedWithVoice, halfCleared := false, true;
        TakeStore(ArmedFalse);
      }
    }

    /** Any number of stores of the armed callback. */
    method Interfere()
      requires Valid()
      modifies this`aborted, this`armedWithVoice, this`halfCleared, this`steps, this`machine
      ensures Valid() && machine.loop == old(machine.loop) && Spoken(machine.trace) == Spoken(old(machine.trace))
    {
      var stores: nat :| true;
      for i := 0 to stores
        invariant Valid() && machine.loop == old(machine.loop) && Spoken(machine.trace) == Spoken(old(machine.trace))
      {
        Store();
      }
    }

    /** The gate's second load and its verdict. */
    method Judge(req: Request, loaded: bool) returns (gate: SafetyGate.Gate, ghost sawVoice: bool)
      requires Valid() && machine.loop == LoadingVoice(req, loaded)
      modifies this`steps, this`machine
      ensures Valid() && gate == CheckTool(req.call, env, loaded, sawVoice)
      ensures machine.loop == if gate == Allow then Dispatching(req) else Replying(req.id, GateResult(gate))
      ensures Spoken(machine.trace) == Spoken(old(machine.trace)) +
              ([GateLoaded(req, loaded, sawVoice, gate)] + [AfterGate(req, gate)])
    {
      sawVoice := armedWithVoice;
      gate := CheckTool(req.call, env, loaded, armedWithVoice);
      TakeLoadVoice(req, loaded, gate);
    }

    /** The gate, on the latches as its two loads find them. */
    method Gate(req: Request) returns (gate: SafetyGate.Gate, ghost sawAborted: bool, ghost sawVoice: bool)
      requires Valid() && machine.loop == LoadingAborted(req)
      modifies this`aborted, this`armedWithVoice, this`halfCleared, this`steps, this`machine
      ensures Valid() && gate == CheckTool(req.call, env, sawAborted, sawVoice)
      ensures machine.loop == if gate == Allow then Dispatching(req) else Replying(req.id, GateResult(gate))
      ensures Spoken(machine.trace) == Spoken(old(machine.trace)) +
              ([GateLoaded(req, sawAborted, sawVoice, gate)] + [AfterGate(req, gate)])
    {
      Interfere();
      ghost var before := Spoken(machine.trace);
      var loaded := aborted;
      sawAborted := loaded;
      TakeLoadAborted(req);
      assert before + [] == before;
      Interfere();
      gate, sawVoice := Judge(req, loaded);
    }

    lemma ClearingNow()
      requires Valid() && machine.loop.ClearingVoice?
      ensures exists d :: 0 <= d < |machine.trace| && DisarmedByPx4(machine.trace[d], machine.loop.req)
    {
      FlightBridge.Reachable(steps, env);
      ClearingIsDisarm(machine, env);
    }

    /** The two stores after a successful disarm. */
    method ClearLatches(req: Request, ghost handled: Handled)
      requires Valid() && machine.loop == ClearingVoice(req, handled)
      modifies this`aborted, this`armedWithVoice, this`halfCleared, this`steps, this`machine
      ensures Valid() && machine.loop == Replying(req.id, ResultOf(req.call, handled))
      ensures Spoken(machine.trace) == Spoken(old(machine.trace)) +
              ([VoiceCleared(Some(req))] + ([AbortCleared(Some(req))] + [Settle(req, ResultOf(req.call, handled))]))
      ensures exists d :: 0 <= d < |old(machine.trace)| && DisarmedByPx4(old(machine.trace)[d], req)
    {
      ClearingNow();
      Interfere();
      ghost var before := Spoken(machine.trace);
      armedWithVoice := false;
      TakeClearVoice(req, handled);
      Interfere();
      aborted := false;
      TakeClearAborted(req, handled);
      Regroup(before, [VoiceCleared(Some(req))],
        [AbortCleared(Some(req))] + [Settle(req, ResultOf(req.call, handled))]);
    }

    /** After a successful arm: the voice latch is set when `voice_confirmed` is true, and reading it may throw. */
    method CommitVoice(req: Request, handled: Handled) returns (result: Result)
      requires Valid() && machine.loop == Committing(req, handled) && Succeeded(handled) && req.call.name == "arm"
      modifies this`armedWithVoice, this`steps, this`machine
      ensures Valid() && result == ResultOf(req.call, handled) && machine.loop == Replying(req.id, result)
      ensures Spoken(machine.trace) == Spoken(old(machine.trace)) + (Commits(req, handled) + [Settle(req, result)])
    {
      result := Answered(handled.reply);
      var confirmed := VoiceConfirmed(req.call.args);
      if confirmed == None {
        result := Rejected;
      } else if confirmed.value {
        armedWithVoice := true;
      }
      TakeCommit(req, handled);
    }

    /** After a successful disarm: both latches are cleared. */
    method CommitClears(req: Request, handled: Handled)
      requires Valid() && machine.loop == Committing(req, handled) && CommitsClear(req.call, handled)
      modifies this`aborted, this`armedWithVoice, this`halfCleared, this`steps, this`machine
      ensures Valid() && machine.loop == Replying(req.id, ResultOf(req.call, handled))
      ensures Spoken(machine.trace) ==
              Spoken(old(machine.trace)) + (Commits(req, handled) + [Settle(req, ResultOf(req.call, handled))])
    {
      ghost var before := Spoken(machine.trace);
      TakeClears(req, handled);
      assert before + [] == before;
      ClearLatches(req, handled);
      ClearsSaid(req, handled);
    }

    /** The commit of a handled call: the stores its tool and PX4's answer call for, and the result. */
    method CommitLatches(req: Request, handled: Handled, ghost px4: Px4) returns (result: Result)
      requires Valid() && machine.loop == Committing(req, handled) && handled.Handled?
      requires handled == SafetyGate.Dispatch(req.call, px4)
      modifies this`aborted, this`armedWithVoice, this`halfCleared, this`steps, this`machine
      ensures Valid() && result == ResultOf(req.call, handled) && machine.loop == Replying(req.id, result)
      ensures Spoken(machine.trace) ==
          Spoken(old(machine.trace)) + (BridgeScripts.LatchStores(req, px4) + [Settle(req, result)])
      ensures BridgeScripts.Results(req.call, px4, handled, result)
    {
      CommitsAre(req, px4);
      BridgeScripts.CommitIs(req, px4);
      Interfere();
      if handled.reply == Done && req.call.name == "arm" {
        result := CommitVoice(req, handled);
      } else if handled.reply == Done && req.call.name == "disarm" {
        CommitClears(req, handled);
        result := Answered(handled.reply);
      } else {
        TakeCommit(req, handled);
        result := Answered(handled.reply);
      }
    }

    /** A request that passed the gate. */
    method Execute(req: Request, px4: Px4) returns (result: Result, ghost later: bool)
      requires Valid() && machine.loop == Dispatching(req)
      modifies this`aborted, this`armedWithVoice, this`halfCleared, this`steps, this`machine
      ensures Valid() && result == ResultOf(req.call, SafetyGate.Dispatch(req.call, px4))
      ensures machine.loop == Replying(req.id, result)
      ensures Spoken(machine.trace) == Spoken(old(machine.trace)) + ExecutionScript(req, px4, later)
    {
      Interfere();
      later := aborted;
      var handled := SafetyGate.Dispatch(req.call, px4);
      if handled.Handled? && handled.latchesAbort {
        aborted := true;
      }
      ghost var before := Spoken(machine.trace);
      TakeDispatch(req, px4, handled);
      if handled.BadRequest? {
        BridgeScripts.BadRequestsStoreNothing(req, px4);
        assert [] + [Settle(req, Rejected)] == [Settle(req, Rejected)];
        return Rejected, later;
      }
      assert [Dispatched(req, px4, handled, later)] + [] == [Dispatched(req, px4, handled, later)];
      result := CommitLatches(req, handled, px4);
      Regroup(before, [Dispatched(req, px4, handled, later)],
        BridgeScripts.LatchStores(req, px4) + [Settle(req, result)]);
    }

    /** One message from receive to result, exactly as its script says. */
    method Handle(incoming: Incoming) returns (result: Result, ghost told: seq<Event>)
      requires Valid() && machine.loop.Polling?
      modifies this`aborted, this`armedWithVoice, this`halfCleared, this`steps, this`machine
      ensures Valid() && machine.loop.Replying? && machine.loop.result == result
      ensures Told(incoming, told, result, env) && Spoken(machine.trace) == Spoken(old(machine.trace)) + told
    {
      if incoming.Garbage? {
        TakeGarbage(incoming.id);
        return Rejected, [Received(incoming.id, None), Settled(incoming.id, None, Rejected)];
      }
      var req := incoming.req;
      ghost var before := Spoken(machine.trace);
      TakeReceive(req);
      var gate;
      ghost var sawAborted, sawVoice, later;
      gate, sawAborted, sawVoice := Gate(req);
      ghost var opening := [Received(req.id, Some(req.call))] +
          ([GateLoaded(req, sawAborted, sawVoice, gate)] + [AfterGate(req, gate)]);
      Regroup(before, [Received(req.id, Some(req.call))],
        [GateLoaded(req, sawAborted, sawVoice, gate)] + [AfterGate(req, gate)]);
      if gate != Allow {
        DeniedTold(req, incoming.px4, sawAborted, sawVoice, gate, env);
        return GateResult(gate), opening;
      }
      result, later := Execute(req, incoming.px4);
      ExecutedTold(req, incoming.px4, sawAborted, sawVoice, later, env);
      told := opening + ExecutionScript(req, incoming.px4, later);
      Regroup(before, opening, ExecutionScript(req, incoming.px4, later));
    }

    /** Receive, handle, reply; a failed reply replaces the socket. */
    method ServeOne(incoming: Incoming) returns (result: Result, ghost told: seq<Event>)
      requires Valid() && machine.loop.Polling? && rep == CanReceive
      modifies this
      ensures Valid() && machine.loop.Polling? && rep != MustSend
      ensures Told(incoming, told, result, env) && Spoken(machine.trace) == Spoken(old(machine.trace)) + told
    {
      rep := MustSend;   // recv() returned
      result, told := Handle(incoming);
      var sending: Sending := *;
      rep := if sending == RebuildFails then Closed else CanReceive;
      ghost var said := Spoken(machine.trace);
      TakeReply();
      assert said + [] == said;
    }

    /**
     The loop.  Callback stores aside, the run is the concatenation of one whole script per message, in the order
     the messages came: each is received, settled and replied to before the next is received, and nothing is
     dispatched but by its own message's script.  The socket is ready to receive whenever the loop polls it.
    */
    method Serve(inbox: seq<Incoming>) returns (results: seq<Result>, ghost tellings: seq<seq<Event>>)
      requires Valid() && machine.loop.Polling? && rep == CanReceive
      modifies this
      ensures Valid() && machine.loop.Polling? && rep != MustSend
      ensures Served(inbox, results, tellings, env) && (|results| < |inbox| ==> rep == Closed)
      ensures Spoken(machine.trace) == Spoken(old(machine.trace)) + Flat(tellings)
    {
      ghost var before := Spoken(machine.trace);
      results, tellings := [], [];
      while |results| < |inbox| && rep != Closed
        invariant Valid() && machine.loop.Polling? && rep != MustSend
        invariant Served(inbox, results, tellings, env)
        invariant Spoken(machine.trace) == before + Flat(tellings)
        decreases |inbox| - |results|
      {
        var result;
        ghost var told;
        result, told := ServeOne(inbox[|results|]);
        FlatMore(tellings, told);
        Regroup(before, Flat(tellings), told);
        ServedMore(inbox, results, tellings, result, told, env);
        results, tellings := results + [result], tellings + [told];
      }
    }
  }
}
