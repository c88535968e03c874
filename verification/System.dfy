/**
 The orchestrator's dispatch path, the wire and the flight bridge as one machine: `_dispatch_tool_call` with
 its recycled REQ socket (python/services/orchestrator/main.py), a lossy, delaying and garbling network, and
 the REP loop with its rebuild (src/flight_bridge/main.cpp) around the bridge machine.

 Sockets follow the REQ and REP types of ZeroMQ RFC 28/REQREP: both alternate send and receive, a reply goes
 back to the socket its request came from, and a closed socket receives nothing.
*/
module System {
  import opened Messages
  import opened SafetyGate
  import opened VehicleCommands
  import opened Spoken
  import FlightBridge
  import BridgeScripts

  // ---------------------------------------------------------------- the machine

  /** A REQ socket: sockets are told apart by number, and one that has sent must receive next. */
  datatype ReqSocket = ReqSocket(number: nat, mustReceive: bool)

  datatype Client = Ready | Awaiting(id: nat)

  /** A request on the wire: the socket it came from, and the command during which it was sent. */
  datatype Wire = Wire(socket: nat, origin: nat, call: ToolCall)

  datatype Answer = Answer(socket: nat, garbled: bool, result: FlightBridge.Result)

  datatype Route = Route(id: nat, socket: nat)

  /** `asked` is the request a dispatch was waiting on, `answered` the one whose reply it returned, with its result. */
  datatype Returned = Returned(asked: nat, answered: nat, result: FlightBridge.Result)

  datatype State = State(
    commands: seq<string>, authorized: bool,
    socket: Option<ReqSocket>, client: Client, nextSocket: nat, nextId: nat,
    sent: map<nat, Wire>, requests: map<nat, Wire>, answers: map<nat, Answer>,
    bridge: FlightBridge.State, rep: FlightBridge.Rep, route: Option<Route>,
    returned: seq<Returned>, protocolError: bool)

  const START := State([], false, None, Ready, 0, 0, map[], map[], map[], FlightBridge.START, FlightBridge.CanReceive,
    None, [], false)

  datatype Step =
    | TakeCommand(text: string)
    | DispatchFailsEarly               // socket, serialisation or send failure: nothing leaves
    | Send(name: string, args: map<string, Value>)
    | ReceiveReply(answered: nat)
    | ReceiveFails                     // timeout or ZMQ error
    | LoseRequest(id: nat)
    | LoseAnswer(id: nat)
    | GarbleAnswer(id: nat)
    | BridgeReceives(id: nat)
    | BridgeReceivesGarbage(id: nat)
    | BridgeStep(step: FlightBridge.Step)
    | BridgeReplies                    // zmq_send succeeds
    | BridgeRebuilds                   // zmq_send fails, the REP socket is replaced
    | BridgeCloses                     // zmq_send fails and so does the rebuild

  predicate Internal(step: FlightBridge.Step) {
    !step.Receive? && !step.ReceiveGarbage? && !step.Reply?
  }

  predicate Enabled(s: State, step: Step) {
    match step
    case TakeCommand(_) => s.client.Ready?
    case DispatchFailsEarly => s.client.Ready?
    case Send(_, _) => s.client.Ready? && s.commands != []
    case ReceiveReply(id) =>
      s.client.Awaiting? && s.socket.Some? && id in s.answers && s.answers[id].socket == s.socket.value.number
    case ReceiveFails => s.client.Awaiting?
    case LoseRequest(id) => id in s.requests
    case LoseAnswer(id) => id in s.answers
    case GarbleAnswer(id) => id in s.answers
    case BridgeReceives(id) => id in s.requests && s.rep.CanReceive? && s.bridge.loop.Polling?
    case BridgeReceivesGarbage(id) => id in s.requests && s.rep.CanReceive? && s.bridge.loop.Polling?
    case BridgeStep(b) => Internal(b) && FlightBridge.Enabled(s.bridge, b)
    case BridgeReplies => s.bridge.loop.Replying? && s.rep.MustSend? && s.route.Some?
    case BridgeRebuilds => s.bridge.loop.Replying?
    case BridgeCloses => s.bridge.loop.Replying?
  }

  /** `voice_confirmed` is overwritten on arm, whatever the VLM put there. */
  function WireArgs(name: string, args: map<string, Value>, authorized: bool): Args {
    Object(if name == "arm" then args["voice_confirmed" := Boolean(authorized)] else args)
  }

  function Next(s: State, env: Envelope, step: Step): State
    requires Enabled(s, step)
  {
    match step
    case TakeCommand(text) => s.(commands := s.commands + [text], authorized := Says(text, "arm"))
    case DispatchFailsEarly => s.(socket := None)
    case Send(name, args) =>
      if s.socket.Some? && s.socket.value.mustReceive then
        s.(socket := None, protocolError := true)   // EFSM
      else
        var number := if s.socket.Some? then s.socket.value.number else s.nextSocket;
        var wire := Wire(number, |s.commands| - 1, ToolCall(name, WireArgs(name, args, s.authorized)));
        s.(socket := Some(ReqSocket(number, true)), client := Awaiting(s.nextId),
           nextSocket := if s.socket.Some? then s.nextSocket else s.nextSocket + 1, nextId := s.nextId + 1,
           sent := s.sent[s.nextId := wire], requests := s.requests[s.nextId := wire])
    case ReceiveReply(id) =>
      var left := s.(answers := s.answers - {id}, client := Ready);
      if s.answers[id].garbled then left.(socket := None)
      else left.(socket := Some(s.socket.value.(mustReceive := false)),
                   returned := s.returned + [Returned(s.client.id, id, s.answers[id].result)])
    case ReceiveFails => s.(socket := None, client := Ready)
    case LoseRequest(id) => s.(requests := s.requests - {id})
    case LoseAnswer(id) => s.(answers := s.answers - {id})
    case GarbleAnswer(id) => s.(answers := s.answers[id := s.answers[id].(garbled := true)])
    case BridgeReceives(id) =>
      s.(requests := s.requests - {id}, rep := FlightBridge.MustSend, route := Some(Route(id, s.requests[id].socket)),
         bridge := FlightBridge.Next(s.bridge, env,
           FlightBridge.Receive(FlightBridge.Request(id, s.requests[id].call))))
    case BridgeReceivesGarbage(id) =>
      s.(requests := s.requests - {id}, rep := FlightBridge.MustSend, route := Some(Route(id, s.requests[id].socket)),
         bridge := FlightBridge.Next(s.bridge, env, FlightBridge.ReceiveGarbage(id)))
    case BridgeStep(b) => s.(bridge := FlightBridge.Next(s.bridge, env, b))
    case BridgeReplies =>
      s.(answers := s.answers[s.route.value.id := Answer(s.route.value.socket, false, s.bridge.loop.result)],
         rep := FlightBridge.CanReceive, route := None,
         bridge := FlightBridge.Next(s.bridge, env, FlightBridge.Reply))
    case BridgeRebuilds =>
      s.(rep := FlightBridge.CanReceive, route := None, bridge := FlightBridge.Next(s.bridge, env, FlightBridge.Reply))
    case BridgeCloses =>
      s.(rep := FlightBridge.Closed, route := None, bridge := FlightBridge.Next(s.bridge, env, FlightBridge.Reply))
  }

  /** The state after a list of steps, or None when one of them was not possible. */
  ghost function After(steps: seq<Step>, env: Envelope): Option<State> {
    if steps == [] then Some(START)
    else
      var n := |steps| - 1;
      match After(steps[..n], env)
      case None => None
      case Some(s) => if Enabled(s, steps[n]) then Some(Next(s, env, steps[n])) else None
  }

  // ---------------------------------------------------------------- request and reply

  /** Nobody sends or receives out of turn. */
  ghost predicate InTurn(s: State) {
    && (s.client.Ready? ==> s.socket == None || !s.socket.value.mustReceive)
    && (s.client.Awaiting? ==> s.socket.Some? && s.socket.value.mustReceive)
    && (s.bridge.loop.Polling? <==> s.route == None)
    && (s.bridge.loop.Polling? ==> !s.rep.MustSend?)
    && (!s.bridge.loop.Polling? ==> s.rep.MustSend?)
    && !s.protocolError
  }

  /** A request is on the wire, at the bridge, or answered, and never in two of these places. */
  ghost predicate OnePlace(s: State) {
    && s.requests.Keys !! s.answers.Keys
    && (s.route.Some? ==>
         s.route.value.id !in s.requests && s.route.value.id !in s.answers && s.route.value.id < s.nextId)
    && (forall id :: id in s.requests ==> id < s.nextId && s.requests[id].socket < s.nextSocket)
    && (forall id :: id in s.answers ==> id < s.nextId && s.answers[id].socket < s.nextSocket)
    && (s.route.Some? ==> s.route.value.socket < s.nextSocket)
    && (s.socket.Some? ==> s.socket.value.number < s.nextSocket)
  }

  /** Whatever is still under way for the open socket belongs to the request being waited on. */
  ghost predicate OnlyCurrent(s: State, id: nat, socket: nat) {
    s.socket.Some? && socket == s.socket.value.number ==> s.client == Awaiting(id)
  }

  ghost predicate NothingStale(s: State) {
    && (forall id :: id in s.requests ==> OnlyCurrent(s, id, s.requests[id].socket))
    && (forall id :: id in s.answers ==> OnlyCurrent(s, id, s.answers[id].socket))
    && (s.route.Some? ==> OnlyCurrent(s, s.route.value.id, s.route.value.socket))
  }

  /** The bridge is handling the request it has a route for. */
  ghost predicate RouteIsLoop(s: State) {
    s.route.Some? ==> FlightBridge.LoopId(s.bridge.loop) == Some(s.route.value.id)
  }

  /** Every answer under way that is intact carries the result the bridge settled its request with. */
  ghost predicate AnswersSettled(s: State) {
    forall id :: id in s.answers && !s.answers[id].garbled ==>
      FlightBridge.SettledIn(s.bridge.trace, id, s.answers[id].result)
  }

  ghost predicate RepliesMatch(s: State) {
    forall i :: 0 <= i < |s.returned| ==>
      && s.returned[i].asked == s.returned[i].answered
      && FlightBridge.SettledIn(s.bridge.trace, s.returned[i].asked, s.returned[i].result)
  }

  ghost predicate Protocol(s: State) {
    InTurn(s) && OnePlace(s) && NothingStale(s) && RouteIsLoop(s) && AnswersSettled(s) && RepliesMatch(s)
  }

  predicate AtBridge(step: Step) {
    step.BridgeReceives? || step.BridgeReceivesGarbage? || step.BridgeStep? || step.BridgeReplies? ||
      step.BridgeRebuilds? || step.BridgeCloses?
  }

  predicate OnTheWire(step: Step) { step.LoseRequest? || step.LoseAnswer? || step.GarbleAnswer? }

  lemma InTurnAtBridge(s: State, env: Envelope, step: Step)
    requires InTurn(s) && Enabled(s, step) && AtBridge(step)
    ensures InTurn(Next(s, env, step))
  {
  }

  lemma InTurnKept(s: State, env: Envelope, step: Step)
    requires InTurn(s) && Enabled(s, step)
    ensures InTurn(Next(s, env, step))
  {
    if AtBridge(step) {
      InTurnAtBridge(s, env, step);
    }
  }

  lemma OnePlaceAtBridge(s: State, env: Envelope, step: Step)
    requires InTurn(s) && OnePlace(s) && Enabled(s, step) && AtBridge(step)
    ensures OnePlace(Next(s, env, step))
  {
  }

  lemma OnePlaceOnTheWire(s: State, env: Envelope, step: Step)
    requires OnePlace(s) && Enabled(s, step) && OnTheWire(step)
    ensures OnePlace(Next(s, env, step))
  {
  }

  /** One request more, from the open socket. */
  lemma OnePlaceMore(s: State, t: State, wire: Wire)
    requires OnePlace(s) && t.requests == s.requests[s.nextId := wire] && t.answers == s.answers && t.route == s.route
    requires t.nextId == s.nextId + 1 && s.nextSocket <= t.nextSocket && wire.socket < t.nextSocket
    requires t.socket.Some? && t.socket.value.number == wire.socket
    ensures OnePlace(t)
  {
    assert forall id :: id in t.requests ==> id == s.nextId || (id in s.requests && t.requests[id] == s.requests[id]);
  }

  lemma OnePlaceSend(s: State, env: Envelope, step: Step)
    requires OnePlace(s) && Enabled(s, step) && step.Send?
    ensures OnePlace(Next(s, env, step))
  {
    var t := Next(s, env, step);
    if t.nextId != s.nextId {
      OnePlaceMore(s, t, t.requests[s.nextId]);
    }
  }

  lemma OnePlaceKept(s: State, env: Envelope, step: Step)
    requires InTurn(s) && OnePlace(s) && Enabled(s, step)
    ensures OnePlace(Next(s, env, step))
  {
    if AtBridge(step) {
      OnePlaceAtBridge(s, env, step);
    } else if OnTheWire(step) {
      OnePlaceOnTheWire(s, env, step);
    } else if step.Send? {
      OnePlaceSend(s, env, step);
    }
  }

  lemma NothingStaleAtBridge(s: State, env: Envelope, step: Step)
    requires InTurn(s) && OnePlace(s) && NothingStale(s) && Enabled(s, step) && AtBridge(step)
    ensures NothingStale(Next(s, env, step))
  {
  }

  lemma NothingStaleKept(s: State, env: Envelope, step: Step)
    requires InTurn(s) && OnePlace(s) && NothingStale(s) && Enabled(s, step)
    ensures NothingStale(Next(s, env, step))
  {
    if AtBridge(step) {
      NothingStaleAtBridge(s, env, step);
    }
  }

  /** The bridge step a system step performs, if it performs one. */
  ghost function BridgeMove(s: State, step: Step): Option<FlightBridge.Step>
    requires Enabled(s, step)
  {
    match step
    case BridgeReceives(id) => Some(FlightBridge.Receive(FlightBridge.Request(id, s.requests[id].call)))
    case BridgeReceivesGarbage(id) => Some(FlightBridge.ReceiveGarbage(id))
    case BridgeStep(b) => Some(b)
    case BridgeReplies => Some(FlightBridge.Reply)
    case BridgeRebuilds => Some(FlightBridge.Reply)
    case BridgeCloses => Some(FlightBridge.Reply)
    case _ => None
  }

  lemma BridgeMoves(s: State, env: Envelope, step: Step)
    requires Enabled(s, step)
    ensures var move := BridgeMove(s, step);
      && (move.Some? ==> FlightBridge.Enabled(s.bridge, move.value))
      && Next(s, env, step).bridge == if move.Some? then FlightBridge.Next(s.bridge, env, move.value) else s.bridge
  {
  }

  lemma RouteIsLoopKept(s: State, env: Envelope, step: Step)
    requires InTurn(s) && RouteIsLoop(s) && Enabled(s, step)
    ensures RouteIsLoop(Next(s, env, step))
  {
    BridgeMoves(s, env, step);
    if BridgeMove(s, step).Some? {
      FlightBridge.LoopIdStays(s.bridge, env, BridgeMove(s, step).value);
    }
  }

  /** What has been settled stays settled. */
  lemma SettledGrows(s: State, env: Envelope, step: Step, id: nat, result: FlightBridge.Result)
    requires Enabled(s, step) && FlightBridge.SettledIn(s.bridge.trace, id, result)
    ensures FlightBridge.SettledIn(Next(s, env, step).bridge.trace, id, result)
  {
    BridgeMoves(s, env, step);
    var before, after := s.bridge.trace, Next(s, env, step).bridge.trace;
    var i :| 0 <= i < |before| && before[i].Settled? && before[i].id == id && before[i].result == result;
    assert after[i] == before[i];
  }

  lemma AnswersSettledKept(s: State, env: Envelope, step: Step)
    requires InTurn(s) && RouteIsLoop(s) && AnswersSettled(s) && FlightBridge.LoopSound(s.bridge) && Enabled(s, step)
    ensures AnswersSettled(Next(s, env, step))
  {
    var t := Next(s, env, step);
    forall id | id in t.answers && !t.answers[id].garbled
      ensures FlightBridge.SettledIn(t.bridge.trace, id, t.answers[id].result)
    {
      AnswerIsOld(s, env, step, id);
      SettledGrows(s, env, step, id, t.answers[id].result);
    }
  }

  /** An intact answer was there before, or is the reply now sent. */
  ghost predicate OldOrReply(s: State, id: nat, answer: Answer) {
    || (id in s.answers && !s.answers[id].garbled && s.answers[id].result == answer.result)
    || (s.bridge.loop.Replying? && s.bridge.loop.id == id && s.bridge.loop.result == answer.result)
  }

  lemma AnswerIsOldAtBridge(s: State, env: Envelope, step: Step, id: nat)
    requires RouteIsLoop(s) && Enabled(s, step) && AtBridge(step)
    requires id in Next(s, env, step).answers && !Next(s, env, step).answers[id].garbled
    ensures OldOrReply(s, id, Next(s, env, step).answers[id])
  {
  }

  lemma AnswerIsOld(s: State, env: Envelope, step: Step, id: nat)
    requires RouteIsLoop(s) && Enabled(s, step)
    requires id in Next(s, env, step).answers && !Next(s, env, step).answers[id].garbled
    ensures OldOrReply(s, id, Next(s, env, step).answers[id])
  {
    if AtBridge(step) {
      AnswerIsOldAtBridge(s, env, step, id);
    }
  }

  lemma RepliesMatchKept(s: State, env: Envelope, step: Step)
    requires NothingStale(s) && AnswersSettled(s) && RepliesMatch(s) && Enabled(s, step)
    ensures RepliesMatch(Next(s, env, step))
  {
    var t := Next(s, env, step);
    forall i | 0 <= i < |t.returned|
      ensures t.returned[i].asked == t.returned[i].answered
      ensures FlightBridge.SettledIn(t.bridge.trace, t.returned[i].asked, t.returned[i].result)
    {
      ReturnedIsOld(s, env, step, i);
      SettledGrows(s, env, step, t.returned[i].asked, t.returned[i].result);
    }
  }

  lemma ReturnedNow(s: State, env: Envelope, id: nat)
    requires NothingStale(s) && AnswersSettled(s) && Enabled(s, ReceiveReply(id)) && !s.answers[id].garbled
    ensures var t := Next(s, env, ReceiveReply(id));
      && t.returned == s.returned + [Returned(id, id, s.answers[id].result)]
      && FlightBridge.SettledIn(s.bridge.trace, id, s.answers[id].result)
  {
    assert OnlyCurrent(s, id, s.answers[id].socket);
  }

  lemma ReturnedBefore(s: State, env: Envelope, step: Step)
    requires Enabled(s, step) && (step.ReceiveReply? ==> s.answers[step.answered].garbled)
    ensures Next(s, env, step).returned == s.returned
  {
  }

  lemma ReturnedIsOld(s: State, env: Envelope, step: Step, i: nat)
    requires NothingStale(s) && AnswersSettled(s) && RepliesMatch(s) && Enabled(s, step)
    requires i < |Next(s, env, step).returned|
    ensures var r := Next(s, env, step).returned[i];
      r.asked == r.answered && FlightBridge.SettledIn(s.bridge.trace, r.asked, r.result)
  {
    if step.ReceiveReply? && !s.answers[step.answered].garbled {
      ReturnedNow(s, env, step.answered);
    } else {
      ReturnedBefore(s, env, step);
    }
  }

  lemma {:induction false} BridgeReachable(steps: seq<Step>, env: Envelope)
    requires After(steps, env).Some?
    ensures FlightBridge.Invariant(After(steps, env).value.bridge, env)
  {
    if steps != [] {
      var s := After(steps[..|steps| - 1], env).value;
      var step := steps[|steps| - 1];
      BridgeReachable(steps[..|steps| - 1], env);
      BridgeMoves(s, env, step);
      if BridgeMove(s, step).Some? {
        FlightBridge.InvariantKept(s.bridge, env, BridgeMove(s, step).value);
      }
    }
  }

  lemma {:induction false} ScriptsReachable(steps: seq<Step>, env: Envelope)
    requires After(steps, env).Some?
    ensures BridgeScripts.Invariant(After(steps, env).value.bridge, env)
  {
    if steps != [] {
      var s := After(steps[..|steps| - 1], env).value;
      var step := steps[|steps| - 1];
      ScriptsReachable(steps[..|steps| - 1], env);
      BridgeMoves(s, env, step);
      if BridgeMove(s, step).Some? {
        BridgeScripts.InvariantKept(s.bridge, env, BridgeMove(s, step).value);
      }
    }
  }

  lemma {:induction false} ProtocolReachable(steps: seq<Step>, env: Envelope)
    requires After(steps, env).Some?
    ensures Protocol(After(steps, env).value)
  {
    if steps != [] {
      ProtocolReachable(steps[..|steps| - 1], env);
      var s := After(steps[..|steps| - 1], env).value;
      InTurnKept(s, env, steps[|steps| - 1]);
      OnePlaceKept(s, env, steps[|steps| - 1]);
      NothingStaleKept(s, env, steps[|steps| - 1]);
      BridgeReachable(steps[..|steps| - 1], env);
      RouteIsLoopKept(s, env, steps[|steps| - 1]);
      AnswersSettledKept(s, env, steps[|steps| - 1]);
      RepliesMatchKept(s, env, steps[|steps| - 1]);
    }
  }

  // ---------------------------------------------------------------- spoken authorisation, end to end

  ghost predicate SaidArm(s: State, command: nat) {
    command < |s.commands| && Says(s.commands[command], "arm")
  }

  ghost predicate ConfirmedArm(call: ToolCall) {
    call.name == "arm" && SaysConfirmed(call.args)
  }

  /** A confirmed arm was sent while a command that said so was current. */
  ghost predicate HonestWires(s: State) {
    && (s.commands != [] ==> (s.authorized <==> Says(s.commands[|s.commands| - 1], "arm")))
    && (forall id :: id in s.sent ==> id < s.nextId && s.sent[id].origin < |s.commands|)
    && (forall id :: id in s.sent && ConfirmedArm(s.sent[id].call) ==> SaidArm(s, s.sent[id].origin))
    && (forall id :: id in s.requests ==> id in s.sent && s.sent[id] == s.requests[id])
  }

  /** The bridge only ever handles requests as they were sent. */
  ghost predicate Known(s: State, req: FlightBridge.Request) {
    req.id in s.sent && s.sent[req.id].call == req.call
  }

  ghost predicate KnownRequests(s: State) {
    && (FlightBridge.LoopRequest(s.bridge.loop).Some? ==> Known(s, FlightBridge.LoopRequest(s.bridge.loop).value))
    && (forall i :: 0 <= i < |s.bridge.trace| && FlightBridge.RequestOf(s.bridge.trace[i]).Some? ==>
          Known(s, FlightBridge.RequestOf(s.bridge.trace[i]).value))
  }

  lemma WireArgsHonest(name: string, args: map<string, Value>, authorized: bool)
    ensures ConfirmedArm(ToolCall(name, WireArgs(name, args, authorized))) <==> name == "arm" && authorized
  {
  }

  /** One honest request more on the wire. */
  lemma HonestMore(s: State, t: State, wire: Wire)
    requires HonestWires(s) && t.commands == s.commands && t.authorized == s.authorized && t.nextId == s.nextId + 1
    requires t.sent == s.sent[s.nextId := wire] && t.requests == s.requests[s.nextId := wire]
    requires wire.origin < |s.commands| && (ConfirmedArm(wire.call) ==> SaidArm(s, wire.origin))
    ensures HonestWires(t)
  {
    assert forall id :: id in t.sent ==> id == s.nextId || (id in s.sent && t.sent[id] == s.sent[id]);
    assert forall id :: id in t.requests ==> id == s.nextId || (id in s.requests && t.requests[id] == s.requests[id]);
  }

  lemma HonestSend(s: State, env: Envelope, step: Step)
    requires HonestWires(s) && Enabled(s, step) && step.Send?
    ensures HonestWires(Next(s, env, step))
  {
    var t := Next(s, env, step);
    WireArgsHonest(step.name, step.args, s.authorized);
    if t.nextId != s.nextId {
      HonestMore(s, t, t.sent[s.nextId]);
    }
  }

  lemma HonestTake(s: State, env: Envelope, step: Step)
    requires HonestWires(s) && Enabled(s, step) && step.TakeCommand?
    ensures HonestWires(Next(s, env, step))
  {
    var t := Next(s, env, step);
    assert forall i :: 0 <= i < |s.commands| ==> t.commands[i] == s.commands[i];
  }

  /** Any other step leaves the commands and what was sent alone, and puts no request on the wire. */
  lemma RequestsShrink(s: State, env: Envelope, step: Step)
    requires Enabled(s, step) && !step.Send? && !step.TakeCommand?
    ensures var t := Next(s, env, step);
      && t.commands == s.commands && t.authorized == s.authorized && t.sent == s.sent && t.nextId == s.nextId
      && forall id :: id in t.requests ==> id in s.requests && t.requests[id] == s.requests[id]
  {
  }

  lemma HonestWiresKept(s: State, env: Envelope, step: Step)
    requires HonestWires(s) && Enabled(s, step)
    ensures HonestWires(Next(s, env, step))
  {
    if step.Send? {
      HonestSend(s, env, step);
    } else if step.TakeCommand? {
      HonestTake(s, env, step);
    } else {
      RequestsShrink(s, env, step);
    }
  }

  lemma SentGrows(s: State, env: Envelope, step: Step)
    requires HonestWires(s) && Enabled(s, step)
    ensures forall id :: id in s.sent ==> id in Next(s, env, step).sent && Next(s, env, step).sent[id] == s.sent[id]
  {
  }

  lemma KnownRequestsKept(s: State, env: Envelope, step: Step)
    requires HonestWires(s) && KnownRequests(s) && Enabled(s, step)
    ensures KnownRequests(Next(s, env, step))
  {
    SentGrows(s, env, step);
    BridgeMoves(s, env, step);
    var t := Next(s, env, step);
    var move := BridgeMove(s, step);
    if move.Some? {
      var more := FlightBridge.Emits(s.bridge, env, move.value);
      FlightBridge.StepSpeaksOfLoop(s.bridge, env, move.value);
      forall i | 0 <= i < |t.bridge.trace| && FlightBridge.RequestOf(t.bridge.trace[i]).Some?
        ensures Known(t, FlightBridge.RequestOf(t.bridge.trace[i]).value)
      {
        if i < |s.bridge.trace| {
          assert t.bridge.trace[i] == s.bridge.trace[i];
        } else {
          assert t.bridge.trace[i] == more[i - |s.bridge.trace|] && more[i - |s.bridge.trace|] in more;
        }
      }
    }
  }

  lemma {:induction false} AuthorisationReachable(steps: seq<Step>, env: Envelope)
    requires After(steps, env).Some?
    ensures var s := After(steps, env).value;
      HonestWires(s) && KnownRequests(s) && FlightBridge.Invariant(s.bridge, env)
  {
    BridgeReachable(steps, env);
    if steps != [] {
      AuthorisationReachable(steps[..|steps| - 1], env);
      var s := After(steps[..|steps| - 1], env).value;
      HonestWiresKept(s, env, steps[|steps| - 1]);
      KnownRequestsKept(s, env, steps[|steps| - 1]);
    }
  }

  /** The request of trace event `i` was sent while a command saying "arm" was current. */
  ghost predicate SentUnderArm(s: State, i: nat) {
    && i < |s.bridge.trace| && FlightBridge.RequestOf(s.bridge.trace[i]).Some?
    && FlightBridge.RequestOf(s.bridge.trace[i]).value.id in s.sent
    && SaidArm(s, s.sent[FlightBridge.RequestOf(s.bridge.trace[i]).value.id].origin)
  }

  /** Event `i` rests on a commit, not cleared since, of an arm sent under such a command and accepted by PX4. */
  ghost predicate RestsOnCommit(s: State, i: nat) {
    exists c: nat, d: nat ::
      && d < c < i < |s.bridge.trace| && s.bridge.trace[c].VoiceSet?
      && SentUnderArm(s, c)
      && s.bridge.trace[d].Dispatched? && s.bridge.trace[d].req == s.bridge.trace[c].req
      && FlightBridge.ArmedByPx4(s.bridge.trace[d], s.bridge.trace[c].req.call)
      && forall j :: c < j < i ==> !s.bridge.trace[j].VoiceCleared?
  }

  /**
   End-to-end arming.  With the spoken-arm rule on and the orchestrator as the only client, for every VLM
   output, every loss, delay and garbling, and every timing of the armed callback: an arm the gate lets
   through was sent under a command containing the word "arm", or rests on an arm that was, that PX4 accepted and
   that was committed; a takeoff always rests on such a commit, with no clear between it and the gate's check.
  */
  lemma ArmingIsSpoken(steps: seq<Step>, env: Envelope, i: nat)
    requires After(steps, env).Some? && env.requireSpokenArm
    requires i < |After(steps, env).value.bridge.trace| && After(steps, env).value.bridge.trace[i].Passed?
    ensures var s := After(steps, env).value;
      && (s.bridge.trace[i].req.call.name == "arm" ==> SentUnderArm(s, i) || RestsOnCommit(s, i))
      && (s.bridge.trace[i].req.call.name == "takeoff" ==> RestsOnCommit(s, i))
  {
    AuthorisationReachable(steps, env);
    var s := After(steps, env).value;
    var req := s.bridge.trace[i].req;
    if req.call.name == "arm" && ConfirmedArm(req.call) {
      assert SentUnderArm(s, i);
    } else if req.call.name == "arm" || req.call.name == "takeoff" {
      var c, d := FlightBridge.PassedByCommit(s.bridge.trace, env, i);
      assert SentUnderArm(s, c);
    }
  }

  // ---------------------------------------------------------------- what is asked is what is done

  /**
   The call on the wire is the one asked for: its name, and its arguments untouched but for arm, whose
   `voice_confirmed` says whether the command did.
  */
  ghost predicate Carries(call: ToolCall, name: string, args: map<string, Value>, saidArm: bool) {
    && call.name == name && call.args.Object?
    && (name != "arm" ==> call.args.fields == args)
    && (name == "arm" ==>
         && call.args.fields.Keys == args.Keys + {"voice_confirmed"}
         && call.args.fields["voice_confirmed"] == Boolean(saidArm)
         && forall key :: key in args && key != "voice_confirmed" ==> call.args.fields[key] == args[key])
  }

  lemma WireCarries(name: string, args: map<string, Value>, authorized: bool)
    ensures Carries(ToolCall(name, WireArgs(name, args, authorized)), name, args, authorized)
  {
  }

  /** Step `k` of a run sent this call, during a command that did or did not say arm. */
  ghost predicate SentAt(steps: seq<Step>, env: Envelope, k: nat, call: ToolCall)
    requires k < |steps|
  {
    && steps[k].Send? && After(steps[..k], env).Some?
    && var s := After(steps[..k], env).value;
       && s.commands != []
       && Carries(call, steps[k].name, steps[k].args, Says(s.commands[|s.commands| - 1], "arm"))
  }

  lemma LastStep(steps: seq<Step>, env: Envelope)
    requires steps != [] && After(steps, env).Some?
    ensures var before := After(steps[..|steps| - 1], env);
      && before.Some? && Enabled(before.value, steps[|steps| - 1])
      && After(steps, env) == Some(Next(before.value, env, steps[|steps| - 1]))
  {
  }

  lemma SentEarlier(steps: seq<Step>, env: Envelope, n: nat, k: nat, call: ToolCall)
    requires n <= |steps| && k < n && SentAt(steps[..n], env, k, call)
    ensures SentAt(steps, env, k, call)
  {
    assert steps[..n][..k] == steps[..k];
  }

  /** Whatever is sent, some step of the run asked for it. */
  lemma {:induction false} SentAsAsked(steps: seq<Step>, env: Envelope, id: nat) returns (k: nat)
    requires After(steps, env).Some? && id in After(steps, env).value.sent
    ensures k < |steps| && SentAt(steps, env, k, After(steps, env).value.sent[id].call)
  {
    var n := |steps| - 1;
    LastStep(steps, env);
    var s := After(steps[..n], env).value;
    AuthorisationReachable(steps[..n], env);
    if id in s.sent {
      SentGrows(s, env, steps[n]);
      k := SentAsAsked(steps[..n], env, id);
      SentEarlier(steps, env, n, k, s.sent[id].call);
    } else {
      k := n;
      NewlySent(s, env, steps[n], id);
    }
  }

  lemma NewlySent(s: State, env: Envelope, step: Step, id: nat)
    requires HonestWires(s) && Enabled(s, step) && id in Next(s, env, step).sent && id !in s.sent
    ensures step.Send? && s.commands != []
    ensures Carries(Next(s, env, step).sent[id].call, step.name, step.args, Says(s.commands[|s.commands| - 1], "arm"))
  {
    if step.Send? {
      WireCarries(step.name, step.args, s.authorized);
    }
  }

  /** Every call the bridge dispatches was asked for by a step of the orchestrator, with exactly these arguments. */
  lemma DispatchedAsAsked(steps: seq<Step>, env: Envelope, i: nat) returns (k: nat)
    requires After(steps, env).Some?
    requires i < |After(steps, env).value.bridge.trace| && After(steps, env).value.bridge.trace[i].Dispatched?
    ensures k < |steps| && SentAt(steps, env, k, After(steps, env).value.bridge.trace[i].req.call)
  {
    var s := After(steps, env).value;
    AuthorisationReachable(steps, env);
    assert Known(s, FlightBridge.RequestOf(s.bridge.trace[i]).value);
    k := SentAsAsked(steps, env, s.bridge.trace[i].req.id);
  }

  // ---------------------------------------------------------------- replies, end to end

  /** The bridge settled this very request with this result, after the whole script of the request as it was sent. */
  ghost predicate ResultOfRequest(s: State, env: Envelope, id: nat, result: FlightBridge.Result) {
    exists k :: 0 <= k < |s.bridge.trace| && SettledAt(s, env, k, id, result)
  }

  ghost predicate SettledAt(s: State, env: Envelope, k: nat, id: nat, result: FlightBridge.Result)
    requires k < |s.bridge.trace|
  {
    var e := s.bridge.trace[k];
    && e.Settled? && e.id == id && e.result == result && id in s.sent
    && (e.call == None || e.call == Some(s.sent[id].call))   // None: it reached the bridge garbled
    && BridgeScripts.ScriptedAt(s.bridge.trace, k, env)
  }

  /** A settled request that was sent has the result of that very request. */
  lemma SettledIsResult(s: State, env: Envelope, id: nat, result: FlightBridge.Result)
    requires BridgeScripts.AllScripted(s.bridge.trace, env) && KnownRequests(s)
    requires FlightBridge.SettledIn(s.bridge.trace, id, result) && id in s.sent
    ensures ResultOfRequest(s, env, id, result)
  {
    var trace := s.bridge.trace;
    var k :| 0 <= k < |trace| && trace[k].Settled? && trace[k].id == id && trace[k].result == result;
    assert BridgeScripts.ScriptedAt(trace, k, env);
    if trace[k].call.Some? {
      assert Known(s, FlightBridge.RequestOf(trace[k]).value);
    }
    assert SettledAt(s, env, k, id, result);
  }

  /**
   Over every run with lost, late, reordered and garbled messages and failing sends on either side: every
   reply a dispatch returns is the bridge's reply to that very request, with the result the gate or the handler
   gave it; a dispatch finds its REQ socket absent or ready to send; and whenever the bridge polls an open REP
   socket it is ready to receive.
  */
  lemma NoStaleReply(steps: seq<Step>, env: Envelope)
    requires After(steps, env).Some?
    ensures var s := After(steps, env).value;
      && (forall i :: 0 <= i < |s.returned| ==>
            s.returned[i].asked == s.returned[i].answered &&
              ResultOfRequest(s, env, s.returned[i].asked, s.returned[i].result))
      && (s.client.Ready? ==> s.socket == None || !s.socket.value.mustReceive)
      && (s.bridge.loop.Polling? ==> s.rep != FlightBridge.MustSend)
      && !s.protocolError
  {
    ProtocolReachable(steps, env);
    AuthorisationReachable(steps, env);
    ScriptsReachable(steps, env);
    ReturnedWereSent(steps, env);
    var s := After(steps, env).value;
    forall i | 0 <= i < |s.returned|
      ensures s.returned[i].asked == s.returned[i].answered
      ensures ResultOfRequest(s, env, s.returned[i].asked, s.returned[i].result)
    {
      SettledIsResult(s, env, s.returned[i].asked, s.returned[i].result);
    }
  }

  /** A dispatch only waits for a request it has sent. */
  ghost predicate AskedWereSent(s: State) {
    && (s.client.Awaiting? ==> s.client.id in s.sent)
    && forall i :: 0 <= i < |s.returned| ==> s.returned[i].asked in s.sent
  }

  lemma {:induction false} ReturnedWereSent(steps: seq<Step>, env: Envelope)
    requires After(steps, env).Some?
    ensures AskedWereSent(After(steps, env).value)
  {
    if steps != [] {
      var s := After(steps[..|steps| - 1], env).value;
      ReturnedWereSent(steps[..|steps| - 1], env);
      AuthorisationReachable(steps[..|steps| - 1], env);
      SentGrows(s, env, steps[|steps| - 1]);
      AskedKept(s, env, steps[|steps| - 1]);
    }
  }

  lemma AskedKept(s: State, env: Envelope, step: Step)
    requires AskedWereSent(s) && Enabled(s, step)
    ensures AskedWereSent(Next(s, env, step))
  {
  }
}
