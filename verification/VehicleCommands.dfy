/**
 Which calls make the vehicle do what: gate and handlers (include/lexaire/safety.hpp,
 src/flight_bridge/handlers.cpp) read from the vehicle's side.  For each command the calls that produce it are
 named outright, by tool, arguments, latches and plugins, and so are the calls PX4 is said to have accepted.
*/
module VehicleCommands {
  import opened Messages
  import opened SafetyGate

  /** `voice_confirmed` is there and true. */
  predicate SaysConfirmed(args: Args) {
    args.Object? && "voice_confirmed" in args.fields && args.fields["voice_confirmed"] == Boolean(true)
  }

  /** `voice_confirmed` cannot be read as a boolean. */
  predicate Unreadable(args: Args) {
    args.NotAnObject? || ("voice_confirmed" in args.fields && !args.fields["voice_confirmed"].Boolean?)
  }

  lemma ConfirmedIs(args: Args)
    ensures VoiceConfirmed(args) == Some(true) <==> SaysConfirmed(args)
    ensures VoiceConfirmed(args) == None <==> Unreadable(args)
  {
  }

  predicate Present(args: Args, key: string) { args.Object? && key in args.fields }

  /** The number under a key. */
  predicate NumberAt(args: Args, key: string, x: real) { Present(args, key) && args.fields[key] == Number(x) }

  /** A number or nothing; nothing counts as zero. */
  predicate NumberOrZero(args: Args, key: string, x: real) {
    if Present(args, key) then args.fields[key] == Number(x) else x == 0.0
  }

  /** The heading of a setpoint: the one asked for, else the present one, else north. */
  predicate HeadingIs(args: Args, px4: Px4, yaw: real) {
    if Present(args, "yaw_deg") then args.fields["yaw_deg"] == Number(yaw)
    else if px4.telemetry then yaw == px4.yaw
    else yaw == 0.0
  }

  // ---------------------------------------------------------------- which handler can send what

  lemma HandlersByName(name: string)
    ensures HandlerOf(name) == Some(HandlesArm) <==> name == "arm"
    ensures HandlerOf(name) == Some(HandlesDisarm) <==> name == "disarm"
    ensures HandlerOf(name) == Some(HandlesTakeoff) <==> name == "takeoff"
    ensures HandlerOf(name) == Some(HandlesLand) <==> name == "land"
    ensures HandlerOf(name) == Some(HandlesReturn) <==> name == "return_to_launch"
    ensures HandlerOf(name) == Some(HandlesHold) <==> name == "hold"
    ensures HandlerOf(name) == Some(HandlesGoto) <==> name == "goto_ned"
  {
  }

  lemma MoreHandlersByName(name: string)
    ensures HandlerOf(name) == Some(HandlesVelocity) <==> name == "set_velocity_ned"
    ensures HandlerOf(name) == Some(HandlesAbort) <==> name == "abort"
    ensures HandlerOf(name) == Some(HandlesKill) <==> name == "kill"
    ensures HandlerOf(name) == Some(HandlesSetParam) <==> name == "set_param"
    ensures HandlerOf(name) == Some(HandlesGetParam) <==> name == "get_param"
    ensures HandlerOf(name) == Some(HandlesHealth) <==> name == "get_health"
    ensures HandlerOf(name) == Some(HandlesOffboard) <==> name == "enable_offboard"
  {
  }

  /** The handlers a command can come from. */
  predicate From(c: Command, h: Handler) {
    match c
    case Arm => h.HandlesArm?
    case Disarm => h.HandlesDisarm?
    case Land => h.HandlesLand? || h.HandlesAbort?
    case ReturnToLaunch => h.HandlesReturn?
    case Hold => h.HandlesHold?
    case Kill => h.HandlesKill?
    case Takeoff => h.HandlesTakeoff?
    case SetTakeoffAltitude(_) => h.HandlesTakeoff?
    case SetPosition(_, _, _, _) => h.HandlesGoto?
    case SetVelocity(_, _, _, _) => h.HandlesVelocity? || h.HandlesOffboard?
    case StartOffboard => h.HandlesGoto? || h.HandlesVelocity? || h.HandlesOffboard?
    case SetIntParameter(_, _) => h.HandlesSetParam?
    case SetFloatParameter(_, _) => h.HandlesSetParam?
    case GetParameter(_) => h.HandlesGetParam?
  }

  /** The arg-less tools: one command, if there is an action plugin to send it. */
  predicate Plain(h: Handler) {
    h.HandlesArm? || h.HandlesDisarm? || h.HandlesLand? || h.HandlesReturn? || h.HandlesHold? || h.HandlesAbort? ||
      h.HandlesKill?
  }

  function PlainCommand(h: Handler): Command
    requires Plain(h)
  {
    match h
    case HandlesArm => Arm
    case HandlesDisarm => Disarm
    case HandlesReturn => ReturnToLaunch
    case HandlesHold => Hold
    case HandlesKill => Kill
    case _ => Land
  }

  lemma PlainHandled(h: Handler, args: Args, px4: Px4)
    requires Plain(h)
    ensures CommandsOf(Handle(h, args, px4)) == if px4.action then [PlainCommand(h)] else []
  {
  }

  lemma ArgumentsHandled(h: Handler, args: Args, px4: Px4)
    requires !Plain(h)
    ensures forall c :: c in CommandsOf(Handle(h, args, px4)) ==> From(c, h)
  {
  }

  lemma HandledFrom(h: Handler, args: Args, px4: Px4)
    ensures forall c :: c in CommandsOf(Handle(h, args, px4)) ==> From(c, h)
  {
    if Plain(h) {
      PlainHandled(h, args, px4);
    } else {
      ArgumentsHandled(h, args, px4);
    }
  }

  /** Gate, table and handler. */
  lemma CommandedBy(call: ToolCall, env: Envelope, aborted: bool, voice: bool, px4: Px4)
    ensures var commands := Commanded(call, env, aborted, voice, px4);
      && (commands != [] ==> CheckTool(call, env, aborted, voice) == Allow && HandlerOf(call.name).Some?)
      && (CheckTool(call, env, aborted, voice) == Allow && HandlerOf(call.name).Some? ==>
           commands == CommandsOf(Handle(HandlerOf(call.name).value, call.args, px4)))
      && forall c :: c in commands ==> From(c, HandlerOf(call.name).value)
  {
    var handler := HandlerOf(call.name);
    if handler.Some? {
      HandledFrom(handler.value, call.args, px4);
      assert Dispatch(call, px4) == Handle(handler.value, call.args, px4);
    } else {
      assert CommandsOf(Dispatch(call, px4)) == [];
    }
  }

  // ---------------------------------------------------------------- what the gate lets through

  /** The tools the gate looks at only for the abort latch. */
  lemma GateOfOthers(call: ToolCall, env: Envelope, aborted: bool, voice: bool)
    requires call.name != "arm" && call.name != "takeoff" && call.name != "goto_ned" && call.name != "set_velocity_ned"
    ensures CheckTool(call, env, aborted, voice) == Allow <==>
      !aborted || call.name == "abort" || call.name == "kill" || call.name == "land" || call.name == "disarm"
  {
  }

  /** An abort standing is the reason given for every other tool. */
  lemma AbortDenies(call: ToolCall, env: Envelope, voice: bool)
    ensures CheckTool(call, env, true, voice) == Deny("abort_active") <==>
      call.name != "abort" && call.name != "kill" && call.name != "land" && call.name != "disarm"
  {
  }

  lemma GateOfArm(call: ToolCall, env: Envelope, aborted: bool, voice: bool)
    requires call.name == "arm"
    ensures CheckTool(call, env, aborted, voice) == Allow <==>
      !aborted && (env.requireSpokenArm ==> voice || SaysConfirmed(call.args))
    ensures CheckTool(call, env, aborted, voice) == Throws <==>
      !aborted && env.requireSpokenArm && !voice && Unreadable(call.args)
    ensures !aborted && env.requireSpokenArm && !voice && !SaysConfirmed(call.args) && !Unreadable(call.args) ==>
      CheckTool(call, env, aborted, voice) == Deny("spoken_arm_required")
  {
    ConfirmedIs(call.args);
  }

  lemma GateOfTakeoff(call: ToolCall, env: Envelope, aborted: bool, voice: bool)
    requires call.name == "takeoff"
    ensures CheckTool(call, env, aborted, voice) == Allow <==>
      && !aborted && (env.requireSpokenArm ==> voice)
      && exists altitude :: NumberAt(call.args, "altitude_m", altitude) && 0.0 < altitude <= env.maxAltitude
    ensures !aborted && env.requireSpokenArm && !voice ==>
      CheckTool(call, env, aborted, voice) == Deny("spoken_arm_required")
  {
    if Present(call.args, "altitude_m") && call.args.fields["altitude_m"].Number? {
      assert NumberAt(call.args, "altitude_m", call.args.fields["altitude_m"].x);
    }
  }

  lemma GateOfGoto(call: ToolCall, env: Envelope, aborted: bool, voice: bool, n: real, e: real, d: real)
    requires call.name == "goto_ned"
    requires NumberOrZero(call.args, "n", n) && NumberOrZero(call.args, "e", e) && NumberAt(call.args, "d", d)
    ensures CheckTool(call, env, aborted, voice) == Allow <==> !aborted && InsideCylinder(n, e, d, env)
    ensures !aborted ==> var gate := CheckTool(call, env, aborted, voice);
      && (d > 0.0 ==> gate == Deny("altitude_below_home"))
      && (d <= 0.0 && -d > env.maxAltitude ==> gate == Deny("altitude_exceeds_max"))
      && (-env.maxAltitude <= d <= 0.0 && !InsideCylinder(n, e, d, env) ==> gate == Deny("geofence_breach"))
  {
  }

  lemma GateOfVelocity(call: ToolCall, env: Envelope, aborted: bool, voice: bool, vx: real, vy: real, vz: real)
    requires call.name == "set_velocity_ned"
    requires NumberOrZero(call.args, "vx", vx) && NumberOrZero(call.args, "vy", vy) && NumberOrZero(call.args, "vz", vz)
    ensures CheckTool(call, env, aborted, voice) == Allow <==> !aborted && WithinSpeed(vx, vy, vz, env)
    ensures !aborted && !WithinSpeed(vx, vy, vz, env) ==>
      CheckTool(call, env, aborted, voice) == Deny("velocity_exceeds_max")
  {
  }

  // ---------------------------------------------------------------- stopping and staying

  /**
   An abort lands, only kill cuts the motors, only disarm disarms; and the abort latch stops none of them.
  */
  lemma EmergenciesReach(call: ToolCall, env: Envelope, aborted: bool, voice: bool, px4: Px4)
    ensures var commands := Commanded(call, env, aborted, voice, px4);
      && (Kill in commands <==> px4.action && call.name == "kill")
      && (Land in commands <==> px4.action && (call.name == "abort" || call.name == "land"))
      && (Disarm in commands <==> px4.action && call.name == "disarm")
  {
    PlainReaches(call, env, aborted, voice, px4);
    if call.name == "kill" || call.name == "abort" || call.name == "land" || call.name == "disarm" {
      GateOfOthers(call, env, aborted, voice);
    }
  }

  /** What an arg-less tool sends, if the gate lets it through, and that nothing else sends such a command. */
  lemma PlainReaches(call: ToolCall, env: Envelope, aborted: bool, voice: bool, px4: Px4)
    ensures var commands, passed := Commanded(call, env, aborted, voice, px4),
                                    CheckTool(call, env, aborted, voice) == Allow && px4.action;
      && (Kill in commands <==> passed && call.name == "kill")
      && (Land in commands <==> passed && (call.name == "abort" || call.name == "land"))
      && (Disarm in commands <==> passed && call.name == "disarm")
      && (ReturnToLaunch in commands <==> passed && call.name == "return_to_launch")
      && (Hold in commands <==> passed && call.name == "hold")
      && (Arm in commands <==> passed && call.name == "arm")
  {
    HandlersByName(call.name);
    MoreHandlersByName(call.name);
    CommandedBy(call, env, aborted, voice, px4);
    var handler := HandlerOf(call.name);
    if handler.Some? && Plain(handler.value) {
      PlainHandled(handler.value, call.args, px4);
    }
  }

  lemma HoldAndReturnReach(call: ToolCall, env: Envelope, aborted: bool, voice: bool, px4: Px4)
    ensures var commands := Commanded(call, env, aborted, voice, px4);
      && (ReturnToLaunch in commands <==> px4.action && !aborted && call.name == "return_to_launch")
      && (Hold in commands <==> px4.action && !aborted && call.name == "hold")
  {
    PlainReaches(call, env, aborted, voice, px4);
    if call.name == "return_to_launch" || call.name == "hold" {
      GateOfOthers(call, env, aborted, voice);
    }
  }

  /** Arming takes the tool, no abort, and the spoken-arm rule met by the latch or by this very call. */
  lemma ArmReaches(call: ToolCall, env: Envelope, aborted: bool, voice: bool, px4: Px4)
    ensures Arm in Commanded(call, env, aborted, voice, px4) <==>
      && call.name == "arm" && !aborted && px4.action
      && (env.requireSpokenArm ==> voice || SaysConfirmed(call.args))
  {
    PlainReaches(call, env, aborted, voice, px4);
    if call.name == "arm" {
      GateOfArm(call, env, aborted, voice);
    }
  }

  // ---------------------------------------------------------------- moving

  /** What a takeoff sends, exactly when it is neither aborted nor unspoken and its altitude is in range. */
  lemma TakeoffReaches(call: ToolCall, env: Envelope, aborted: bool, voice: bool, px4: Px4, altitude: real)
    ensures var commands := Commanded(call, env, aborted, voice, px4);
      && (SetTakeoffAltitude(altitude) in commands <==>
           && call.name == "takeoff" && !aborted && px4.action && (env.requireSpokenArm ==> voice)
           && NumberAt(call.args, "altitude_m", altitude) && 0.0 < altitude <= env.maxAltitude)
      && (SetTakeoffAltitude(altitude) in commands ==> commands == [SetTakeoffAltitude(altitude), Takeoff])
      && (Takeoff in commands ==> commands[0].SetTakeoffAltitude?)
  {
    HandlersByName(call.name);
    CommandedBy(call, env, aborted, voice, px4);
    if call.name == "takeoff" {
      GateOfTakeoff(call, env, aborted, voice);
      TakeoffHandled(call.args, px4, altitude);
    }
  }

  lemma TakeoffHandled(args: Args, px4: Px4, altitude: real)
    ensures var commands := CommandsOf(Handle(HandlesTakeoff, args, px4));
      && (NumberAt(args, "altitude_m", altitude) && px4.action ==> commands == [SetTakeoffAltitude(altitude), Takeoff])
      && (commands != [] ==> px4.action && |commands| == 2 && commands[0].SetTakeoffAltitude? && commands[1] == Takeoff)
      && (commands != [] ==> NumberAt(args, "altitude_m", commands[0].altitude))
  {
  }

  /** The position setpoint that reaches the vehicle, its heading included, and exactly the calls that produce it. */
  lemma GotoReaches(call: ToolCall, env: Envelope, aborted: bool, voice: bool, px4: Px4, n: real, e: real, d: real,
        yaw: real)
    ensures var commands := Commanded(call, env, aborted, voice, px4);
      && (SetPosition(n, e, d, yaw) in commands <==>
           && call.name == "goto_ned" && !aborted && px4.offboard
           && NumberAt(call.args, "n", n) && NumberAt(call.args, "e", e) && NumberAt(call.args, "d", d)
           && HeadingIs(call.args, px4, yaw) && InsideCylinder(n, e, d, env))
      && (SetPosition(n, e, d, yaw) in commands ==> commands == [SetPosition(n, e, d, yaw), StartOffboard])
  {
    HandlersByName(call.name);
    CommandedBy(call, env, aborted, voice, px4);
    if call.name == "goto_ned" {
      GotoHandled(call.args, px4, n, e, d, yaw);
      if NumberAt(call.args, "n", n) && NumberAt(call.args, "e", e) && NumberAt(call.args, "d", d) {
        GateOfGoto(call, env, aborted, voice, n, e, d);
      }
    }
  }

  lemma GotoHandled(args: Args, px4: Px4, n: real, e: real, d: real, yaw: real)
    ensures var commands, c := CommandsOf(Handle(HandlesGoto, args, px4)), SetPosition(n, e, d, yaw);
      && (c in commands ==> commands == [c, StartOffboard])
      && (c in commands <==>
           && px4.offboard && NumberAt(args, "n", n) && NumberAt(args, "e", e) && NumberAt(args, "d", d)
           && HeadingIs(args, px4, yaw))
  {
  }

  /** The velocity setpoint that reaches the vehicle: a set_velocity's, or the zero of enable_offboard. */
  lemma VelocityReaches(call: ToolCall, env: Envelope, aborted: bool, voice: bool, px4: Px4, vx: real, vy: real,
        vz: real, yaw: real)
    ensures var commands, c := Commanded(call, env, aborted, voice, px4), SetVelocity(vx, vy, vz, yaw);
      && (c in commands <==> !aborted && px4.offboard && VelocityComesFrom(call, env, px4, vx, vy, vz, yaw))
      && (c in commands ==> commands == [c, StartOffboard])
  {
    HandlersByName(call.name);
    MoreHandlersByName(call.name);
    CommandedBy(call, env, aborted, voice, px4);
    if call.name == "set_velocity_ned" {
      VelocityHandled(call.args, px4, vx, vy, vz, yaw);
      if VelocityAsked(call.args, px4, vx, vy, vz, yaw) {
        GateOfVelocity(call, env, aborted, voice, vx, vy, vz);
      }
    } else if call.name == "enable_offboard" {
      GateOfOthers(call, env, aborted, voice);
      OffboardHandled(call.args, px4);
    }
  }

  predicate VelocityComesFrom(call: ToolCall, env: Envelope, px4: Px4, vx: real, vy: real, vz: real, yaw: real) {
    || (call.name == "enable_offboard" && vx == vy == vz == yaw == 0.0)
    || (call.name == "set_velocity_ned" && VelocityAsked(call.args, px4, vx, vy, vz, yaw) &&
         WithinSpeed(vx, vy, vz, env))
  }

  /** At least one component is there, a missing one counts as zero, and none is of another type. */
  predicate VelocityAsked(args: Args, px4: Px4, vx: real, vy: real, vz: real, yaw: real) {
    && NumberOrZero(args, "vx", vx) && NumberOrZero(args, "vy", vy) && NumberOrZero(args, "vz", vz)
    && (Present(args, "vx") || Present(args, "vy") || Present(args, "vz")) && HeadingIs(args, px4, yaw)
  }

  lemma VelocityHandled(args: Args, px4: Px4, vx: real, vy: real, vz: real, yaw: real)
    ensures var commands, c := CommandsOf(Handle(HandlesVelocity, args, px4)), SetVelocity(vx, vy, vz, yaw);
      && (c in commands ==> commands == [c, StartOffboard])
      && (c in commands <==> px4.offboard && VelocityAsked(args, px4, vx, vy, vz, yaw))
  {
  }

  lemma OffboardHandled(args: Args, px4: Px4)
    ensures CommandsOf(Handle(HandlesOffboard, args, px4)) ==
      if px4.offboard then [SetVelocity(0.0, 0.0, 0.0, 0.0), StartOffboard] else []
  {
  }

  /** Offboard control only ever starts right behind a setpoint. */
  lemma OffboardFollowsSetpoint(call: ToolCall, env: Envelope, aborted: bool, voice: bool, px4: Px4)
    ensures var commands := Commanded(call, env, aborted, voice, px4);
      StartOffboard in commands ==>
        && |commands| == 2 && commands[1] == StartOffboard && (commands[0].SetPosition? || commands[0].SetVelocity?)
  {
    CommandedBy(call, env, aborted, voice, px4);
    var handler := HandlerOf(call.name);
    if handler.Some? {
      StartsBehindSetpoint(handler.value, call.args, px4);
    }
  }

  lemma StartsBehindSetpoint(h: Handler, args: Args, px4: Px4)
    ensures var commands := CommandsOf(Handle(h, args, px4));
      StartOffboard in commands ==>
        && |commands| == 2 && commands[1] == StartOffboard && (commands[0].SetPosition? || commands[0].SetVelocity?)
  {
    HandledFrom(h, args, px4);
    if h.HandlesGoto? || h.HandlesVelocity? || h.HandlesOffboard? {
    } else {
      assert StartOffboard !in CommandsOf(Handle(h, args, px4));
    }
  }

  // ---------------------------------------------------------------- parameters

  predicate TextAt(args: Args, key: string, s: string) { Present(args, key) && args.fields[key] == Text(s) }

  /** The whole number towards zero. */
  predicate Whole(x: real, i: int) {
    if x >= 0.0 then i as real <= x < i as real + 1.0 else i as real - 1.0 < x <= i as real
  }

  /** A parameter tool that names one, with no abort and a plugin to ask. */
  predicate Named(call: ToolCall, aborted: bool, px4: Px4, name: string) {
    !aborted && px4.param && name != "" && TextAt(call.args, "name", name)
  }

  ghost predicate IntAt(args: Args, key: string, i: int) { exists y :: NumberAt(args, key, y) && Whole(y, i) }

  /** Which parameter is written, and with what: an int_value goes before a float_value. */
  lemma SetIntReaches(call: ToolCall, env: Envelope, aborted: bool, voice: bool, px4: Px4, name: string, i: int)
    ensures SetIntParameter(name, i) in Commanded(call, env, aborted, voice, px4) <==>
      call.name == "set_param" && Named(call, aborted, px4, name) && IntAt(call.args, "int_value", i)
  {
    MoreHandlersByName(call.name);
    CommandedBy(call, env, aborted, voice, px4);
    if call.name == "set_param" {
      GateOfOthers(call, env, aborted, voice);
      SetParamHandled(call.args, px4, name, i, 0.0);
    }
  }

  lemma SetFloatReaches(call: ToolCall, env: Envelope, aborted: bool, voice: bool, px4: Px4, name: string, x: real)
    ensures SetFloatParameter(name, x) in Commanded(call, env, aborted, voice, px4) <==>
      && call.name == "set_param" && Named(call, aborted, px4, name)
      && !Present(call.args, "int_value") && NumberAt(call.args, "float_value", x)
  {
    MoreHandlersByName(call.name);
    CommandedBy(call, env, aborted, voice, px4);
    if call.name == "set_param" {
      GateOfOthers(call, env, aborted, voice);
      SetParamHandled(call.args, px4, name, 0, x);
    }
  }

  lemma GetParameterReaches(call: ToolCall, env: Envelope, aborted: bool, voice: bool, px4: Px4, name: string)
    ensures GetParameter(name) in Commanded(call, env, aborted, voice, px4) <==>
      call.name == "get_param" && Named(call, aborted, px4, name)
  {
    MoreHandlersByName(call.name);
    CommandedBy(call, env, aborted, voice, px4);
    if call.name == "get_param" {
      GateOfOthers(call, env, aborted, voice);
      GetParamHandled(call.args, px4, name);
    }
  }

  lemma TruncatedIs(x: real, i: int)
    ensures Truncated(x) == i <==> Whole(x, i)
  {
  }

  lemma SetParamHandled(args: Args, px4: Px4, name: string, i: int, x: real)
    ensures var commands, named := CommandsOf(Handle(HandlesSetParam, args, px4)),
                                   px4.param && name != "" && TextAt(args, "name", name);
      && (SetIntParameter(name, i) in commands <==> named && IntAt(args, "int_value", i))
      && (SetFloatParameter(name, x) in commands <==>
           && named && !Present(args, "int_value") && NumberAt(args, "float_value", x))
  {
    if Present(args, "int_value") && args.fields["int_value"].Number? {
      var y := args.fields["int_value"].x;
      TruncatedIs(y, i);
      assert NumberAt(args, "int_value", y);
    }
  }

  lemma GetParamHandled(args: Args, px4: Px4, name: string)
    ensures GetParameter(name) in CommandsOf(Handle(HandlesGetParam, args, px4)) <==>
      px4.param && name != "" && TextAt(args, "name", name)
  {
  }

  // ---------------------------------------------------------------- which calls succeed

  /** An arg-less tool is done exactly when PX4 says success; the others' Busy is an error, too. */
  lemma PlainSucceeds(h: Handler, args: Args, px4: Px4)
    requires Plain(h)
    ensures var r := Handle(h, args, px4);
      && r.Handled?
      && (r.reply == Done <==> px4.action && px4.answer == Success)
      && (px4.action && px4.answer == Busy ==> r.reply == Error("busy"))
      && (px4.action && px4.answer.Failed? ==> r.reply == Error(px4.answer.reason))
      && (!px4.action ==> r.reply == Error("action_not_initialized"))
  {
  }

  /** A setpoint is accepted although offboard control is already on; a takeoff is not accepted by a busy PX4. */
  lemma ArgumentsSucceed(h: Handler, args: Args, px4: Px4)
    requires h.HandlesGoto? || h.HandlesVelocity? || h.HandlesOffboard? || h.HandlesTakeoff?
    ensures var r := Handle(h, args, px4);
      && r.Handled?
      && (r.reply == Done <==>
           r.commands != [] && (px4.answer == Success || (px4.answer == Busy && !h.HandlesTakeoff?)))
  {
  }

  /** The parameter tools answer bad_request to a name they cannot read as a text, and no other handler does. */
  lemma BadRequests(h: Handler, args: Args, px4: Px4)
    ensures Handle(h, args, px4).BadRequest? <==>
      && (h.HandlesSetParam? || h.HandlesGetParam?)
      && (args.NotAnObject? || (Present(args, "name") && !args.fields["name"].Text?))
  {
  }

  /** A parameter is accepted exactly when one is asked of PX4 and it says success; health only needs telemetry. */
  lemma QueriesSucceed(h: Handler, args: Args, px4: Px4)
    requires h.HandlesSetParam? || h.HandlesGetParam? || h.HandlesHealth?
    ensures var r := Handle(h, args, px4);
      r.Handled? && r.reply == Done <==>
        if h.HandlesHealth? then px4.telemetry else CommandsOf(r) != [] && px4.answer == Success
  {
  }
}
