/**
 The safety envelope (include/lexaire/safety.hpp) and the tool handlers behind it
 (src/flight_bridge/handlers.cpp), over real arithmetic: what the gate lets through, what a handler then
 sends to the vehicle, and what the two guarantee together.
*/
module SafetyGate {
  import opened Messages

  datatype Envelope = Envelope(maxAltitude: real, geofenceRadius: real, maxVelocity: real, requireSpokenArm: bool)

  /** `Throws`: a nlohmann::json type error, which the request loop turns into `bad_request`. */
  datatype Gate = Allow | Deny(reason: string) | Throws

  // ---------------------------------------------------------------- reading arguments

  predicate Contains(args: Args, key: string) { args.Object? && key in args.fields }

  /** `args.value("voice_confirmed", false)`; None where it throws. */
  function VoiceConfirmed(args: Args): Option<bool> {
    if args.NotAnObject? then None
    else if "voice_confirmed" !in args.fields then Some(false)
    else if args.fields["voice_confirmed"].Boolean? then Some(args.fields["voice_confirmed"].b)
    else None
  }

  /** The gate's lambda: a missing key counts as 0, a value of another type is None. */
  function AsDouble(args: Args, key: string): Option<real> {
    if !Contains(args, key) then Some(0.0)
    else if args.fields[key].Number? then Some(args.fields[key].x)
    else None
  }

  /** The handlers' require_double: the value, or an error. */
  datatype Required = Got(x: real) | Refused(error: string)

  function RequireDouble(args: Args, key: string): Required {
    if !Contains(args, key) then Refused("missing:" + key)
    else if !args.fields[key].Number? then Refused("wrong_type:" + key)
    else Got(args.fields[key].x)
  }

  /** The handlers' optional_double: an error only when present with the wrong type. */
  datatype Optional = Missing | Present(x: real) | WrongType(error: string)

  function OptionalDouble(args: Args, key: string): Optional {
    if !Contains(args, key) then Missing
    else if !args.fields[key].Number? then WrongType("wrong_type:" + key)
    else Present(args.fields[key].x)
  }

  /** `sqrt(squared) > limit` */
  predicate RootExceeds(squared: real, limit: real) { limit < 0.0 || squared > limit * limit }

  lemma RootExceedsIsRoot(root: real, limit: real)
    requires root >= 0.0
    ensures root > limit <==> RootExceeds(root * root, limit)
  {
    if limit >= 0.0 {
      if root > limit {
        Product(root - limit, root);
        Product(root - limit, limit);
        assert root * root > 0.0 && root * root - limit * root == (root - limit) * root;
      } else {
        Product(limit - root, root);
        Product(limit - root, limit);
      }
    }
  }

  lemma Product(a: real, b: real)
    ensures a >= 0.0 && b >= 0.0 ==> a * b >= 0.0
    ensures a > 0.0 && b > 0.0 ==> a * b > 0.0
  {
  }

  // ---------------------------------------------------------------- the gate

  predicate EmergencyFollowup(name: string) {
    name == "abort" || name == "kill" || name == "land" || name == "disarm"
  }

  function CheckGoto(args: Args, env: Envelope): Gate {
    var d := AsDouble(args, "d");
    if Contains(args, "d") && d == None then Deny("wrong_type:d")
    else if Contains(args, "d") && d.value > 0.0 then Deny("altitude_below_home")
    else if Contains(args, "d") && -d.value > env.maxAltitude then Deny("altitude_exceeds_max")
    else
      var n, e := AsDouble(args, "n"), AsDouble(args, "e");
      if n == None then Deny("wrong_type:n")
      else if e == None then Deny("wrong_type:e")
      else if RootExceeds(n.value * n.value + e.value * e.value, env.geofenceRadius) then Deny("geofence_breach")
      else Allow
  }

  function CheckVelocity(args: Args, env: Envelope): Gate {
    var vx, vy, vz := AsDouble(args, "vx"), AsDouble(args, "vy"), AsDouble(args, "vz");
    if vx == None then Deny("wrong_type:vx")
    else if vy == None then Deny("wrong_type:vy")
    else if vz == None then Deny("wrong_type:vz")
    else if RootExceeds(vx.value * vx.value + vy.value * vy.value + vz.value * vz.value, env.maxVelocity)
      then Deny("velocity_exceeds_max")
    else Allow
  }

  function CheckTakeoff(args: Args, env: Envelope): Gate {
    var alt := AsDouble(args, "altitude_m");
    if alt == None then Deny("wrong_type:altitude_m")
    else if alt.value <= 0.0 then Deny("altitude_non_positive")
    else if alt.value > env.maxAltitude then Deny("altitude_exceeds_max")
    else Allow
  }

  /** The latches are passed as loaded: each is an atomic that other threads may clear. */
  function CheckTool(call: ToolCall, env: Envelope, aborted: bool, armedWithVoice: bool): Gate {
    var spokenArmMissing := env.requireSpokenArm && !armedWithVoice;
    if aborted && !EmergencyFollowup(call.name) then Deny("abort_active")
    else if call.name == "arm" && spokenArmMissing && VoiceConfirmed(call.args) == None then Throws
    else if call.name == "arm" && spokenArmMissing && !VoiceConfirmed(call.args).value then Deny("spoken_arm_required")
    else if call.name == "takeoff" && spokenArmMissing then Deny("spoken_arm_required")
    else if call.name == "takeoff" then CheckTakeoff(call.args, env)
    else if call.name == "goto_ned" then CheckGoto(call.args, env)
    else if call.name == "set_velocity_ned" then CheckVelocity(call.args, env)
    else Allow
  }

  // ---------------------------------------------------------------- the handlers

  /** What a handler makes the vehicle do. */
  datatype Command =
    | Arm | Disarm | Land | ReturnToLaunch | Hold | Kill | Takeoff
    | SetTakeoffAltitude(altitude: real)
    | SetPosition(n: real, e: real, d: real, yaw: real)
    | SetVelocity(vx: real, vy: real, vz: real, yaw: real)
    | StartOffboard
    | SetIntParameter(name: string, i: int)
    | SetFloatParameter(name: string, x: real)
    | GetParameter(name: string)

  datatype Px4Result = Success | Busy | Failed(reason: string)

  /** Everything a handler learns from MAVSDK: which plugins exist, the latest telemetry, and PX4's answer. */
  datatype Px4 = Px4(action: bool, offboard: bool, telemetry: bool, param: bool, inAir: bool, yaw: real,
      answer: Px4Result)

  datatype Reply = Done | Error(reason: string)

  /** One handled call: the commands sent, whether the abort latch was set, and the reply; or a type error. */
  datatype Handled = Handled(commands: seq<Command>, latchesAbort: bool, reply: Reply) | BadRequest

  function ActionReply(r: Px4Result): Reply {
    match r
    case Success => Done
    case Busy => Error("busy")
    case Failed(reason) => Error(reason)
  }

  function OffboardReply(r: Px4Result): Reply {
    match r
    case Success => Done
    case Busy => Done
    case Failed(reason) => Error(reason)
  }

  function Refuse(reason: string): Handled { Handled([], false, Error(reason)) }

  function HandleAction(command: Command, px4: Px4): (h: Handled)
    ensures h.Handled? ==> !h.latchesAbort
  {
    if !px4.action then Refuse("action_not_initialized")
    else Handled([command], false, ActionReply(px4.answer))
  }

  function HandleTakeoff(args: Args, px4: Px4): (h: Handled)
    ensures h.Handled? ==> !h.latchesAbort
  {
    match RequireDouble(args, "altitude_m")
    case Refused(error) => Refuse(error)
    case Got(alt) =>
      if !px4.action then Refuse("action_not_initialized")
      else Handled([SetTakeoffAltitude(alt), Takeoff], false, ActionReply(px4.answer))
  }

  function Heading(yaw: Optional, px4: Px4): real {
    if yaw.Present? then yaw.x else if px4.telemetry then px4.yaw else 0.0
  }

  function HandleGoto(args: Args, px4: Px4): (h: Handled)
    ensures h.Handled? ==> !h.latchesAbort
  {
    var n, e, d := RequireDouble(args, "n"), RequireDouble(args, "e"), RequireDouble(args, "d");
    var yaw := OptionalDouble(args, "yaw_deg");
    if n.Refused? then Refuse(n.error)
    else if e.Refused? then Refuse(e.error)
    else if d.Refused? then Refuse(d.error)
    else if yaw.WrongType? then Refuse(yaw.error)
    else if !px4.offboard then Refuse("offboard_not_initialized")
    else Handled([SetPosition(n.x, e.x, d.x, Heading(yaw, px4)), StartOffboard], false, OffboardReply(px4.answer))
  }

  function OrZero(v: Optional): real { if v.Present? then v.x else 0.0 }

  function HandleVelocity(args: Args, px4: Px4): (h: Handled)
    ensures h.Handled? ==> !h.latchesAbort
  {
    var vx, vy, vz := OptionalDouble(args, "vx"), OptionalDouble(args, "vy"), OptionalDouble(args, "vz");
    var yaw := OptionalDouble(args, "yaw_deg");
    if vx.WrongType? then Refuse(vx.error)
    else if vy.WrongType? then Refuse(vy.error)
    else if vz.WrongType? then Refuse(vz.error)
    else if vx.Missing? && vy.Missing? && vz.Missing? then Refuse("missing_velocity_component")
    else if yaw.WrongType? then Refuse(yaw.error)
    else if !px4.offboard then Refuse("offboard_not_initialized")
    else Handled([SetVelocity(OrZero(vx), OrZero(vy), OrZero(vz), Heading(yaw, px4)), StartOffboard], false,
                 OffboardReply(px4.answer))
  }

  /** abort and kill: the latch is only set in the air, and before the vehicle is commanded. */
  function HandleEmergency(command: Command, px4: Px4): Handled {
    if !px4.action then Refuse("action_not_initialized")
    else Handled([command], px4.telemetry && px4.inAir, ActionReply(px4.answer))
  }

  function HandleEnableOffboard(px4: Px4): (h: Handled)
    ensures h.Handled? ==> !h.latchesAbort
  {
    if !px4.offboard then Refuse("offboard_not_initialized")
    else
      var reply := if px4.answer.Failed? then Error("offboard_start_failed:" + px4.answer.reason) else Done;
      Handled([SetVelocity(0.0, 0.0, 0.0, 0.0), StartOffboard], false, reply)
  }

  /** `args.value("name", "")` and the checks both parameter tools start with; None when they pass. */
  function ParameterRefusal(args: Args, px4: Px4): (h: Option<Handled>)
    ensures h.Some? && h.value.Handled? ==> !h.value.latchesAbort
    ensures h == None ==> args.Object? && "name" in args.fields && args.fields["name"].Text?
  {
    if args.NotAnObject? then Some(BadRequest)
    else if "name" in args.fields && !args.fields["name"].Text? then Some(BadRequest)
    else if "name" !in args.fields || args.fields["name"].s == "" then Some(Refuse("missing_param_name"))
    else if !px4.param then Some(Refuse("param_not_initialized"))
    else None
  }

  function ParameterReply(prefix: string, r: Px4Result): Reply {
    match r
    case Success => Done
    case Busy => Error(prefix + "unknown")
    case Failed(reason) => Error(prefix + reason)
  }

  /** `static_cast<int>` */
  function Truncated(x: real): int { if x >= 0.0 then x.Floor else -(-x).Floor }

  function HandleSetParam(args: Args, px4: Px4): (h: Handled)
    ensures h.Handled? ==> !h.latchesAbort
  {
    var refusal := ParameterRefusal(args, px4);
    if refusal.Some? then refusal.value
    else if !Contains(args, "int_value") && !Contains(args, "float_value") then Refuse("missing_value")
    else
      var key := if Contains(args, "int_value") then "int_value" else "float_value";
      match RequireDouble(args, key)
      case Refused(error) => Refuse(error)
      case Got(x) =>
        var name := args.fields["name"].s;
        var command := if key == "int_value" then SetIntParameter(name, Truncated(x)) else SetFloatParameter(name, x);
        Handled([command], false, ParameterReply("param_set_failed:", px4.answer))
  }

  function HandleGetParam(args: Args, px4: Px4): (h: Handled)
    ensures h.Handled? ==> !h.latchesAbort
  {
    var refusal := ParameterRefusal(args, px4);
    if refusal.Some? then refusal.value
    else Handled([GetParameter(args.fields["name"].s)], false, ParameterReply("param_get_failed:", px4.answer))
  }

  /** The handlers in the dispatch table. */
  datatype Handler =
    | HandlesArm | HandlesDisarm | HandlesTakeoff | HandlesLand | HandlesReturn | HandlesHold | HandlesGoto
    | HandlesVelocity | HandlesAbort | HandlesKill | HandlesSetParam | HandlesGetParam | HandlesHealth
    | HandlesOffboard

  function HandlerOf(name: string): Option<Handler> {
    match name
    case "arm" => Some(HandlesArm)
    case "disarm" => Some(HandlesDisarm)
    case "takeoff" => Some(HandlesTakeoff)
    case "land" => Some(HandlesLand)
    case "return_to_launch" => Some(HandlesReturn)
    case "hold" => Some(HandlesHold)
    case "goto_ned" => Some(HandlesGoto)
    case "set_velocity_ned" => Some(HandlesVelocity)
    case "abort" => Some(HandlesAbort)
    case "kill" => Some(HandlesKill)
    case "set_param" => Some(HandlesSetParam)
    case "get_param" => Some(HandlesGetParam)
    case "get_health" => Some(HandlesHealth)
    case "enable_offboard" => Some(HandlesOffboard)
    case _ => None
  }

  function Handle(handler: Handler, args: Args, px4: Px4): Handled {
    match handler
    case HandlesArm => HandleAction(Arm, px4)
    case HandlesDisarm => HandleAction(Disarm, px4)
    case HandlesTakeoff => HandleTakeoff(args, px4)
    case HandlesLand => HandleAction(Land, px4)
    case HandlesReturn => HandleAction(ReturnToLaunch, px4)
    case HandlesHold => HandleAction(Hold, px4)
    case HandlesGoto => HandleGoto(args, px4)
    case HandlesVelocity => HandleVelocity(args, px4)
    case HandlesAbort => HandleEmergency(Land, px4)
    case HandlesKill => HandleEmergency(Kill, px4)
    case HandlesSetParam => HandleSetParam(args, px4)
    case HandlesGetParam => HandleGetParam(args, px4)
    case HandlesHealth => if px4.telemetry then Handled([], false, Done) else Refuse("telemetry_not_initialized")
    case HandlesOffboard => HandleEnableOffboard(px4)
  }

  function Dispatch(call: ToolCall, px4: Px4): Handled {
    var handler := HandlerOf(call.name);
    if handler.None? then Refuse("unknown_tool: " + call.name) else Handle(handler.value, call.args, px4)
  }

  function CommandsOf(h: Handled): seq<Command> { if h.Handled? then h.commands else [] }

  /** Gate and handler in sequence, as the request loop runs them: the commands that reach the vehicle. */
  function Commanded(call: ToolCall, env: Envelope, aborted: bool, armedWithVoice: bool, px4: Px4): seq<Command> {
    if CheckTool(call, env, aborted, armedWithVoice) == Allow then CommandsOf(Dispatch(call, px4)) else []
  }

  // ---------------------------------------------------------------- what the two guarantee together

  predicate InsideCylinder(n: real, e: real, d: real, env: Envelope) {
    && env.geofenceRadius >= 0.0
    && n * n + e * e <= env.geofenceRadius * env.geofenceRadius
    && -env.maxAltitude <= d <= 0.0
  }

  predicate WithinSpeed(vx: real, vy: real, vz: real, env: Envelope) {
    env.maxVelocity >= 0.0 && vx * vx + vy * vy + vz * vz <= env.maxVelocity * env.maxVelocity
  }

  predicate WithinEnvelope(c: Command, env: Envelope) {
    match c
    case SetPosition(n, e, d, _) => InsideCylinder(n, e, d, env)
    case SetVelocity(vx, vy, vz, _) => WithinSpeed(vx, vy, vz, env)
    case SetTakeoffAltitude(altitude) => 0.0 < altitude <= env.maxAltitude
    case _ => true
  }

  /**
   For every arguments value, envelope, latch state and vehicle answer: whatever reaches the vehicle is within
   the envelope.  The one setpoint not computed from arguments, enable_offboard's zero velocity, is outside it
   exactly when the configured speed limit is negative.
  */
  lemma CommandsWithinEnvelope(call: ToolCall, env: Envelope, aborted: bool, armedWithVoice: bool, px4: Px4)
    ensures (forall c :: c in Commanded(call, env, aborted, armedWithVoice, px4) ==> WithinEnvelope(c, env))
            <==> !(call.name == "enable_offboard" && !aborted && px4.offboard && env.maxVelocity < 0.0)
  {
    if call.name == "goto_ned" {
      GotoWithin(call, env, aborted, armedWithVoice, px4);
    } else if call.name == "set_velocity_ned" {
      VelocityWithin(call, env, aborted, armedWithVoice, px4);
    } else if call.name == "enable_offboard" {
      ZeroVelocityWithin(call, env, aborted, armedWithVoice, px4);
    } else if call.name == "takeoff" {
      TakeoffWithin(call, env, aborted, armedWithVoice, px4);
    } else {
      NoSetpoint(call, px4);
    }
  }

  lemma ZeroVelocityWithin(call: ToolCall, env: Envelope, aborted: bool, armedWithVoice: bool, px4: Px4)
    requires call.name == "enable_offboard"
    ensures (forall c :: c in Commanded(call, env, aborted, armedWithVoice, px4) ==> WithinEnvelope(c, env))
            <==> !(!aborted && px4.offboard && env.maxVelocity < 0.0)
  {
    var zero := SetVelocity(0.0, 0.0, 0.0, 0.0);
    Product(env.maxVelocity, env.maxVelocity);
    assert Dispatch(call, px4) == HandleEnableOffboard(px4);
    if !aborted && px4.offboard {
      assert Commanded(call, env, aborted, armedWithVoice, px4) == [zero, StartOffboard];
      assert zero in [zero, StartOffboard];
    }
  }

  lemma TakeoffWithin(call: ToolCall, env: Envelope, aborted: bool, armedWithVoice: bool, px4: Px4)
    requires call.name == "takeoff"
    ensures forall c :: c in Commanded(call, env, aborted, armedWithVoice, px4) ==> WithinEnvelope(c, env)
  {
  }

  predicate SendsSetpoint(h: Handler) {
    h.HandlesGoto? || h.HandlesVelocity? || h.HandlesOffboard? || h.HandlesTakeoff?
  }

  lemma NoSetpointHandled(h: Handler, args: Args, px4: Px4)
    requires !SendsSetpoint(h)
    ensures forall c :: c in CommandsOf(Handle(h, args, px4)) ==>
      !c.SetPosition? && !c.SetVelocity? && !c.SetTakeoffAltitude?
  {
  }

  /** The other tools send no setpoint at all. */
  lemma NoSetpoint(call: ToolCall, px4: Px4)
    requires call.name != "goto_ned" && call.name != "set_velocity_ned" && call.name != "enable_offboard" &&
        call.name != "takeoff"
    ensures forall c :: c in CommandsOf(Dispatch(call, px4)) ==>
      !c.SetPosition? && !c.SetVelocity? && !c.SetTakeoffAltitude?
  {
    var handler := HandlerOf(call.name);
    if handler.Some? {
      NoSetpointHandled(handler.value, call.args, px4);
      assert Dispatch(call, px4) == Handle(handler.value, call.args, px4);
    }
  }

  lemma GotoWithin(call: ToolCall, env: Envelope, aborted: bool, armedWithVoice: bool, px4: Px4)
    requires call.name == "goto_ned"
    ensures forall c :: c in Commanded(call, env, aborted, armedWithVoice, px4) ==> WithinEnvelope(c, env)
  {
  }

  lemma VelocityWithin(call: ToolCall, env: Envelope, aborted: bool, armedWithVoice: bool, px4: Px4)
    requires call.name == "set_velocity_ned"
    ensures forall c :: c in Commanded(call, env, aborted, armedWithVoice, px4) ==> WithinEnvelope(c, env)
  {
  }

  // ---------------------------------------------------------------- convexity

  function Between(t: real, a: real, b: real): real { (1.0 - t) * a + t * b }

  /** x -> x * x lies below its chords. */
  lemma SquareConvex(t: real, a: real, b: real)
    requires 0.0 <= t <= 1.0
    ensures Between(t, a, b) * Between(t, a, b) <= Between(t, a * a, b * b)
  {
    var gap := Between(t, a * a, b * b) - Between(t, a, b) * Between(t, a, b);
    assert gap == (t * (1.0 - t)) * ((a - b) * (a - b));
    Product(t, 1.0 - t);
    if a >= b {
      Product(a - b, a - b);
    } else {
      Product(b - a, b - a);
      assert (a - b) * (a - b) == (b - a) * (b - a);
    }
    Product(t * (1.0 - t), (a - b) * (a - b));
  }

  lemma BetweenBounds(t: real, a: real, b: real, low: real, high: real)
    requires 0.0 <= t <= 1.0 && low <= a <= high && low <= b <= high
    ensures low <= Between(t, a, b) <= high
  {
    Product(1.0 - t, a - low);
    Product(t, b - low);
    Product(1.0 - t, high - a);
    Product(t, high - b);
    BetweenShifted(t, a, b, low);
    BetweenShifted(t, a, b, high);
  }

  lemma BetweenShifted(t: real, a: real, b: real, c: real)
    ensures Between(t, a, b) - c == (1.0 - t) * (a - c) + t * (b - c)
  {
    Distribute(1.0 - t, a, c);
    Distribute(t, b, c);
    Distribute(c, 1.0, t);
  }

  lemma Distribute(x: real, y: real, z: real)
    ensures x * (y - z) == x * y - x * z
  {
  }

  /** Every point of the straight leg between two accepted targets is itself an accepted target. */
  lemma StraightLegStaysInside(t: real, n1: real, e1: real, d1: real, n2: real, e2: real, d2: real, env: Envelope)
    requires 0.0 <= t <= 1.0
    requires InsideCylinder(n1, e1, d1, env) && InsideCylinder(n2, e2, d2, env)
    ensures InsideCylinder(Between(t, n1, n2), Between(t, e1, e2), Between(t, d1, d2), env)
  {
    SquareConvex(t, n1, n2);
    SquareConvex(t, e1, e2);
    var r2 := env.geofenceRadius * env.geofenceRadius;
    SumBetween(t, n1 * n1, e1 * e1, n2 * n2, e2 * e2);
    BetweenBounds(t, n1 * n1 + e1 * e1, n2 * n2 + e2 * e2, 0.0, r2);
    BetweenBounds(t, d1, d2, -env.maxAltitude, 0.0);
  }

  lemma SumBetween(t: real, a1: real, b1: real, a2: real, b2: real)
    ensures Between(t, a1, a2) + Between(t, b1, b2) == Between(t, a1 + b1, a2 + b2)
  {
  }
}
