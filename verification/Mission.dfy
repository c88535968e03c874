/**
 One voice command on the orchestrator's main thread (python/services/orchestrator/main.py): the mission loop
 with its batches, skip records, stuck detection and terminal tools, on top of the dispatch path with the
 offline flag and the REQ socket that is recycled on every failure.

 The VLM, the bridge's answers and the moments at which other threads raise the preempt signal or queue a
 command are arbitrary.  Shutdown is not modelled.
*/
module Mission {
  import opened Messages
  import Spoken

  /** `result.error`: null, a string, or any other JSON value the bridge may have put there. */
  datatype ErrorValue = NoError | Message(s: string) | OtherJson(tag: nat)

  datatype Call = Call(name: string, args: map<string, Value>)

  datatype Result = Result(ok: bool, error: ErrorValue)

  /** One entry of `step_history`. */
  datatype Entry = Entry(tool: string, args: map<string, Value>, ok: bool, error: ErrorValue)

  const TERMINAL_TOOLS := {"hold", "land", "abort", "return_to_launch", "kill", "disarm"}
  const STUCK_WINDOW := 4
  const STUCK_THRESHOLD := 2

  // ---------------------------------------------------------------- dispatch

  /** How one attempt to dispatch a call can go. */
  datatype Outcome =
    | SocketFails(e: string)
    | SerializeFails(e: string)
    | SendTimesOut
    | SendFails(e: string)
    | ReceiveTimesOut
    | ReceiveFails(e: string)
    | Garbled(e: string)
    | Replied(ok: bool, error: ErrorValue)

  /** A timeout or a ZMQ error, the outcomes that raise the offline flag. */
  predicate Dead(o: Outcome) {
    o.SocketFails? || o.SendTimesOut? || o.SendFails? || o.ReceiveTimesOut? || o.ReceiveFails?
  }

  /** The request has left for the bridge. */
  predicate Left(o: Outcome) { o.ReceiveTimesOut? || o.ReceiveFails? || o.Garbled? || o.Replied? }

  /** One attempt: the call as serialised, and how it went. */
  datatype Attempt = Attempt(call: Call, outcome: Outcome)

  predicate HasPrefix(s: string, p: string) { |p| <= |s| && s[..|p|] == p }

  /** The errors on which the mission loop gives the bridge up. */
  predicate Unreachable(e: ErrorValue) {
    e.Message? && (e.s == "bridge_offline" || e.s == "timeout" || HasPrefix(e.s, "wire_error"))
  }

  predicate Failing(r: Result) { !r.ok && r.error != NoError }

  function WireError(e: string): (r: Result)
    ensures !r.ok && Unreachable(r.error)
  {
    assert HasPrefix("wire_error: " + e, "wire_error") by {
      assert "wire_error: "[..10] == "wire_error";
      assert ("wire_error: " + e)[..10] == "wire_error: "[..10];
    }
    Result(false, Message("wire_error: " + e))
  }

  /** What an attempt's outcome means for the caller: only a reply can mean anything but "bridge given up". */
  function Meaning(o: Outcome): (r: Result)
    ensures !o.Replied? ==> !r.ok && Unreachable(r.error)
  {
    match o
    case Replied(ok, error) => Result(ok, error)
    case SendTimesOut => Result(false, Message("timeout"))
    case ReceiveTimesOut => Result(false, Message("timeout"))
    case SocketFails(e) => WireError(e)
    case SerializeFails(e) => WireError(e)
    case SendFails(e) => WireError(e)
    case ReceiveFails(e) => WireError(e)
    case Garbled(e) => WireError(e)
  }

  // ---------------------------------------------------------------- what a history says

  function CallOf(e: Entry): Call { Call(e.tool, e.args) }

  function CallsOf(history: seq<Entry>): (calls: seq<Call>)
    ensures |calls| == |history|
  {
    seq(|history|, i requires 0 <= i < |history| => CallOf(history[i]))
  }

  predicate EntryFails(e: Entry) { !e.ok && e.error != NoError }

  /** After this entry nothing more of the mission is executed: bridge given up, or a terminal tool went through. */
  predicate EndsMission(e: Entry) {
    Unreachable(e.error) || (!EntryFails(e) && e.tool in TERMINAL_TOOLS)
  }

  /** After this entry nothing more of its batch is executed. */
  predicate EndsBatch(e: Entry) { EndsMission(e) || EntryFails(e) }

  predicate SameFailure(a: Entry, b: Entry) { a.tool == b.tool && a.error == b.error }

  /** One of the three entries before `p`, executed or skipped, has the same tool and error. */
  ghost predicate RepeatsRecently(history: seq<Entry>, p: nat)
    requires p < |history|
  {
    exists q :: p - 3 <= q < p && 0 <= q && SameFailure(history[q], history[p])
  }

  function Matches(window: seq<Entry>, tool: string, error: ErrorValue): nat {
    if window == [] then 0
    else (if window[0].tool == tool && window[0].error == error then 1 else 0) + Matches(window[1..], tool, error)
  }

  /** `step_history[-4:]` */
  function Window(history: seq<Entry>): seq<Entry> {
    if |history| > STUCK_WINDOW then history[|history| - STUCK_WINDOW..] else history
  }

  lemma {:induction false} MatchesAny(window: seq<Entry>, tool: string, error: ErrorValue)
    ensures Matches(window, tool, error) >= 1 <==>
        exists q :: 0 <= q < |window| && window[q].tool == tool && window[q].error == error
  {
    if window != [] {
      MatchesAny(window[1..], tool, error);
      if q :| 0 <= q < |window[1..]| && window[1..][q].tool == tool && window[1..][q].error == error {
        assert window[q + 1].tool == tool && window[q + 1].error == error;
      }
      if q :| 0 <= q < |window| && window[q].tool == tool && window[q].error == error {
        if q > 0 {
          assert window[1..][q - 1] == window[q];
        }
      }
    }
  }

  lemma {:induction false} MatchesLast(window: seq<Entry>, e: Entry)
    ensures Matches(window + [e], e.tool, e.error) == Matches(window, e.tool, e.error) + 1
  {
    if window == [] {
      assert window + [e] == [e];
      assert [e][1..] == [];
    } else {
      assert (window + [e])[1..] == window[1..] + [e];
      MatchesLast(window[1..], e);
    }
  }

  /** Over the last four entries, the failing one included, the count reaches two exactly at a recent repeat. */
  lemma StuckMeansRepeat(history: seq<Entry>)
    requires history != []
    ensures var p := |history| - 1;
      Matches(Window(history), history[p].tool, history[p].error) >= 2 <==> RepeatsRecently(history, p)
  {
    var p := |history| - 1;
    var e := history[p];
    var w := Window(history);
    var earlier := w[..|w| - 1];
    var low := |history| - |w|;
    assert w == earlier + [e];
    MatchesLast(earlier, e);
    MatchesAny(earlier, e.tool, e.error);
    assert forall q :: low <= q < p ==> history[q] == earlier[q - low];
    if q :| 0 <= q < |earlier| && earlier[q].tool == e.tool && earlier[q].error == e.error {
      assert SameFailure(history[low + q], e);
    }
  }

  lemma RepeatsInPrefix(history: seq<Entry>, more: seq<Entry>, p: nat)
    requires p < |history|
    ensures RepeatsRecently(history + more, p) <==> RepeatsRecently(history, p)
  {
    assert forall q :: 0 <= q < |history| ==> (history + more)[q] == history[q];
  }

  /** Why a batch ended. */
  datatype Stop = NextDecision | Preempted | Offline | Stuck | Terminal(tool: string)

  /** What the calls a batch did not execute are recorded with. */
  function StopReason(stop: Stop): string {
    match stop
    case Preempted => "skipped:preempted"
    case Offline => "skipped:bridge_offline"
    case Terminal(_) => "skipped:after_terminal"
    case _ => "skipped:prior_failure"
  }

  /** A batch as the VLM emitted it, how many of its calls were executed, and why it ended. */
  datatype Batch = Batch(calls: seq<Call>, done: nat, stop: Stop)

  ghost function AllCalls(log: seq<Batch>): seq<Call> {
    if log == [] then [] else AllCalls(log[..|log| - 1]) + log[|log| - 1].calls
  }

  /** An executed prefix and a skipped suffix. */
  ghost function Flags(done: nat, n: nat): seq<bool>
    requires done <= n
  {
    seq(n, i => i < done)
  }

  ghost predicate Proper(log: seq<Batch>) {
    forall i :: 0 <= i < |log| ==> log[i].calls != [] && log[i].done <= |log[i].calls|
  }

  ghost function AllFlags(log: seq<Batch>): seq<bool>
    requires Proper(log)
  {
    if log == [] then [] else AllFlags(log[..|log| - 1]) + Flags(log[|log| - 1].done, |log[|log| - 1].calls|)
  }

  /** The error each skip record of a batch carries; None for an executed entry. */
  ghost function BatchSkips(b: Batch): seq<Option<string>> {
    seq(|b.calls|, i => if i < b.done then None else Some(StopReason(b.stop)))
  }

  ghost function AllSkips(log: seq<Batch>): seq<Option<string>> {
    if log == [] then [] else AllSkips(log[..|log| - 1]) + BatchSkips(log[|log| - 1])
  }

  /** The history's skip records carry these errors. */
  ghost predicate SkippedAs(history: seq<Entry>, skips: seq<Option<string>>) {
    && |history| == |skips|
    && forall p :: 0 <= p < |history| && skips[p].Some? ==> history[p].error == Message(skips[p].value)
  }

  /** Every batch but the last led to another decision, and the last ended as the mission did. */
  ghost predicate StoppedBy(log: seq<Batch>, stop: Stop) {
    && (forall i :: 0 <= i < |log| - 1 ==> log[i].stop == NextDecision)
    && (log != [] ==> log[|log| - 1].stop == stop)
  }

  ghost function AllDone(log: seq<Batch>): nat {
    if log == [] then 0 else AllDone(log[..|log| - 1]) + log[|log| - 1].done
  }

  lemma LogMore(log: seq<Batch>, b: Batch)
    requires Proper(log) && b.calls != [] && b.done <= |b.calls|
    ensures Proper(log + [b])
    ensures AllCalls(log + [b]) == AllCalls(log) + b.calls
    ensures AllFlags(log + [b]) == AllFlags(log) + Flags(b.done, |b.calls|)
    ensures AllDone(log + [b]) == AllDone(log) + b.done
    ensures AllSkips(log + [b]) == AllSkips(log) + BatchSkips(b)
  {
    assert (log + [b])[..|log|] == log;
  }

  function SkipEntries(remaining: seq<Call>, reason: string): seq<Entry> {
    seq(|remaining|, i requires 0 <= i < |remaining| =>
      Entry(remaining[i].name, remaining[i].args, false, Message(reason)))
  }

  /** The entries that were executed, in order. */
  ghost function Executed(history: seq<Entry>, ran: seq<bool>): seq<Entry>
    requires |history| == |ran|
  {
    if history == [] then []
    else
      var n := |history| - 1;
      Executed(history[..n], ran[..n]) + (if ran[n] then [history[n]] else [])
  }

  lemma {:induction false} ExecutedMore(history: seq<Entry>, ran: seq<bool>, tail: seq<Entry>, done: nat, m: nat)
    requires |history| == |ran| && done <= |tail| && m <= |tail|
    ensures Executed(history + tail[..m], ran + Flags(done, |tail|)[..m]) ==
        Executed(history, ran) + tail[..if m < done then m else done]
  {
    if m == 0 {
      assert history + tail[..0] == history && ran + Flags(done, |tail|)[..0] == ran;
    } else {
      ExecutedMore(history, ran, tail, done, m - 1);
      assert (history + tail[..m])[..|history| + m - 1] == history + tail[..m - 1];
      assert (ran + Flags(done, |tail|)[..m])[..|history| + m - 1] == ran + Flags(done, |tail|)[..m - 1];
    }
  }

  /** Each executed entry is one attempt, with the entry's result explained by the attempt's outcome. */
  ghost predicate AttemptedAs(executed: seq<Entry>, tried: seq<Attempt>, authorized: bool) {
    && |executed| == |tried|
    && forall k :: 0 <= k < |tried| ==>
         && tried[k].call == Serialized(CallOf(executed[k]), authorized)
         && Meaning(tried[k].outcome) == Result(executed[k].ok, executed[k].error)
  }

  /** The skip records of `_record_skipped`. */
  predicate IsSkip(e: Entry) {
    !e.ok && e.error.Message? &&
    (e.error.s == "skipped:preempted" || e.error.s == "skipped:bridge_offline" ||
     e.error.s == "skipped:prior_failure" || e.error.s == "skipped:after_terminal")
  }

  /** `voice_confirmed` on arm is the orchestrator's, whatever the call said. */
  function Serialized(tc: Call, authorized: bool): Call {
    if tc.name == "arm" then Call(tc.name, tc.args["voice_confirmed" := Boolean(authorized)]) else tc
  }

  /** The call of an attempt: as asked for, but for arm, whose `voice_confirmed` is the authorisation. */
  ghost predicate Carries(call: Call, tc: Call, authorized: bool) {
    && call.name == tc.name
    && (tc.name != "arm" ==> call.args == tc.args)
    && (tc.name == "arm" ==>
         && call.args.Keys == tc.args.Keys + {"voice_confirmed"}
         && call.args["voice_confirmed"] == Boolean(authorized)
         && forall key :: key in tc.args && key != "voice_confirmed" ==> call.args[key] == tc.args[key])
  }

  /** The result of an attempt: a reply as it is; a timeout; or the text of the error. */
  predicate Explains(o: Outcome, ok: bool, error: ErrorValue) {
    if o.Replied? then ok == o.ok && error == o.error
    else if o.SendTimesOut? || o.ReceiveTimesOut? then !ok && error == Message("timeout")
    else !ok && error == Message("wire_error: " + o.e)
  }

  lemma SerializedCarries(tc: Call, authorized: bool)
    ensures Carries(Serialized(tc, authorized), tc, authorized)
  {
  }

  lemma MeaningExplains(o: Outcome)
    ensures Explains(o, Meaning(o).ok, Meaning(o).error)
  {
  }

  /** Each executed entry, and the attempt behind it. */
  lemma AttemptsCarry(executed: seq<Entry>, tried: seq<Attempt>, authorized: bool)
    requires AttemptedAs(executed, tried, authorized)
    ensures |executed| == |tried|
    ensures forall k :: 0 <= k < |tried| ==>
      && Carries(tried[k].call, CallOf(executed[k]), authorized)
      && Explains(tried[k].outcome, executed[k].ok, executed[k].error)
  {
    forall k | 0 <= k < |tried|
      ensures Carries(tried[k].call, CallOf(executed[k]), authorized)
      ensures Explains(tried[k].outcome, executed[k].ok, executed[k].error)
    {
      SerializedCarries(CallOf(executed[k]), authorized);
      MeaningExplains(tried[k].outcome);
    }
  }

  /** The reason a batch reports, against what it recorded: `done` entries executed, the rest skipped. */
  ghost predicate StopIs(stop: Stop, h0: seq<Entry>, tail: seq<Entry>, done: nat)
    requires done <= |tail|
  {
    var ended := done > 0 && EndsBatch(tail[done - 1]);
    match stop
    case Preempted => !ended && done < |tail|
    case Offline => ended && Unreachable(tail[done - 1].error)
    case Stuck => ended && !EndsMission(tail[done - 1]) && RepeatsRecently(h0 + tail, |h0| + done - 1)
    case Terminal(tool) => ended && !Unreachable(tail[done - 1].error) && EndsMission(tail[done - 1]) &&
      tail[done - 1].tool == tool
    case NextDecision =>
      (!ended && done == |tail|) ||
        (ended && !EndsMission(tail[done - 1]) && !RepeatsRecently(h0 + tail, |h0| + done - 1))
  }

  datatype VlmAnswer = Raised | Answered(errorThought: bool, calls: seq<Call>)

  /** How one round of the mission loop left the loop's flags. */
  datatype Flow = Flow(goOn: bool, preempted: bool, why: Stop, vlmError: bool)

  const GO_ON := Flow(true, false, NextDecision, false)

  predicate Sensible(f: Flow) {
    && (f.goOn ==> f == GO_ON)
    && (f.why == Preempted ==> f.preempted) && (f.preempted ==> f.why == Preempted || f.why == NextDecision)
    && (f.vlmError ==> f.why == NextDecision)
  }

  /** What made a round end the mission without a batch to show for it. */
  ghost predicate Caused(f: Flow, vlm: nat -> VlmAnswer, log: seq<Batch>, decisions: nat) {
    && (f.vlmError ==> VlmFailed(vlm, log, decisions))
    && (!f.goOn && !f.preempted && !f.vlmError && f.why == NextDecision ==> AskedForNothing(vlm, log, decisions))
  }

  /** The last VLM call raised, or its answer was an error thought without calls. */
  ghost predicate VlmFailed(vlm: nat -> VlmAnswer, log: seq<Batch>, decisions: nat) {
    || (decisions == |log| && vlm(|log|).Raised?)
    || (decisions == |log| + 1 && vlm(|log|) == Answered(true, []))
  }

  /** The last answer of the VLM asked for no tool call, and was no error. */
  ghost predicate AskedForNothing(vlm: nat -> VlmAnswer, log: seq<Batch>, decisions: nat) {
    decisions == |log| + 1 && vlm(|log|) == Answered(false, [])
  }

  function EndReason(preempted: bool, why: Stop, offline: bool, vlmError: bool, decisions: nat, maxSteps: int): End {
    if preempted then WasPreempted
    else if why.Terminal? then ByTerminal(why.tool)
    else if offline then BridgeOffline
    else if vlmError then VlmError
    else if decisions >= maxSteps then MaxDecisions
    else if why == Stuck then StuckOnFailure
    else NoToolCalls
  }

  /**
   What the reported reason says about how the mission stopped.  A last decision that asks for nothing, or gets
   stuck, reads as out of decisions, and a mission given up on a reply that itself said "timeout" never reads as
   a dead bridge.
  */
  ghost predicate Reported(end: End, stop: Stop, decisions: nat, maxSteps: int, offline: bool,
        vlm: nat -> VlmAnswer, log: seq<Batch>) {
    && (forall tool :: end == ByTerminal(tool) <==> stop == Terminal(tool))
    && (stop == Preempted ==> end == WasPreempted) &&
         (end == WasPreempted ==> stop == Preempted || stop == NextDecision)
    && (end == BridgeOffline <==> offline)
    && (end == StuckOnFailure <==> stop == Stuck && decisions < maxSteps)
    && (stop == Stuck && decisions >= maxSteps ==> end == MaxDecisions)
    && (stop == Offline && !offline ==> end == if decisions >= maxSteps then MaxDecisions else NoToolCalls)
    && (end == MaxDecisions ==> decisions >= maxSteps)
    && (end == VlmError ==> stop == NextDecision && VlmFailed(vlm, log, decisions))
    && (end == NoToolCalls ==> if stop == NextDecision then AskedForNothing(vlm, log, decisions) else stop == Offline)
    && (stop == NextDecision && end != WasPreempted && decisions == |log| + 1 ==>
         (end == VlmError <==> vlm(|log|) == Answered(true, [])))
    && end != Aborted
  }

  lemma EndIsReported(flow: Flow, decisions: nat, maxSteps: int, offline: bool, vlm: nat -> VlmAnswer, log: seq<Batch>)
    requires Sensible(flow) && Caused(flow, vlm, log, decisions)
    requires flow.goOn ==> decisions >= maxSteps && decisions == |log|
    requires offline ==> flow.why == Offline
    ensures var end := EndReason(flow.preempted, flow.why, offline, flow.vlmError, decisions, maxSteps);
      Reported(end, flow.why, decisions, maxSteps, offline, vlm, log) && (end == WasPreempted <==> flow.preempted)
  {
  }

  /** The misleading reports: a reply that says "timeout", and a last decision that gets stuck or asks for nothing. */
  lemma MisleadingEnds(decisions: nat, maxSteps: nat)
    ensures var o := Replied(false, Message("timeout")); !Dead(o) && Unreachable(Meaning(o).error)
    ensures EndReason(false, Offline, false, false, decisions, maxSteps) ==
        if decisions < maxSteps then NoToolCalls else MaxDecisions
    ensures EndReason(false, Stuck, false, false, decisions, maxSteps) ==
        if decisions < maxSteps then StuckOnFailure else MaxDecisions
    ensures EndReason(false, NextDecision, false, false, decisions, maxSteps) ==
        if decisions < maxSteps then NoToolCalls else MaxDecisions
  {
  }

  /** At most `maxSteps` decisions, each with its batch in the log but for a last one that asked for nothing. */
  ghost predicate Budgeted(vlm: nat -> VlmAnswer, log: seq<Batch>, decisions: nat, maxSteps: int) {
    && Emitted(vlm, log) && decisions <= (if maxSteps > 0 then maxSteps else 0)
    && (decisions == |log| || (decisions == |log| + 1 && vlm(|log|).Answered? && vlm(|log|).calls == []))
  }

  /** The batches are, in order, what the VLM answered. */
  ghost predicate Emitted(vlm: nat -> VlmAnswer, log: seq<Batch>) {
    forall i :: 0 <= i < |log| ==> vlm(i).Answered? && log[i].calls == vlm(i).calls
  }

  lemma EmittedMore(vlm: nat -> VlmAnswer, log: seq<Batch>, b: Batch)
    requires Emitted(vlm, log) && vlm(|log|).Answered? && b.calls == vlm(|log|).calls
    ensures Emitted(vlm, log + [b])
  {
  }

  datatype End =
    | Aborted | WasPreempted | ByTerminal(tool: string) | BridgeOffline
    | VlmError | MaxDecisions | StuckOnFailure | NoToolCalls

  ghost predicate NoneDead(tried: seq<Attempt>) {
    forall k :: 0 <= k < |tried| ==> !Dead(tried[k].outcome)
  }

  ghost predicate Consistent(history: seq<Entry>, ran: seq<bool>, step: nat, log: seq<Batch>, tried: seq<Attempt>,
        authorized: bool) {
    && Proper(log) && |history| == |ran|
    && CallsOf(history) == AllCalls(log)
    && ran == AllFlags(log)
    && step == AllDone(log)
    && AttemptedAs(Executed(history, ran), tried, authorized)
    && SkippedAs(history, AllSkips(log))
  }

  /** At a decision boundary: no executed entry ends the mission or repeats a recent failure, the others are skips. */
  ghost predicate AllLive(history: seq<Entry>, ran: seq<bool>) {
    && |history| == |ran|
    && (forall p :: 0 <= p < |history| && ran[p] ==> !EndsMission(history[p]))
    && (forall p :: 0 <= p < |history| && ran[p] && EntryFails(history[p]) ==> !RepeatsRecently(history, p))
    && (forall p :: 0 <= p < |history| && !ran[p] ==> IsSkip(history[p]))
  }

  /** An executed failure that repeats one of the three entries before it. */
  ghost predicate StuckAt(history: seq<Entry>, ran: seq<bool>, p: nat)
    requires p < |history| == |ran|
  {
    ran[p] && EntryFails(history[p]) && !EndsMission(history[p]) && RepeatsRecently(history, p)
  }

  /** At the end: how the mission stopped can be read off its history, and nothing ran after what stopped it. */
  ghost predicate MissionOver(history: seq<Entry>, ran: seq<bool>, stop: Stop) {
    && |history| == |ran|
    && (forall p, q :: 0 <= p < q < |history| && ran[p] && ran[q] ==>
         !EndsMission(history[p]) && !StuckAt(history, ran, p))
    && (forall p :: 0 <= p < |history| && !ran[p] ==> IsSkip(history[p]))
    && (stop == Stuck <==> exists p :: 0 <= p < |history| && StuckAt(history, ran, p))
    && (stop == Offline <==> exists p :: 0 <= p < |history| && ran[p] && Unreachable(history[p].error))
    && (stop.Terminal? <==>
         exists p :: 0 <= p < |history| && ran[p] && !Unreachable(history[p].error) && EndsMission(history[p]))
  }

  /** What nothing is executed after: a bridge given up, or a terminal tool that did not fail. */
  lemma NothingRunsAfter(history: seq<Entry>, ran: seq<bool>, stop: Stop, p: nat, q: nat)
    requires MissionOver(history, ran, stop) && p < q < |history| && ran[p] && ran[q]
    ensures var e := history[p];
      && e.error != Message("timeout") && e.error != Message("bridge_offline")
      && (forall s :: e.error != Message("wire_error" + s))
      && (e.tool in {"hold", "land", "abort", "return_to_launch", "kill", "disarm"} ==> !e.ok && e.error != NoError)
  {
    forall s ensures history[p].error != Message("wire_error" + s) {
      assert ("wire_error" + s)[..10] == "wire_error";
    }
  }

  /** The errors on which the bridge is given up. */
  ghost predicate BridgeError(e: ErrorValue) {
    || e == Message("timeout") || e == Message("bridge_offline")
    || exists s :: e == Message("wire_error" + s)
  }

  ghost predicate TerminalEntry(e: Entry) {
    && !BridgeError(e.error) && (e.ok || e.error == NoError)
    && e.tool in {"hold", "land", "abort", "return_to_launch", "kill", "disarm"}
  }

  ghost predicate RepeatedFailure(history: seq<Entry>, p: nat)
    requires p < |history|
  {
    && !history[p].ok && history[p].error != NoError && !BridgeError(history[p].error)
    && exists q :: p - 3 <= q < p && 0 <= q &&
         history[q].tool == history[p].tool && history[q].error == history[p].error
  }

  lemma UnreachableIs(e: ErrorValue)
    ensures Unreachable(e) <==> BridgeError(e)
  {
    if e.Message? {
      if HasPrefix(e.s, "wire_error") {
        assert e.s == "wire_error" + e.s[10..];
      }
      forall s | e.s == "wire_error" + s ensures HasPrefix(e.s, "wire_error") {
        assert ("wire_error" + s)[..10] == "wire_error";
      }
    }
  }

  lemma EndsAre(history: seq<Entry>, ran: seq<bool>, p: nat)
    requires p < |history| == |ran|
    ensures !Unreachable(history[p].error) && EndsMission(history[p]) <==> TerminalEntry(history[p])
    ensures StuckAt(history, ran, p) ==> RepeatedFailure(history, p)
    ensures RepeatedFailure(history, p) && ran[p] && !EndsMission(history[p]) ==> StuckAt(history, ran, p)
    ensures RepeatedFailure(history, p) ==> !EndsMission(history[p])
  {
    UnreachableIs(history[p].error);
    if StuckAt(history, ran, p) {
      var q :| p - 3 <= q < p && 0 <= q && SameFailure(history[q], history[p]);
    }
    if RepeatedFailure(history, p) {
      var q :| p - 3 <= q < p && 0 <= q && history[q].tool == history[p].tool && history[q].error == history[p].error;
      assert SameFailure(history[q], history[p]);
    }
  }

  /** How a mission stopped, exactly: by a terminal tool, a bridge given up, or a failure repeated. */
  lemma StopShows(history: seq<Entry>, ran: seq<bool>, stop: Stop)
    requires MissionOver(history, ran, stop)
    ensures stop.Terminal? <==> exists p :: 0 <= p < |history| && ran[p] && TerminalEntry(history[p])
    ensures stop == Offline <==> exists p :: 0 <= p < |history| && ran[p] && BridgeError(history[p].error)
    ensures stop == Stuck <==> exists p :: 0 <= p < |history| && ran[p] && RepeatedFailure(history, p)
  {
    forall p | 0 <= p < |history|
      ensures !Unreachable(history[p].error) && EndsMission(history[p]) <==> TerminalEntry(history[p])
      ensures Unreachable(history[p].error) <==> BridgeError(history[p].error)
      ensures StuckAt(history, ran, p) <==> ran[p] && RepeatedFailure(history, p)
    {
      UnreachableIs(history[p].error);
      EndsAre(history, ran, p);
    }
  }

  /** Where the calls of a batch begin in the history. */
  ghost function Start(log: seq<Batch>, i: nat): nat
    requires i <= |log|
  {
    |AllCalls(log[..i])|
  }

  /** The j-th call of the i-th batch in the joined lists. */
  lemma {:induction false} CallAt(log: seq<Batch>, i: nat, j: nat)
    requires Proper(log) && i < |log| && j < |log[i].calls|
    ensures var p := Start(log, i) + j;
      && |AllCalls(log)| == |AllFlags(log)| == |AllSkips(log)| && p < |AllCalls(log)|
      && AllCalls(log)[p] == log[i].calls[j] && AllFlags(log)[p] == (j < log[i].done)
      && AllSkips(log)[p] == BatchSkips(log[i])[j]
  {
    var n := |log| - 1;
    SameLengths(log[..n]);
    if i < n {
      CallAt(log[..n], i, j);
      assert log[..n][..i] == log[..i];
    }
  }

  lemma {:induction false} SameLengths(log: seq<Batch>)
    requires Proper(log)
    ensures |AllCalls(log)| == |AllFlags(log)| == |AllSkips(log)|
  {
    if log != [] {
      SameLengths(log[..|log| - 1]);
    }
  }

  /**
   The history, call by call: the entry of each call the VLM asked for carries the call; the first ones of its
   batch were executed, and each of the others failed for the reason its batch was stopped.
  */
  lemma EntryOfCall(history: seq<Entry>, ran: seq<bool>, step: nat, log: seq<Batch>, tried: seq<Attempt>,
        authorized: bool, stop: Stop, i: nat, j: nat)
    requires Consistent(history, ran, step, log, tried, authorized) && MissionOver(history, ran, stop)
    requires i < |log| && j < |log[i].calls|
    ensures var p, batch := Start(log, i) + j, log[i];
      && p < |history| == |ran| && CallOf(history[p]) == batch.calls[j] && (ran[p] <==> j < batch.done)
      && (!ran[p] ==> !history[p].ok && history[p].error == Message(
            if batch.stop.Preempted? then "skipped:preempted"
            else if batch.stop.Offline? then "skipped:bridge_offline"
            else if batch.stop.Terminal? then "skipped:after_terminal"
            else "skipped:prior_failure"))
  {
    CallAt(log, i, j);
    var p := Start(log, i) + j;
    assert CallsOf(history)[p] == CallOf(history[p]);
    if j >= log[i].done {
      assert AllSkips(log)[p] == Some(StopReason(log[i].stop));
      assert IsSkip(history[p]);
    }
  }

  /** What a batch adds to. */
  datatype View = View(history: seq<Entry>, ran: seq<bool>, step: nat, attempts: seq<Attempt>, authorized: bool)

  /** The preempt checks numbered from `a` up to `b` all came out false, but for the last one if `hit`. */
  ghost predicate Polled(signal: nat -> bool, a: nat, b: nat, hit: bool) {
    && a + (if hit then 1 else 0) <= b
    && (hit ==> signal(b - 1))
    && forall k :: a <= k < b - (if hit then 1 else 0) ==> !signal(k)
  }

  ghost predicate Grown(v: View, v0: View, tail: seq<Entry>, flags: seq<bool>, done: nat, tried: seq<Attempt>) {
    v.history == v0.history + tail && v.ran == v0.ran + flags && v.step == v0.step + done &&
      v.attempts == v0.attempts + tried
  }

  lemma BatchConsistent(history: seq<Entry>, ran: seq<bool>, step: nat, log: seq<Batch>, tried: seq<Attempt>,
        authorized: bool, b: Batch, tail: seq<Entry>, more: seq<Attempt>)
    requires Consistent(history, ran, step, log, tried, authorized)
    requires BatchRecord(b.calls, b.done, tail, more, authorized) && b.calls != [] && SkippedAs(tail, BatchSkips(b))
    ensures Consistent(history + tail, ran + Flags(b.done, |b.calls|), step + b.done, log + [b], tried + more,
        authorized)
  {
    var done, calls := b.done, b.calls;
    LogMore(log, b);
    SkipsJoin(history, AllSkips(log), tail, BatchSkips(b));
    assert CallsOf(history + tail) == CallsOf(history) + CallsOf(tail);
    ExecutedMore(history, ran, tail, done, |tail|);
    assert tail[..|tail|] == tail && Flags(done, |tail|)[..|tail|] == Flags(done, |tail|);
  }

  lemma SkipsJoin(history: seq<Entry>, skips: seq<Option<string>>, tail: seq<Entry>, more: seq<Option<string>>)
    requires SkippedAs(history, skips) && SkippedAs(tail, more)
    ensures SkippedAs(history + tail, skips + more)
  {
  }

  lemma BatchNoneDead(tried: seq<Attempt>, authorized: bool, calls: seq<Call>, done: nat, tail: seq<Entry>,
        more: seq<Attempt>)
    requires NoneDead(tried) && BatchRecord(calls, done, tail, more, authorized)
    ensures forall k :: 0 <= k < |tried + more| - 1 ==> !Dead((tried + more)[k].outcome)
    ensures done == 0 ==> NoneDead(tried + more)
  {
    forall k | 0 <= k < |tried + more| - 1 ensures !Dead((tried + more)[k].outcome) {
      if k >= |tried| {
        GoesOnAlive(tail[..done], more, authorized, k - |tried|);
      }
    }
  }

  /** Position by position, what the entries of an old history and a new batch say in the joined history. */
  lemma BatchPositions(history: seq<Entry>, ran: seq<bool>, authorized: bool, calls: seq<Call>, done: nat,
        tail: seq<Entry>, more: seq<Attempt>, p: nat)
    requires AllLive(history, ran) && BatchRecord(calls, done, tail, more, authorized)
    requires p < |history| + |tail|
    ensures var h, r := history + tail, ran + Flags(done, |calls|);
      && (r[p] && p != |history| + done - 1 ==> !EndsMission(h[p]) && !StuckAt(h, r, p))
      && (!r[p] ==> IsSkip(h[p]))
      && (r[p] && p >= |history| ==> p < |history| + done)
      && (p >= |history| ==> h[p] == tail[p - |history|] && (r[p] <==> p - |history| < done))
  {
    if p < |history| {
      RepeatsInPrefix(history, tail, p);
      assert (history + tail)[p] == history[p] && (ran + Flags(done, |calls|))[p] == ran[p];
    }
  }

  /** A history whose executed entries but for the last one executed, if any, let the mission go on. */
  lemma LastDecides(h: seq<Entry>, r: seq<bool>, last: int, stop: Stop)
    requires |h| == |r| && -1 <= last < |h|
    requires forall p :: 0 <= p < |h| && !r[p] ==> IsSkip(h[p])
    requires forall p :: 0 <= p < |h| && r[p] && p != last ==> !EndsMission(h[p]) && !StuckAt(h, r, p)
    requires forall p :: last < p < |h| ==> !r[p]
    requires stop == Stuck <==> last >= 0 && StuckAt(h, r, last)
    requires stop == Offline <==> last >= 0 && r[last] && Unreachable(h[last].error)
    requires stop.Terminal? <==> last >= 0 && r[last] && !Unreachable(h[last].error) && EndsMission(h[last])
    ensures MissionOver(h, r, stop)
  {
  }

  lemma BatchOver(history: seq<Entry>, ran: seq<bool>, authorized: bool, calls: seq<Call>, done: nat, tail: seq<Entry>,
                  more: seq<Attempt>, stop: Stop)
    requires AllLive(history, ran) && BatchRecord(calls, done, tail, more, authorized) &&
        StopIs(stop, history, tail, done)
    ensures MissionOver(history + tail, ran + Flags(done, |calls|), stop)
    ensures stop == NextDecision || stop == Preempted ==> AllLive(history + tail, ran + Flags(done, |calls|))
  {
    var h, r := history + tail, ran + Flags(done, |calls|);
    forall p | 0 <= p < |h|
      ensures (r[p] && p != |history| + done - 1 ==> !EndsMission(h[p]) && !StuckAt(h, r, p)) &&
          (!r[p] ==> IsSkip(h[p]))
      ensures p >= |history| ==> h[p] == tail[p - |history|] && (r[p] <==> p - |history| < done)
    {
      BatchPositions(history, ran, authorized, calls, done, tail, more, p);
    }
    var last := |history| + done - 1;
    if done > 0 {
      assert h[last] == tail[done - 1] && r[last];
      assert StuckAt(h, r, last) <==> stop == Stuck;
    }
    LastDecides(h, r, last, stop);
  }

  /** A batch that is over, between the views `v0` before it and `v` after it. */
  ghost predicate BatchDone(v0: View, v: View, calls: seq<Call>, done: nat, tail: seq<Entry>, more: seq<Attempt>,
        stop: Stop, offline: bool) {
    && v.authorized == v0.authorized
    && BatchRecord(calls, done, tail, more, v0.authorized)
    && Grown(v, v0, tail, Flags(done, |calls|), done, more)
    && StopIs(stop, v0.history, tail, done)
    && SkippedAs(tail, BatchSkips(Batch(calls, done, stop)))
    && (offline <==> done > 0 && Dead(more[done - 1].outcome))
  }

  ghost predicate Shows(v: View, attempts0: seq<Attempt>, log: seq<Batch>, tried: seq<Attempt>) {
    Consistent(v.history, v.ran, v.step, log, tried, v.authorized) && v.attempts == attempts0 + tried
  }

  ghost predicate SoFar(v: View, attempts0: seq<Attempt>, log: seq<Batch>, tried: seq<Attempt>) {
    Shows(v, attempts0, log, tried) && AllLive(v.history, v.ran) && NoneDead(tried) && StoppedBy(log, NextDecision)
  }

  ghost predicate Over(v: View, attempts0: seq<Attempt>, log: seq<Batch>, tried: seq<Attempt>, stop: Stop,
        offline: bool) {
    && Shows(v, attempts0, log, tried)
    && MissionOver(v.history, v.ran, stop) && StoppedBy(log, stop)
    && OnlyLastDead(tried, offline)
    && (offline ==> stop == Offline)
  }

  /** The bridge is offline exactly when the last attempt found it dead, and no earlier one did. */
  ghost predicate OnlyLastDead(tried: seq<Attempt>, offline: bool) {
    && (offline <==> tried != [] && Dead(tried[|tried| - 1].outcome))
    && forall k :: 0 <= k < |tried| - 1 ==> !Dead(tried[k].outcome)
  }

  lemma BatchDead(tried: seq<Attempt>, authorized: bool, calls: seq<Call>, done: nat, h0: seq<Entry>, tail: seq<Entry>,
                  more: seq<Attempt>, stop: Stop)
    requires NoneDead(tried) && BatchRecord(calls, done, tail, more, authorized) && StopIs(stop, h0, tail, done)
    ensures var offline := done > 0 && Dead(more[done - 1].outcome);
      OnlyLastDead(tried + more, offline) && (offline ==> stop == Offline) && (!offline ==> NoneDead(tried + more))
  {
    BatchNoneDead(tried, authorized, calls, done, tail, more);
    if done > 0 && !Unreachable(tail[done - 1].error) {
      GoesOnAlive(tail[..done], more, authorized, done - 1);
    }
  }

  /** One more batch, as the mission loop sees it. */
  lemma BatchAdded(v0: View, v: View, attempts0: seq<Attempt>, log: seq<Batch>, tried: seq<Attempt>,
                   calls: seq<Call>, done: nat, tail: seq<Entry>, more: seq<Attempt>, stop: Stop, offline: bool)
    requires SoFar(v0, attempts0, log, tried) && calls != []
    requires BatchDone(v0, v, calls, done, tail, more, stop, offline)
    ensures Over(v, attempts0, log + [Batch(calls, done, stop)], tried + more, stop, offline)
    ensures stop == NextDecision ==> !offline && SoFar(v, attempts0, log + [Batch(calls, done, stop)], tried + more)
  {
    BatchConsistent(v0.history, v0.ran, v0.step, log, tried, v0.authorized, Batch(calls, done, stop), tail, more);
    assert (attempts0 + tried) + more == attempts0 + (tried + more);
    assert Shows(v, attempts0, log + [Batch(calls, done, stop)], tried + more);
    BatchDead(tried, v0.authorized, calls, done, v0.history, tail, more, stop);
    BatchOver(v0.history, v0.ran, v0.authorized, calls, done, tail, more, stop);
  }

  /** A mission that stops at a decision boundary. */
  lemma StopsHere(v: View, attempts0: seq<Attempt>, log: seq<Batch>, tried: seq<Attempt>)
    requires SoFar(v, attempts0, log, tried)
    ensures Over(v, attempts0, log, tried, NextDecision, false)
  {
  }

  lemma Starts(attempts0: seq<Attempt>, authorized: bool)
    ensures SoFar(View([], [], 0, attempts0, authorized), attempts0, [], [])
  {
    assert CallsOf([]) == [];
    assert attempts0 + [] == attempts0;
  }

  /** How the loop judges an executed call. */
  datatype Verdict = GoOn | GiveUp | Fail(stuck: bool) | Finish(tool: string)

  ghost predicate VerdictIs(v: Verdict, history: seq<Entry>, p: nat)
    requires p < |history|
  {
    match v
    case GoOn => !EndsBatch(history[p])
    case GiveUp => Unreachable(history[p].error)
    case Fail(stuck) => EntryFails(history[p]) && !EndsMission(history[p]) && (stuck <==> RepeatsRecently(history, p))
    case Finish(tool) => !Unreachable(history[p].error) && EndsMission(history[p]) && history[p].tool == tool
  }

  function StopOf(v: Verdict): Stop
    requires v != GoOn
  {
    match v
    case GiveUp => Offline
    case Fail(stuck) => if stuck then Stuck else NextDecision
    case Finish(tool) => Terminal(tool)
  }

  /** The first `done` calls have been executed, and only the last of them may have ended the batch. */
  ghost predicate Executing(calls: seq<Call>, done: nat, tail: seq<Entry>, tried: seq<Attempt>, authorized: bool) {
    && done == |tail| <= |calls| && CallsOf(tail) == calls[..done] && AttemptedAs(tail, tried, authorized)
    && forall k :: 0 <= k < done - 1 ==> !EndsBatch(tail[k])
  }

  /** A whole batch in the history: an executed prefix, the attempts behind it, and skip records for the rest. */
  ghost predicate BatchRecord(calls: seq<Call>, done: nat, tail: seq<Entry>, tried: seq<Attempt>, authorized: bool) {
    && done <= |tail| == |calls| && CallsOf(tail) == calls && AttemptedAs(tail[..done], tried, authorized)
    && (forall k :: done <= k < |tail| ==> IsSkip(tail[k]))
    && (forall k :: 0 <= k < done - 1 ==> !EndsBatch(tail[k]))
  }

  lemma StopFollows(v: Verdict, h0: seq<Entry>, executed: seq<Entry>, skipped: seq<Entry>)
    requires executed != [] && VerdictIs(v, h0 + executed, |h0| + |executed| - 1) && v != GoOn
    ensures StopIs(StopOf(v), h0, executed + skipped, |executed|)
  {
    RepeatsInPrefix(h0 + executed, skipped, |h0| + |executed| - 1);
    assert (h0 + executed) + skipped == h0 + (executed + skipped);
    assert (h0 + executed)[|h0| + |executed| - 1] == executed[|executed| - 1];
  }

  /** A dead attempt always ends its batch. */
  lemma GoesOnAlive(executed: seq<Entry>, tried: seq<Attempt>, authorized: bool, k: nat)
    requires AttemptedAs(executed, tried, authorized) && k < |tried| && !Unreachable(executed[k].error)
    ensures !Dead(tried[k].outcome)
  {
  }

  lemma ExecuteOne(calls: seq<Call>, done: nat, tail: seq<Entry>, tried: seq<Attempt>, authorized: bool, entry: Entry,
        attempt: Attempt)
    requires Executing(calls, done, tail, tried, authorized) && done < |calls|
    requires done > 0 ==> !EndsBatch(tail[done - 1])
    requires CallOf(entry) == calls[done] && attempt.call == Serialized(calls[done], authorized)
    requires Meaning(attempt.outcome) == Result(entry.ok, entry.error)
    ensures Executing(calls, done + 1, tail + [entry], tried + [attempt], authorized)
  {
    assert CallsOf(tail + [entry]) == CallsOf(tail) + [CallOf(entry)];
    assert calls[..done + 1] == calls[..done] + [calls[done]];
  }

  lemma FinishBatch(calls: seq<Call>, done: nat, tail: seq<Entry>, tried: seq<Attempt>, authorized: bool,
        stop: Stop)
    requires Executing(calls, done, tail, tried, authorized)
    ensures var whole := tail + SkipEntries(calls[done..], StopReason(stop));
      BatchRecord(calls, done, whole, tried, authorized) && SkippedAs(whole, BatchSkips(Batch(calls, done, stop)))
  {
    var skipped := SkipEntries(calls[done..], StopReason(stop));
    assert CallsOf(tail + skipped) == CallsOf(tail) + CallsOf(skipped);
    assert CallsOf(skipped) == calls[done..];
    assert (tail + skipped)[..done] == tail;
    assert calls == calls[..done] + calls[done..];
  }

  lemma FlagsJoin(done: nat, rest: nat)
    ensures Flags(done, done) + Flags(0, rest) == Flags(done, done + rest)
    ensures Flags(done, done) + [true] == Flags(done + 1, done + 1)
  {
  }

  // ---------------------------------------------------------------- the mission object

  class OrchestratorMission {
    var currentStep: nat
    var stepHistory: seq<Entry>
    ghost var ran: seq<bool>   // which entries were executed

    constructor ()
      ensures currentStep == 0 && stepHistory == [] && ran == []
    {
      currentStep, stepHistory, ran := 0, [], [];
    }

    method Record(tc: Call, result: Result, executed: bool)
      modifies this
      ensures stepHistory == old(stepHistory) + [Entry(tc.name, tc.args, result.ok, result.error)]
      ensures ran == old(ran) + [executed]
      ensures currentStep == old(currentStep) + if executed then 1 else 0
    {
      stepHistory := stepHistory + [Entry(tc.name, tc.args, result.ok, result.error)];
      ran := ran + [executed];
      if executed {
        currentStep := currentStep + 1;
      }
    }

    method RecordSkipped(remaining: seq<Call>, reason: string)
      modifies this
      ensures stepHistory == old(stepHistory) + SkipEntries(remaining, reason)
      ensures ran == old(ran) + Flags(0, |remaining|)
      ensures currentStep == old(currentStep)
    {
      for i := 0 to |remaining|
        invariant stepHistory == old(stepHistory) + SkipEntries(remaining, reason)[..i]
        invariant ran == old(ran) + Flags(0, |remaining|)[..i]
        invariant currentStep == old(currentStep)
      {
        Record(remaining[i], Result(false, Message(reason)), false);
      }
    }
  }

  // ---------------------------------------------------------------- the orchestrator object

  datatype Socket = NoSocket | CanSend | MustReceive

  class Orchestrator {
    var bridgeOffline: bool
    var req: Socket
    var armAuthorized: bool
    var attempts: seq<Attempt>      // every attempt so far
    var polls: nat                  // the preempt checks so far
    const world: nat -> Outcome     // how the n-th attempt goes
    const signal: nat -> bool       // what the n-th preempt check finds

    constructor (world: nat -> Outcome, signal: nat -> bool)
      ensures req == NoSocket && !bridgeOffline && attempts == [] && this.world == world && this.signal == signal
      ensures Faithful()
    {
      bridgeOffline, req, armAuthorized, attempts, polls := false, NoSocket, false, [], 0;
      this.world, this.signal := world, signal;
    }

    /** Every attempt so far went as the world outside had it. */
    ghost predicate Faithful()
      reads this`attempts
    {
      forall k :: 0 <= k < |attempts| ==> attempts[k].outcome == world(k)
    }

    method Poll() returns (hit: bool)
      modifies this`polls
      ensures polls == old(polls) + 1 && hit == signal(old(polls))
    {
      hit := signal(polls);
      polls := polls + 1;
    }

    /** The reply or the exception: which of them close the socket, and which give the bridge up. */
    method Settle(outcome: Outcome) returns (result: Result)
      requires !bridgeOffline && (outcome.Replied? ==> req == CanSend)
      modifies this`req, this`bridgeOffline
      ensures result == Meaning(outcome) && (bridgeOffline <==> Dead(outcome))
      ensures req == if outcome.Replied? then CanSend else NoSocket
    {
      match outcome {
        case Replied(ok, error) =>
          bridgeOffline := false;
          result := Result(ok, error);
        case SendTimesOut =>
          req, bridgeOffline := NoSocket, true;
          result := Result(false, Message("timeout"));
        case ReceiveTimesOut =>
          req, bridgeOffline := NoSocket, true;
          result := Result(false, Message("timeout"));
        case SocketFails(e) =>
          req, bridgeOffline := NoSocket, true;
          result := WireError(e);
        case SendFails(e) =>
          req, bridgeOffline := NoSocket, true;
          result := WireError(e);
        case ReceiveFails(e) =>
          req, bridgeOffline := NoSocket, true;
          result := WireError(e);
        case SerializeFails(e) =>   // ValueError or TypeError: the bridge is not to blame
          req := NoSocket;
          result := WireError(e);
        case Garbled(e) =>
          req := NoSocket;
          result := WireError(e);
      }
    }

    /**
     With the offline flag up nothing is attempted.  Otherwise exactly one attempt is made; the flag is up
     afterwards exactly when it timed out or hit a ZMQ error.  The socket survives exactly a reply, and is never
     left waiting for one.
    */
    method DispatchToolCall(tc: Call) returns (result: Result)
      requires req != MustReceive && Faithful()
      modifies this
      ensures req != MustReceive && armAuthorized == old(armAuthorized) && polls == old(polls) && Faithful()
      ensures old(bridgeOffline) ==>
        bridgeOffline && req == old(req) && attempts == old(attempts) &&
          result == Result(false, Message("bridge_offline"))
      ensures !old(bridgeOffline) ==>
        && |attempts| == |old(attempts)| + 1 && attempts[..|old(attempts)|] == old(attempts)
        && var a := attempts[|old(attempts)|];
           && a.call == Serialized(tc, armAuthorized) && Carries(a.call, tc, armAuthorized)
           && result == Meaning(a.outcome) && Explains(a.outcome, result.ok, result.error)
           && (bridgeOffline <==> Dead(a.outcome)) && (req == CanSend <==> a.outcome.Replied?)
           && (bridgeOffline <==> !a.outcome.Replied? && !a.outcome.Garbled? && !a.outcome.SerializeFails?)
    {
      if bridgeOffline {
        return Result(false, Message("bridge_offline"));
      }
      var call := Serialized(tc, armAuthorized);
      SerializedCarries(tc, armAuthorized);
      var outcome := world(|attempts|);
      MeaningExplains(outcome);
      attempts := attempts + [Attempt(call, outcome)];
      if req == NoSocket && !outcome.SocketFails? {
        req := CanSend;
      }
      if Left(outcome) {
        req := MustReceive;   // send() went through
      }
      if outcome.Garbled? || outcome.Replied? {
        req := CanSend;       // recv() returned
      }
      result := Settle(outcome);
    }

    // ---------------------------------------------------------------- one batch

    /** One call of a batch: dispatched, recorded, and judged. */
    method RunCall(mission: OrchestratorMission, tc: Call)
          returns (verdict: Verdict, ghost entry: Entry, ghost attempt: Attempt)
      requires req != MustReceive && !bridgeOffline && Faithful()
      modifies this, mission
      ensures req != MustReceive && armAuthorized == old(armAuthorized) && polls == old(polls) && Faithful()
      ensures mission.stepHistory == old(mission.stepHistory) + [entry] && CallOf(entry) == tc
      ensures mission.ran == old(mission.ran) + [true]
      ensures mission.currentStep == old(mission.currentStep) + 1
      ensures attempts == old(attempts) + [attempt]
      ensures attempt.call == Serialized(tc, armAuthorized) && Meaning(attempt.outcome) == Result(entry.ok, entry.error)
      ensures bridgeOffline <==> Dead(attempt.outcome)
      ensures VerdictIs(verdict, mission.stepHistory, |mission.stepHistory| - 1)
    {
      var result := DispatchToolCall(tc);
      mission.Record(tc, result, true);
      entry := Entry(tc.name, tc.args, result.ok, result.error);
      attempt := attempts[|attempts| - 1];
      if Unreachable(result.error) {
        verdict := GiveUp;
      } else if Failing(result) {
        var matches := Matches(Window(mission.stepHistory), tc.name, result.error);
        StuckMeansRepeat(mission.stepHistory);
        verdict := Fail(matches >= STUCK_THRESHOLD);
      } else if tc.name in TERMINAL_TOOLS {
        verdict := Finish(tc.name);
      } else {
        verdict := GoOn;
      }
    }

    /** Both objects as they were when a batch began. */
    ghost function ViewOf(mission: OrchestratorMission): View
      reads this`attempts, this`armAuthorized, mission
    {
      View(mission.stepHistory, mission.ran, mission.currentStep, attempts, armAuthorized)
    }

    /** A batch under way: `done` calls executed and recorded since `v0`, none of which ends it. */
    ghost predicate Running(mission: OrchestratorMission, v0: View, calls: seq<Call>, done: nat, tail: seq<Entry>,
          tried: seq<Attempt>)
      reads this`req, this`bridgeOffline, this`attempts, this`armAuthorized, mission
    {
      && req != MustReceive && !bridgeOffline && armAuthorized == v0.authorized
      && Executing(calls, done, tail, tried, armAuthorized) && (done > 0 ==> !EndsBatch(tail[done - 1]))
      && Grown(ViewOf(mission), v0, tail, Flags(done, done), done, tried) && Faithful()
    }

    /** A batch that is over. */
    ghost predicate Finished(mission: OrchestratorMission, v0: View, calls: seq<Call>, done: nat, tail: seq<Entry>,
          tried: seq<Attempt>, stop: Stop)
      reads this`req, this`bridgeOffline, this`attempts, this`armAuthorized, mission
    {
      && req != MustReceive && BatchDone(v0, ViewOf(mission), calls, done, tail, tried, stop, bridgeOffline)
      && Faithful()
    }

    /** The rest of a batch goes into the history as skip records, with the reason the batch stopped for. */
    method SkipRest(mission: OrchestratorMission, calls: seq<Call>, done: nat, stop: Stop,
                    ghost v0: View, ghost tail: seq<Entry>, ghost tried: seq<Attempt>)
      returns (ghost whole: seq<Entry>)
      requires Executing(calls, done, tail, tried, v0.authorized)
      requires Grown(ViewOf(mission), v0, tail, Flags(done, done), done, tried)
      modifies mission
      ensures whole == tail + SkipEntries(calls[done..], StopReason(stop))
      ensures BatchRecord(calls, done, whole, tried, v0.authorized)
      ensures SkippedAs(whole, BatchSkips(Batch(calls, done, stop)))
      ensures Grown(ViewOf(mission), v0, whole, Flags(done, |calls|), done, tried)
    {
      ghost var skipped := SkipEntries(calls[done..], StopReason(stop));
      mission.RecordSkipped(calls[done..], StopReason(stop));
      FinishBatch(calls, done, tail, tried, v0.authorized, stop);
      FlagsJoin(done, |calls| - done);
      whole := tail + skipped;
      assert (v0.history + tail) + skipped == v0.history + whole;
      assert (v0.ran + Flags(done, done)) + Flags(0, |calls| - done) ==
          v0.ran + (Flags(done, done) + Flags(0, |calls| - done));
    }

    /** `done` calls executed and recorded since `v0`, the last of them judged. */
    ghost predicate Advanced(mission: OrchestratorMission, v0: View, calls: seq<Call>, done: nat, verdict: Verdict,
          tail: seq<Entry>, tried: seq<Attempt>)
      requires done > 0
      reads this`req, this`bridgeOffline, this`attempts, this`armAuthorized, mission
    {
      && req != MustReceive && armAuthorized == v0.authorized && Faithful()
      && Executing(calls, done, tail, tried, v0.authorized)
      && Grown(ViewOf(mission), v0, tail, Flags(done, done), done, tried)
      && VerdictIs(verdict, v0.history + tail, |v0.history| + done - 1)
      && (bridgeOffline <==> Dead(tried[done - 1].outcome))
    }

    /** The next call of a batch: executed, recorded and judged. */
    method Advance(mission: OrchestratorMission, calls: seq<Call>, done: nat,
                   ghost v0: View, ghost tail: seq<Entry>, ghost tried: seq<Attempt>)
      returns (verdict: Verdict, ghost tail': seq<Entry>, ghost tried': seq<Attempt>)
      requires done < |calls| && Running(mission, v0, calls, done, tail, tried)
      modifies this, mission
      ensures polls == old(polls) && Advanced(mission, v0, calls, done + 1, verdict, tail', tried')
    {
      ghost var entry, attempt;
      verdict, entry, attempt := RunCall(mission, calls[done]);
      ExecuteOne(calls, done, tail, tried, armAuthorized, entry, attempt);
      FlagsJoin(done, 0);
      tail', tried' := tail + [entry], tried + [attempt];
      assert mission.stepHistory == v0.history + tail';
    }

    /** The preempt check hit: nothing more of the batch is executed. */
    method BreakOff(mission: OrchestratorMission, calls: seq<Call>, done: nat,
                    ghost v0: View, ghost tail: seq<Entry>, ghost tried: seq<Attempt>)
      returns (ghost whole: seq<Entry>)
      requires done < |calls| && Running(mission, v0, calls, done, tail, tried)
      modifies mission
      ensures Finished(mission, v0, calls, done, whole, tried, Preempted)
    {
      whole := SkipRest(mission, calls, done, Preempted, v0, tail, tried);
    }

    /** The last executed call ended the batch. */
    method Conclude(mission: OrchestratorMission, calls: seq<Call>, done: nat, verdict: Verdict,
                    ghost v0: View, ghost tail: seq<Entry>, ghost tried: seq<Attempt>)
      returns (ghost whole: seq<Entry>)
      requires verdict != GoOn && done > 0 && Advanced(mission, v0, calls, done, verdict, tail, tried)
      modifies mission
      ensures Finished(mission, v0, calls, done, whole, tried, StopOf(verdict))
    {
      StopFollows(verdict, v0.history, tail, SkipEntries(calls[done..], StopReason(StopOf(verdict))));
      whole := SkipRest(mission, calls, done, StopOf(verdict), v0, tail, tried);
    }

    /** The next call of a batch and what follows from its verdict. */
    method Proceed(mission: OrchestratorMission, calls: seq<Call>, done: nat,
                   ghost v0: View, ghost tail: seq<Entry>, ghost tried: seq<Attempt>)
      returns (stopped: Option<Stop>, ghost tail': seq<Entry>, ghost tried': seq<Attempt>)
      requires done < |calls| && Running(mission, v0, calls, done, tail, tried)
      modifies this, mission
      ensures polls == old(polls) && stopped != Some(Preempted)
      ensures stopped == None ==> Running(mission, v0, calls, done + 1, tail', tried')
      ensures stopped.Some? ==> Finished(mission, v0, calls, done + 1, tail', tried', stopped.value)
    {
      var verdict;
      verdict, tail', tried' := Advance(mission, calls, done, v0, tail, tried);
      if verdict == GoOn {
        StillRunning(mission, v0, calls, done + 1, tail', tried');
        return None, tail', tried';
      }
      tail' := Conclude(mission, calls, done + 1, verdict, v0, tail', tried');
      return Some(StopOf(verdict)), tail', tried';
    }

    /** One round of the inner loop: the preempt check, then the next call. */
    method RunNext(mission: OrchestratorMission, calls: seq<Call>, done: nat,
                   ghost v0: View, ghost tail: seq<Entry>, ghost tried: seq<Attempt>)
      returns (stopped: Option<Stop>, done': nat, ghost tail': seq<Entry>, ghost tried': seq<Attempt>)
      requires done < |calls| && Running(mission, v0, calls, done, tail, tried)
      modifies this, mission
      ensures stopped == None ==> done' == done + 1 && Running(mission, v0, calls, done', tail', tried')
      ensures stopped.Some? ==> Finished(mission, v0, calls, done', tail', tried', stopped.value)
      ensures Polled(signal, old(polls), polls, stopped == Some(Preempted))
    {
      var preempted := Poll();
      if preempted {
        tail' := BreakOff(mission, calls, done, v0, tail, tried);
        return Some(Preempted), done, tail', tried;
      }
      done' := done + 1;
      stopped, tail', tried' := Proceed(mission, calls, done, v0, tail, tried);
    }

    lemma StillRunning(mission: OrchestratorMission, v0: View, calls: seq<Call>, done: nat, tail: seq<Entry>,
          tried: seq<Attempt>)
      requires done > 0 && Advanced(mission, v0, calls, done, GoOn, tail, tried)
      ensures Running(mission, v0, calls, done, tail, tried)
    {
      assert (v0.history + tail)[|v0.history| + done - 1] == tail[done - 1];
      assert !Unreachable(tail[done - 1].error);
    }

    lemma AllExecuted(mission: OrchestratorMission, v0: View, calls: seq<Call>, tail: seq<Entry>, tried: seq<Attempt>)
      requires Running(mission, v0, calls, |calls|, tail, tried)
      ensures Finished(mission, v0, calls, |calls|, tail, tried, NextDecision)
    {
      assert tail[..|calls|] == tail;
      assert calls[..|calls|] == calls;
    }

    /** The inner loop over one decision's tool calls. */
    method RunBatch(mission: OrchestratorMission, calls: seq<Call>)
      returns (stop: Stop, done: nat, ghost tail: seq<Entry>, ghost tried: seq<Attempt>)
      requires req != MustReceive && !bridgeOffline && Faithful()
      modifies this, mission
      ensures Finished(mission, old(ViewOf(mission)), calls, done, tail, tried, stop)
      ensures Polled(signal, old(polls), polls, stop == Preempted)
    {
      ghost var v0 := ViewOf(mission);
      done, tail, tried := 0, [], [];
      while done < |calls|
        invariant done <= |calls| && Running(mission, v0, calls, done, tail, tried)
        invariant Polled(signal, old(polls), polls, false)
      {
        var stopped;
        stopped, done, tail, tried := RunNext(mission, calls, done, v0, tail, tried);
        if stopped.Some? {
          return stopped.value, done, tail, tried;
        }
      }
      stop := NextDecision;
      AllExecuted(mission, v0, calls, tail, tried);
    }

    // ---------------------------------------------------------------- one command

    /** The mission so far, at a decision boundary. */
    ghost predicate AtDecision(mission: OrchestratorMission, attempts0: seq<Attempt>, log: seq<Batch>,
          tried: seq<Attempt>)
      reads this`req, this`bridgeOffline, this`attempts, this`armAuthorized, mission
    {
      && req != MustReceive && !bridgeOffline && SoFar(ViewOf(mission), attempts0, log, tried)
      && Faithful()
    }

    /** The mission after its last batch, and why it stopped. */
    ghost predicate AtEnd(mission: OrchestratorMission, attempts0: seq<Attempt>, log: seq<Batch>, tried: seq<Attempt>,
          stop: Stop)
      reads this`req, this`bridgeOffline, this`attempts, this`armAuthorized, mission
    {
      && req != MustReceive && Over(ViewOf(mission), attempts0, log, tried, stop, bridgeOffline)
      && Faithful()
    }

    /** One decision's batch, run from a decision boundary. */
    method Decide(mission: OrchestratorMission, calls: seq<Call>,
                  ghost attempts0: seq<Attempt>, ghost log: seq<Batch>, ghost tried: seq<Attempt>)
      returns (stop: Stop, done: nat, ghost tried': seq<Attempt>)
      requires AtDecision(mission, attempts0, log, tried) && calls != []
      modifies this, mission
      ensures armAuthorized == old(armAuthorized) && Polled(signal, old(polls), polls, stop == Preempted)
      ensures AtEnd(mission, attempts0, log + [Batch(calls, done, stop)], tried', stop)
      ensures stop == NextDecision ==> AtDecision(mission, attempts0, log + [Batch(calls, done, stop)], tried')
    {
      ghost var v0 := ViewOf(mission);
      ghost var tail, more;
      stop, done, tail, more := RunBatch(mission, calls);
      BatchAdded(v0, ViewOf(mission), attempts0, log, tried, calls, done, tail, more, stop, bridgeOffline);
      tried' := tried + more;
    }

    /** The preempt checks before a decision. */
    method Interrupted() returns (hit: bool)
      modifies this`polls
      ensures Polled(signal, old(polls), polls, hit)
    {
      hit := Poll();      // the preempt event is set or a command is waiting
      if !hit {
        hit := Poll();    // the event was raised while the VLM was thinking
      }
    }

    /** What the VLM answered: without tool calls the round ends the mission, otherwise they are run. */
    method Follow(mission: OrchestratorMission, vlm: nat -> VlmAnswer, decisions: nat,
                  ghost attempts0: seq<Attempt>, ghost log: seq<Batch>, ghost tried: seq<Attempt>)
      returns (flow: Flow, ghost log': seq<Batch>, ghost tried': seq<Attempt>)
      requires AtDecision(mission, attempts0, log, tried) && |log| == decisions && Emitted(vlm, log)
      requires vlm(decisions).Answered?
      modifies this, mission
      ensures armAuthorized == old(armAuthorized) && Sensible(flow) && Caused(flow, vlm, log', decisions + 1)
      ensures Polled(signal, old(polls), polls, flow.preempted)
      ensures AtEnd(mission, attempts0, log', tried', flow.why)
      ensures Emitted(vlm, log') && (|log'| == decisions + 1 || (log' == log && vlm(decisions).calls == []))
      ensures flow == GO_ON ==> |log'| == decisions + 1 && AtDecision(mission, attempts0, log', tried')
    {
      var answer := vlm(decisions);
      if answer.calls == [] {
        StopsHere(ViewOf(mission), attempts0, log, tried);
        return Flow(false, false, NextDecision, answer.errorThought), log, tried;
      }
      var why, done;
      why, done, tried' := Decide(mission, answer.calls, attempts0, log, tried);
      EmittedMore(vlm, log, Batch(answer.calls, done, why));
      log' := log + [Batch(answer.calls, done, why)];
      flow := Flow(why == NextDecision, why == Preempted, why, false);
    }

    /** One round of the mission loop: the preempt checks, the VLM's answer, and its batch. */
    method NextRound(mission: OrchestratorMission, maxSteps: int, vlm: nat -> VlmAnswer, decisions: nat,
                     ghost attempts0: seq<Attempt>, ghost log: seq<Batch>, ghost tried: seq<Attempt>)
      returns (flow: Flow, decisions': nat, ghost log': seq<Batch>, ghost tried': seq<Attempt>)
      requires AtDecision(mission, attempts0, log, tried) && |log| == decisions < maxSteps && Emitted(vlm, log)
      modifies this, mission
      ensures armAuthorized == old(armAuthorized) && Sensible(flow) && Caused(flow, vlm, log', decisions')
      ensures Polled(signal, old(polls), polls, flow.preempted)
      ensures AtEnd(mission, attempts0, log', tried', flow.why)
      ensures Budgeted(vlm, log', decisions', maxSteps) && decisions <= decisions'
      ensures flow == GO_ON ==> decisions < decisions' == |log'| && AtDecision(mission, attempts0, log', tried')
    {
      var preempted := Interrupted();
      if preempted || vlm(decisions).Raised? {
        StopsHere(ViewOf(mission), attempts0, log, tried);
        return Flow(false, preempted, NextDecision, !preempted), decisions, log, tried;
      }
      decisions' := decisions + 1;
      flow, log', tried' := Follow(mission, vlm, decisions, attempts0, log, tried);
    }

    /** The mission loop: at most `maxSteps` decisions.  `vlm(i)` is whatever the VLM answers the i-th time. */
    method RunMission(maxSteps: int, vlm: nat -> VlmAnswer)
      returns (mission: OrchestratorMission, end: End, decisions: nat, ghost stop: Stop, ghost log: seq<Batch>,
        ghost tried: seq<Attempt>)
      requires req != MustReceive && !bridgeOffline && Faithful()
      modifies this
      ensures armAuthorized == old(armAuthorized) && Polled(signal, old(polls), polls, end == WasPreempted)
      ensures AtEnd(mission, old(attempts), log, tried, stop)
      ensures Budgeted(vlm, log, decisions, maxSteps)
      ensures Reported(end, stop, decisions, maxSteps, bridgeOffline, vlm, log)
    {
      mission := new OrchestratorMission();
      decisions, log, tried := 0, [], [];
      Starts(attempts, armAuthorized);
      StopsHere(ViewOf(mission), old(attempts), log, tried);
      var flow := GO_ON;
      while flow.goOn && decisions < maxSteps
        invariant fresh(mission) && armAuthorized == old(armAuthorized) && Sensible(flow)
        invariant AtEnd(mission, old(attempts), log, tried, flow.why)
        invariant Budgeted(vlm, log, decisions, maxSteps) && Caused(flow, vlm, log, decisions)
        invariant Polled(signal, old(polls), polls, flow.preempted)
        invariant flow.goOn ==> |log| == decisions && AtDecision(mission, old(attempts), log, tried)
        decreases flow.goOn, maxSteps - decisions
      {
        flow, decisions, log, tried := NextRound(mission, maxSteps, vlm, decisions, old(attempts), log, tried);
      }
      stop := flow.why;
      EndIsReported(flow, decisions, maxSteps, bridgeOffline, vlm, log);
      end := EndReason(flow.preempted, flow.why, bridgeOffline, flow.vlmError, decisions, maxSteps);
    }

    /**
     A whole voice command, for whatever the VLM answers, the bridge replies and other threads do.  An abort is
     dispatched at once, and that dispatch is never refused by a stale offline flag.  A mission's history is the
     concatenation of all batches the VLM emitted; each splits into an executed prefix and a skipped suffix;
     every executed entry is a real attempt; nothing is executed after a terminal tool or a dead bridge; and the
     mission is stuck exactly when an executed failure repeats one of the three entries before it.
    */
    method OnCommand(text: string, isAbort: bool, saysAbort: bool, maxSteps: int, vlm: nat -> VlmAnswer)
      returns (mission: OrchestratorMission?, end: End, ghost decisions: nat, ghost stop: Stop, ghost log: seq<Batch>,
        ghost tried: seq<Attempt>)
      requires req != MustReceive && Faithful()
      modifies this
      ensures req != MustReceive && armAuthorized == Spoken.Says(text, "arm") && Faithful()
      ensures attempts == old(attempts) + tried
      ensures OnlyLastDead(tried, bridgeOffline)
      ensures Polled(signal, old(polls), polls, end == WasPreempted)
      ensures mission == null <==> isAbort || saysAbort
      ensures mission == null ==> end == Aborted && |tried| == 1 && tried[0].call == Call("abort", map[])
      ensures forall k :: 0 <= k < |tried| && tried[k].call.name == "arm" ==>
        "voice_confirmed" in tried[k].call.args &&
          tried[k].call.args["voice_confirmed"] == Boolean(Spoken.Says(text, "arm"))
      ensures mission != null ==>
        && |mission.stepHistory| == |mission.ran|
        && var executed := Executed(mission.stepHistory, mission.ran);
           && |executed| == |tried|
           && forall k :: 0 <= k < |tried| ==>
                && Carries(tried[k].call, CallOf(executed[k]), armAuthorized)
                && Explains(tried[k].outcome, executed[k].ok, executed[k].error)
      ensures mission != null ==>
        && AtEnd(mission, old(attempts), log, tried, stop)
        && Budgeted(vlm, log, decisions, maxSteps)
        && Reported(end, stop, decisions, maxSteps, bridgeOffline, vlm, log)
    {
      bridgeOffline := false;
      armAuthorized := Spoken.Says(text, "arm");
      decisions, stop, log := 0, NextDecision, [];
      if isAbort || saysAbort {
        var _ := DispatchToolCall(Call("abort", map[]));
        tried := [attempts[|attempts| - 1]];
        mission, end := null, Aborted;
      } else {
        mission, end, decisions, stop, log, tried := RunMission(maxSteps, vlm);
        AttemptsCarry(Executed(mission.stepHistory, mission.ran), tried, armAuthorized);
      }
    }
  }
}
