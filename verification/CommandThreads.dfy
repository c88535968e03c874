/**
 The orchestrator's command thread and main thread (python/services/orchestrator/main.py) around the bounded
 command queue and the preempt event.  Each queue operation, each event operation and each dispatch is one
 step; the two threads interleave freely.  A mission is reduced to what concerns the queue and the event: the
 VLM may return any number of tool calls, a batch or a mission may end at any point, and every check reads
 the shared state when it is made.  Shutdown is not modelled.
*/
module CommandThreads {
  import opened Messages

  const QUEUE_SIZE := 16

  /** `id` is the arrival order; `isAbort` the flag on the wire; `saysAbort` whether the text matches the keyword. */
  datatype Command = Command(id: nat, isAbort: bool, saysAbort: bool)

  datatype CommandThread =
    | Receiving
    | Draining(cmd: Command)
    | PuttingAbort(cmd: Command)
    | SettingPreempt(cmd: Command)
    | Putting(cmd: Command)

  datatype MainThread =
    | Getting
    | ClearingOffline(cmd: Command)
    | ClearingPreempt(cmd: Command)
    | SendingAbort(cmd: Command)
    | CheckingPreempt(cmd: Command)           // head of the mission loop, first operand
    | CheckingQueue(cmd: Command)             // second operand
    | Thinking(cmd: Command)                  // VLM call under way; its end checks the event
    | InBatch(cmd: Command, left: nat)        // before a tool call: the event is checked
    | Sending(cmd: Command, left: nat)        // committed to this tool call

  datatype Event =
    | Received(cmd: Command)
    | Drained(cmd: Command)       // by an abort
    | Refused(cmd: Command)       // the queue was full
    | AbortReady(cmd: Command)    // drain, put and set are complete
    | Took(cmd: Command)
    | WentOn(cmd: Command, signal: bool)   // past the queue check, with the event as it then was
    | SentAbort(cmd: Command)
    | SentTool(cmd: Command)      // a tool call of the VLM
    | Preempted(cmd: Command, bySignal: bool)

  datatype State = State(queue: seq<Command>, preempt: bool, ct: CommandThread, mt: MainThread,
                         arrived: nat, trace: seq<Event>)

  const START := State([], false, Receiving, Getting, 0, [])

  datatype Step =
    | Receive(isAbort: bool, saysAbort: bool)
    | Drain                   // one get_nowait of the drain loop
    | PutAbort
    | SetPreempt
    | PutNormal
    | Get
    | ClearOffline
    | ClearPreempt
    | SendAbort
    | CheckPreempt
    | CheckQueue
    | DecideDone(calls: nat)  // the VLM has answered, or the wait was broken off
    | CheckBatch
    | SendTool
    | EndBatch                // failure, offline, terminal tool or last call: next decision
    | EndMission              // budget used up, terminal tool, failure, offline, no calls

  predicate Enabled(s: State, step: Step) {
    match step
    case Receive(_, _) => s.ct.Receiving?
    case Drain => s.ct.Draining?
    case PutAbort => s.ct.PuttingAbort?
    case SetPreempt => s.ct.SettingPreempt?
    case PutNormal => s.ct.Putting?
    case Get => s.mt.Getting? && s.queue != []
    case ClearOffline => s.mt.ClearingOffline?
    case ClearPreempt => s.mt.ClearingPreempt?
    case SendAbort => s.mt.SendingAbort?
    case CheckPreempt => s.mt.CheckingPreempt?
    case CheckQueue => s.mt.CheckingQueue?
    case DecideDone(_) => s.mt.Thinking?
    case CheckBatch => s.mt.InBatch? && s.mt.left > 0
    case SendTool => s.mt.Sending?
    case EndBatch => s.mt.InBatch?
    case EndMission => s.mt.InBatch? || s.mt.CheckingPreempt? || (s.mt.Thinking? && !s.preempt)
  }

  function Log(s: State, e: Event): State { s.(trace := s.trace + [e]) }

  function Preempt(s: State, bySignal: bool): State
    requires !s.mt.Getting?
  {
    Log(s.(mt := Getting), Preempted(s.mt.cmd, bySignal))
  }

  function Next(s: State, step: Step): State
    requires Enabled(s, step)
  {
    match step
    case Receive(isAbort, saysAbort) =>
      var cmd := Command(s.arrived, isAbort, saysAbort);
      Log(s.(arrived := s.arrived + 1, ct := if isAbort then Draining(cmd) else Putting(cmd)), Received(cmd))
    case Drain =>
      if s.queue == [] then s.(ct := PuttingAbort(s.ct.cmd))
      else Log(s.(queue := s.queue[1..]), Drained(s.queue[0]))
    case PutAbort =>
      if |s.queue| < QUEUE_SIZE then s.(queue := s.queue + [s.ct.cmd], ct := SettingPreempt(s.ct.cmd))
      else Log(s.(ct := Receiving), Refused(s.ct.cmd))   // queue.Full, caught by the thread's handler
    case SetPreempt => Log(s.(preempt := true, ct := Receiving), AbortReady(s.ct.cmd))
    case PutNormal =>
      if |s.queue| < QUEUE_SIZE then s.(queue := s.queue + [s.ct.cmd], ct := Receiving)
      else Log(s.(ct := Receiving), Refused(s.ct.cmd))
    case Get => Log(s.(queue := s.queue[1..], mt := ClearingOffline(s.queue[0])), Took(s.queue[0]))
    case ClearOffline => s.(mt := ClearingPreempt(s.mt.cmd))
    case ClearPreempt =>
      s.(preempt := false,
         mt := if s.mt.cmd.isAbort || s.mt.cmd.saysAbort then SendingAbort(s.mt.cmd) else CheckingPreempt(s.mt.cmd))
    case SendAbort => Log(s.(mt := Getting), SentAbort(s.mt.cmd))
    case CheckPreempt => if s.preempt then Preempt(s, true) else s.(mt := CheckingQueue(s.mt.cmd))
    case CheckQueue => if s.queue != [] then Preempt(s, false)
      else Log(s.(mt := Thinking(s.mt.cmd)), WentOn(s.mt.cmd, s.preempt))
    case DecideDone(calls) =>
      if s.preempt then Preempt(s, true) else s.(mt := if calls == 0 then Getting else InBatch(s.mt.cmd, calls))
    case CheckBatch => if s.preempt then Preempt(s, true) else s.(mt := Sending(s.mt.cmd, s.mt.left - 1))
    case SendTool => Log(s.(mt := InBatch(s.mt.cmd, s.mt.left)), SentTool(s.mt.cmd))
    case EndBatch => s.(mt := CheckingPreempt(s.mt.cmd))
    case EndMission => s.(mt := Getting)
  }

  /** The state after a list of steps, or None when one of them was not possible. */
  function After(steps: seq<Step>): Option<State> {
    if steps == [] then Some(START)
    else
      var n := |steps| - 1;
      match After(steps[..n])
      case None => None
      case Some(s) => if Enabled(s, steps[n]) then Some(Next(s, steps[n])) else None
  }

  lemma AfterMore(steps: seq<Step>, step: Step)
    requires After(steps).Some? && Enabled(After(steps).value, step)
    ensures After(steps + [step]) == Some(Next(After(steps).value, step))
  {
    assert (steps + [step])[..|steps|] == steps;
  }

  /** The last step of a continuation. */
  lemma LastOfMore(steps: seq<Step>, more: seq<Step>)
    requires more != [] && After(steps + more).Some?
    ensures var before := After(steps + more[..|more| - 1]);
      && before.Some? && Enabled(before.value, more[|more| - 1])
      && After(steps + more) == Some(Next(before.value, more[|more| - 1]))
  {
    assert (steps + more)[..|steps + more| - 1] == steps + more[..|more| - 1];
    assert (steps + more)[|steps + more| - 1] == more[|more| - 1];
  }

  // ---------------------------------------------------------------- reading the trace

  datatype Kind = Arrived | Taken | MadeReady | Neither

  function KindOf(e: Event): Kind {
    match e
    case Received(_) => Arrived
    case Took(_) => Taken
    case AbortReady(_) => MadeReady
    case _ => Neither
  }

  /** The identity in the last event of a kind, or -1. */
  ghost function Last(trace: seq<Event>, kind: Kind): (id: int)
    ensures id >= 0 ==> exists j :: 0 <= j < |trace| && KindOf(trace[j]) == kind && trace[j].cmd.id == id
  {
    if trace == [] then -1
    else
      var n := |trace| - 1;
      if KindOf(trace[n]) == kind then trace[n].cmd.id
      else
        var id := Last(trace[..n], kind);
        assert id >= 0 ==> exists j :: 0 <= j < n && KindOf(trace[..n][j]) == kind && trace[..n][j].cmd.id == id;
        id
  }

  lemma LastMore(trace: seq<Event>, e: Event, kind: Kind)
    ensures Last(trace + [e], kind) == if KindOf(e) == kind then e.cmd.id else Last(trace, kind)
  {
    assert (trace + [e])[..|trace|] == trace;
  }

  /** What a step records, if anything. */
  function Logged(s: State, step: Step): Option<Event>
    requires Enabled(s, step)
  {
    var t := Next(s, step);
    if |t.trace| > |s.trace| then Some(t.trace[|s.trace|]) else None
  }

  lemma StepLogs(s: State, step: Step)
    requires Enabled(s, step)
    ensures Next(s, step).trace == if Logged(s, step).Some? then s.trace + [Logged(s, step).value] else s.trace
  {
  }

  lemma StepLasts(s: State, step: Step)
    requires Enabled(s, step)
    ensures Last(Next(s, step).trace, Arrived) == if step.Receive? then s.arrived else Last(s.trace, Arrived)
    ensures Last(Next(s, step).trace, Taken) == if step.Get? then s.queue[0].id else Last(s.trace, Taken)
    ensures Last(Next(s, step).trace, MadeReady) == if step.SetPreempt? then s.ct.cmd.id else Last(s.trace, MadeReady)
  {
    StepLogs(s, step);
    if Logged(s, step).Some? {
      LastMore(s.trace, Logged(s, step).value, Arrived);
      LastMore(s.trace, Logged(s, step).value, Taken);
      LastMore(s.trace, Logged(s, step).value, MadeReady);
    }
  }

  // ---------------------------------------------------------------- the queue

  ghost predicate InAbort(ct: CommandThread) { ct.Draining? || ct.PuttingAbort? || ct.SettingPreempt? }

  /** Identities in a list of commands are strictly increasing and lie in [low, high). */
  ghost predicate Ordered(q: seq<Command>, low: int, high: int) {
    && (forall i :: 0 <= i < |q| ==> low <= q[i].id < high)
    && (forall i, j :: 0 <= i < j < |q| ==> q[i].id < q[j].id)
  }

  ghost predicate ThreadsSound(s: State) {
    ThreadsFit(s, Last(s.trace, Arrived), Last(s.trace, Taken), Last(s.trace, MadeReady))
  }

  /** The threads against the last command that arrived, was taken, and was made ready. */
  ghost predicate ThreadsFit(s: State, arrived: int, taken: int, ready: int) {
    && arrived == s.arrived - 1 && taken < s.arrived && ready < s.arrived
    && (!s.mt.Getting? ==> s.mt.cmd.id == taken)
    && (!s.ct.Receiving? ==> s.ct.cmd.id == s.arrived - 1)
    && (InAbort(s.ct) <==> !s.ct.Receiving? && s.ct.cmd.isAbort)
    && (s.ct.Draining? || s.ct.Putting? || s.ct.PuttingAbort? ==> taken < s.ct.cmd.id)
  }

  ghost predicate QueueSound(s: State) { QueueFits(s, Last(s.trace, Taken)) }

  ghost predicate QueueFits(s: State, taken: int) {
    && |s.queue| <= 16
    && (forall i :: 0 < i < |s.queue| ==> !s.queue[i].isAbort)
    && Ordered(s.queue, taken + 1, if s.ct.Receiving? || s.ct.SettingPreempt? then s.arrived else s.arrived - 1)
    && (s.ct.PuttingAbort? ==> s.queue == [])
    && (s.ct.SettingPreempt? ==> s.queue == [s.ct.cmd] || (s.queue == [] && s.ct.cmd.id == taken))
    && (s.ct.SettingPreempt? && s.queue == [] && !s.mt.Getting? ==> s.mt.cmd == s.ct.cmd)
  }

  ghost predicate InMission(mt: MainThread) {
    mt.CheckingPreempt? || mt.CheckingQueue? || mt.Thinking? || mt.InBatch? || mt.Sending?
  }

  /** A signal seen inside a mission was set by an abort that arrived after the mission's command. */
  ghost predicate SignalSound(s: State) { SignalFits(s, Last(s.trace, MadeReady)) }

  ghost predicate SignalFits(s: State, ready: int) {
    && (InMission(s.mt) ==> !s.mt.cmd.isAbort)
    && (InMission(s.mt) && s.preempt ==> ready > s.mt.cmd.id)
  }

  ghost predicate OfCommandThread(step: Step) {
    step.Receive? || step.Drain? || step.PutAbort? || step.SetPreempt? || step.PutNormal?
  }

  /** The last command taken, and the last made ready, after a step. */
  ghost function TakenAfter(s: State, step: Step, taken: int): int
    requires Enabled(s, step)
  {
    if step.Get? then s.queue[0].id else taken
  }

  ghost function ReadyAfter(s: State, step: Step, ready: int): int
    requires Enabled(s, step)
  {
    if step.SetPreempt? then s.ct.cmd.id else ready
  }

  lemma ThreadsFitKept(s: State, step: Step, arrived: int, taken: int, ready: int)
    requires ThreadsFit(s, arrived, taken, ready) && QueueFits(s, taken) && Enabled(s, step)
    ensures ThreadsFit(Next(s, step), if step.Receive? then s.arrived else arrived, TakenAfter(s, step, taken),
        ReadyAfter(s, step, ready))
  {
  }

  lemma ThreadsSoundKept(s: State, step: Step)
    requires ThreadsSound(s) && QueueSound(s) && Enabled(s, step)
    ensures ThreadsSound(Next(s, step))
  {
    StepLasts(s, step);
    ThreadsFitKept(s, step, Last(s.trace, Arrived), Last(s.trace, Taken), Last(s.trace, MadeReady));
  }

  lemma QueueFitsGet(s: State, arrived: int, taken: int, ready: int)
    requires ThreadsFit(s, arrived, taken, ready) && QueueFits(s, taken) && Enabled(s, Get)
    ensures QueueFits(Next(s, Get), s.queue[0].id)
  {
    assert forall i :: 0 <= i < |s.queue| - 1 ==> s.queue[1..][i] == s.queue[i + 1];
  }

  lemma QueueFitsDrain(s: State, arrived: int, taken: int, ready: int)
    requires ThreadsFit(s, arrived, taken, ready) && QueueFits(s, taken) && Enabled(s, Drain)
    ensures QueueFits(Next(s, Drain), taken)
  {
    if s.queue != [] {
      assert forall i :: 0 <= i < |s.queue| - 1 ==> s.queue[1..][i] == s.queue[i + 1];
    }
  }

  lemma OrderedMore(q: seq<Command>, c: Command, low: int)
    requires Ordered(q, low, c.id) && low <= c.id
    ensures Ordered(q + [c], low, c.id + 1)
  {
    assert forall i :: 0 <= i < |q| ==> (q + [c])[i] == q[i];
  }

  lemma QueueFitsPutAbort(s: State, arrived: int, taken: int, ready: int)
    requires ThreadsFit(s, arrived, taken, ready) && QueueFits(s, taken) && Enabled(s, PutAbort)
    ensures QueueFits(Next(s, PutAbort), taken)
  {
    var t := Next(s, PutAbort);
    assert t.queue == [s.ct.cmd];
    assert Ordered(t.queue, taken + 1, t.arrived);
  }

  lemma QueueFitsPutNormal(s: State, arrived: int, taken: int, ready: int)
    requires ThreadsFit(s, arrived, taken, ready) && QueueFits(s, taken) && Enabled(s, PutNormal)
    ensures QueueFits(Next(s, PutNormal), taken)
  {
    if |s.queue| < QUEUE_SIZE {
      var t := Next(s, PutNormal);
      OrderedMore(s.queue, s.ct.cmd, taken + 1);
      assert forall i :: 0 < i < |s.queue| ==> t.queue[i] == s.queue[i];
    }
  }

  /** The steps that leave the queue alone. */
  lemma QueueFitsRest(s: State, step: Step, arrived: int, taken: int, ready: int)
    requires ThreadsFit(s, arrived, taken, ready) && QueueFits(s, taken) && Enabled(s, step)
    requires !step.Get? && !step.Drain? && !step.PutAbort? && !step.PutNormal?
    ensures QueueFits(Next(s, step), taken)
  {
    assert Next(s, step).queue == s.queue;
  }

  lemma QueueSoundKept(s: State, step: Step)
    requires ThreadsSound(s) && QueueSound(s) && Enabled(s, step)
    ensures QueueSound(Next(s, step))
  {
    var arrived, taken, ready := Last(s.trace, Arrived), Last(s.trace, Taken), Last(s.trace, MadeReady);
    StepLasts(s, step);
    if step.Get? {
      QueueFitsGet(s, arrived, taken, ready);
    } else if step.Drain? {
      QueueFitsDrain(s, arrived, taken, ready);
    } else if step.PutAbort? {
      QueueFitsPutAbort(s, arrived, taken, ready);
    } else if step.PutNormal? {
      QueueFitsPutNormal(s, arrived, taken, ready);
    } else {
      QueueFitsRest(s, step, arrived, taken, ready);
    }
  }

  lemma SignalFitsCommand(s: State, step: Step, arrived: int, taken: int, ready: int)
    requires ThreadsFit(s, arrived, taken, ready) && QueueFits(s, taken) && SignalFits(s, ready)
    requires Enabled(s, step) && OfCommandThread(step)
    ensures SignalFits(Next(s, step), ReadyAfter(s, step, ready))
  {
    if step.SetPreempt? && s.queue != [] {
      assert s.queue[0] == s.ct.cmd;
    }
  }

  lemma SignalFitsMain(s: State, step: Step, arrived: int, taken: int, ready: int)
    requires ThreadsFit(s, arrived, taken, ready) && QueueFits(s, taken) && SignalFits(s, ready)
    requires Enabled(s, step) && !OfCommandThread(step)
    ensures SignalFits(Next(s, step), ready)
  {
  }

  lemma SignalSoundKept(s: State, step: Step)
    requires ThreadsSound(s) && QueueSound(s) && SignalSound(s) && Enabled(s, step)
    ensures SignalSound(Next(s, step))
  {
    StepLasts(s, step);
    if OfCommandThread(step) {
      SignalFitsCommand(s, step, Last(s.trace, Arrived), Last(s.trace, Taken), Last(s.trace, MadeReady));
    } else {
      SignalFitsMain(s, step, Last(s.trace, Arrived), Last(s.trace, Taken), Last(s.trace, MadeReady));
    }
  }

  /** Every preemption so far was caused by a command that had arrived after the preempted one. */
  ghost predicate PreemptionsSound(trace: seq<Event>) {
    forall i :: 0 <= i < |trace| && trace[i].Preempted? ==>
      Last(trace[..i], Arrived) > trace[i].cmd.id &&
      (trace[i].bySignal ==> Last(trace[..i], MadeReady) > trace[i].cmd.id)
  }

  /** Commands are taken in the order they arrived. */
  ghost predicate TakenInOrder(trace: seq<Event>) {
    forall i :: 0 <= i < |trace| && trace[i].Took? ==> Last(trace[..i], Taken) < trace[i].cmd.id
  }

  ghost predicate AbortsNeverRefused(trace: seq<Event>) {
    forall i :: 0 <= i < |trace| && trace[i].Refused? ==> !trace[i].cmd.isAbort
  }

  ghost predicate HistorySound(trace: seq<Event>) {
    PreemptionsSound(trace) && TakenInOrder(trace) && AbortsNeverRefused(trace)
  }

  lemma PreemptIsSound(s: State, step: Step)
    requires ThreadsSound(s) && QueueSound(s) && SignalSound(s) && Enabled(s, step)
    requires Logged(s, step).Some? && Logged(s, step).value.Preempted?
    ensures Last(s.trace, Arrived) > Logged(s, step).value.cmd.id
    ensures Logged(s, step).value.bySignal ==> Last(s.trace, MadeReady) > Logged(s, step).value.cmd.id
  {
    assert InMission(s.mt) && Logged(s, step).value.cmd == s.mt.cmd;
    if step.CheckQueue? {
      assert s.queue[0].id > s.mt.cmd.id;
    } else {
      assert s.preempt;
      assert Last(s.trace, MadeReady) > s.mt.cmd.id;
    }
  }

  lemma TakeIsSound(s: State, step: Step)
    requires ThreadsSound(s) && QueueSound(s) && Enabled(s, step)
    requires Logged(s, step).Some? && Logged(s, step).value.Took?
    ensures Last(s.trace, Taken) < Logged(s, step).value.cmd.id
  {
    assert step.Get?;
  }

  lemma RefuseIsSound(s: State, step: Step)
    requires ThreadsSound(s) && QueueSound(s) && Enabled(s, step)
    requires Logged(s, step).Some? && Logged(s, step).value.Refused?
    ensures !Logged(s, step).value.cmd.isAbort
  {
    assert step.PutNormal? || step.PutAbort?;
  }

  lemma HistorySoundKept(s: State, step: Step)
    requires ThreadsSound(s) && QueueSound(s) && SignalSound(s) && HistorySound(s.trace) && Enabled(s, step)
    ensures HistorySound(Next(s, step).trace)
  {
    StepLogs(s, step);
    var logged := Logged(s, step);
    if logged.Some? {
      if logged.value.Preempted? {
        PreemptIsSound(s, step);
      } else if logged.value.Took? {
        TakeIsSound(s, step);
      } else if logged.value.Refused? {
        RefuseIsSound(s, step);
      }
      HistoryMore(s.trace, logged.value);
    }
  }

  lemma HistoryMore(trace: seq<Event>, e: Event)
    requires HistorySound(trace)
    requires e.Preempted? ==> Last(trace, Arrived) > e.cmd.id && (e.bySignal ==> Last(trace, MadeReady) > e.cmd.id)
    requires e.Took? ==> Last(trace, Taken) < e.cmd.id
    requires e.Refused? ==> !e.cmd.isAbort
    ensures HistorySound(trace + [e])
  {
    var more := trace + [e];
    assert more[..|trace|] == trace;
    assert forall i :: 0 <= i < |trace| ==> more[..i] == trace[..i];
  }

  ghost predicate Sound(s: State) {
    ThreadsSound(s) && QueueSound(s) && SignalSound(s) && HistorySound(s.trace)
  }

  lemma {:induction false} SoundReachable(steps: seq<Step>)
    requires After(steps).Some?
    ensures Sound(After(steps).value)
  {
    if steps != [] {
      SoundReachable(steps[..|steps| - 1]);
      var s := After(steps[..|steps| - 1]).value;
      ThreadsSoundKept(s, steps[|steps| - 1]);
      QueueSoundKept(s, steps[|steps| - 1]);
      SignalSoundKept(s, steps[|steps| - 1]);
      HistorySoundKept(s, steps[|steps| - 1]);
    }
  }

  /**
   The queue, in every interleaving: it stays within its bound; an abort waiting in it is at its head; the
   abort's put finds it empty, so no abort is ever refused.
  */
  lemma QueueSafety(steps: seq<Step>)
    requires After(steps).Some?
    ensures var s := After(steps).value;
      && |s.queue| <= 16
      && (forall i :: 0 <= i < |s.queue| && s.queue[i].isAbort ==> i == 0)
      && (s.ct.PuttingAbort? ==> s.queue == [])
      && (forall i :: 0 <= i < |s.trace| && s.trace[i].Refused? ==> !s.trace[i].cmd.isAbort)
  {
    SoundReachable(steps);
  }

  /** Commands are consumed as a subsequence of their arrival order. */
  lemma TakenAsArrived(steps: seq<Step>, i: nat, j: nat)
    requires After(steps).Some?
    requires i < j < |After(steps).value.trace|
    requires After(steps).value.trace[i].Took? && After(steps).value.trace[j].Took?
    ensures After(steps).value.trace[i].cmd.id < After(steps).value.trace[j].cmd.id
  {
    SoundReachable(steps);
    TakenSince(After(steps).value.trace, i, j);
  }

  lemma {:induction false} TakenSince(trace: seq<Event>, i: nat, j: nat)
    requires TakenInOrder(trace) && i < j <= |trace| && trace[i].Took?
    ensures trace[i].cmd.id <= Last(trace[..j], Taken)
  {
    assert trace[..j] == trace[..j - 1] + [trace[j - 1]];
    LastMore(trace[..j - 1], trace[j - 1], Taken);
    if i < j - 1 {
      TakenSince(trace, i, j - 1);
    }
  }

  /**
   A mission ends as preempted only after a command that arrived later than its own has been received; when
   it was ended by the signal, an abort that arrived later has set it.  A signal set late by an abort that has
   already been handled therefore never cancels a newer command.
  */
  lemma PreemptedByLater(steps: seq<Step>, i: nat)
    requires After(steps).Some?
    requires i < |After(steps).value.trace| && After(steps).value.trace[i].Preempted?
    ensures var trace := After(steps).value.trace;
      && (exists j :: 0 <= j < i && trace[j].Received? && trace[j].cmd.id > trace[i].cmd.id)
      && (trace[i].bySignal ==> exists j :: 0 <= j < i && trace[j].AbortReady? && trace[j].cmd.id > trace[i].cmd.id)
  {
    SoundReachable(steps);
    var trace := After(steps).value.trace;
    assert Last(trace[..i], Arrived) > trace[i].cmd.id;
    var j :| 0 <= j < i && KindOf(trace[..i][j]) == Arrived && trace[..i][j].cmd.id == Last(trace[..i], Arrived);
    assert trace[j].Received?;
    if trace[i].bySignal {
      var k :| 0 <= k < i && KindOf(trace[..i][k]) == MadeReady && trace[..i][k].cmd.id == Last(trace[..i], MadeReady);
      assert trace[k].AbortReady?;
    }
  }
}
