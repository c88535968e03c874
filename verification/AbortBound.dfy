/**
 How many tool calls may still be sent once an abort is ready, that is, once the command thread has drained
 the queue, put the abort and set the preempt event (python/services/orchestrator/main.py).  One, as long as
 no further abort is received before this one has been sent.
*/
module AbortBound {
  import opened Messages
  import opened CommandThreads

  ghost predicate AbortSent(trace: seq<Event>, cmd: Command) {
    exists i :: 0 <= i < |trace| && trace[i] == SentAbort(cmd)
  }

  /** An abort that is ready but not yet sent, with the tool calls sent since it became ready. */
  datatype Pending = Nothing | Pending(cmd: Command, sent: nat)

  /** A further abort received ends the count: from then on the queue may be empty again. */
  function Recount(p: Pending, e: Event, alreadySent: bool): Pending {
    if e.AbortReady? then (if alreadySent then Nothing else Pending(e.cmd, 0))
    else if e.Received? && e.cmd.isAbort then Nothing
    else if e.SentAbort? && p.Pending? && p.cmd == e.cmd then Nothing
    else if e.SentTool? && p.Pending? then Pending(p.cmd, p.sent + 1)
    else p
  }

  ghost function PendingAbort(trace: seq<Event>): Pending {
    if trace == [] then Nothing
    else
      var before := trace[..|trace| - 1];
      var e := trace[|trace| - 1];
      Recount(PendingAbort(before), e, AbortSent(before, e.cmd))
  }

  lemma PendingMore(trace: seq<Event>, e: Event)
    ensures PendingAbort(trace + [e]) == Recount(PendingAbort(trace), e, AbortSent(trace, e.cmd))
  {
    assert (trace + [e])[..|trace|] == trace;
  }

  lemma SentMore(trace: seq<Event>, e: Event, cmd: Command)
    ensures AbortSent(trace + [e], cmd) <==> AbortSent(trace, cmd) || e == SentAbort(cmd)
  {
    assert forall i :: 0 <= i < |trace| ==> (trace + [e])[i] == trace[i];
    assert (trace + [e])[|trace|] == e;
  }

  /** The main thread is about to send the abort `cmd`. */
  ghost predicate Handling(mt: MainThread, cmd: Command) {
    (mt.ClearingOffline? || mt.ClearingPreempt? || mt.SendingAbort?) && mt.cmd == cmd
  }

  /** Past the queue check of the mission loop: only the event can still stop a tool call. */
  ghost predicate PastQueueCheck(mt: MainThread) { mt.Thinking? || mt.InBatch? || mt.Sending? }

  /** The abort waits at the head of the queue, and the mission under way, if any, cannot get past its next check. */
  ghost predicate Waiting(s: State, cmd: Command, sent: nat) {
    && s.queue != [] && s.queue[0] == cmd
    && (PastQueueCheck(s.mt) ==> s.preempt)
    && (sent == 0 || (sent == 1 && (s.mt.Getting? || ((s.mt.InBatch? || s.mt.CheckingPreempt?) && s.preempt))))
  }

  ghost predicate BoundSound(s: State) { BoundFor(PendingAbort(s.trace), s) }

  ghost predicate BoundFor(p: Pending, s: State) {
    p.Pending? ==>
      && p.cmd.isAbort && !InAbort(s.ct)
      && (Waiting(s, p.cmd, p.sent) || (Handling(s.mt, p.cmd) && p.sent <= 1))
  }

  /** An abort taken while its own drain/put/set is still under way is being handled or has been sent. */
  ghost predicate EarlySound(s: State) {
    && (!s.mt.Getting? && s.mt.cmd.isAbort ==> Handling(s.mt, s.mt.cmd))
    && (s.ct.SettingPreempt? && s.queue == [] ==> Handling(s.mt, s.ct.cmd) || AbortSent(s.trace, s.ct.cmd))
  }

  lemma EarlySoundKept(s: State, step: Step)
    requires Sound(s) && EarlySound(s) && Enabled(s, step)
    ensures EarlySound(Next(s, step))
  {
    StepLogs(s, step);
    if Logged(s, step).Some? && s.ct.SettingPreempt? {
      SentMore(s.trace, Logged(s, step).value, s.ct.cmd);
    }
  }

  /** The pending abort after a step, if `sent` says whether the event's own abort has been sent before. */
  ghost function Recounted(p: Pending, s: State, step: Step, sent: bool): Pending
    requires Enabled(s, step)
  {
    if Logged(s, step).Some? then Recount(p, Logged(s, step).value, sent) else p
  }

  lemma BoundKeptByMain(p: Pending, s: State, step: Step, sent: bool)
    requires BoundFor(p, s) && Enabled(s, step) && !OfCommandThread(step)
    ensures BoundFor(Recounted(p, s, step, sent), Next(s, step))
  {
  }

  lemma BoundKeptByCommand(p: Pending, s: State, step: Step, sent: bool)
    requires BoundFor(p, s) && Enabled(s, step) && OfCommandThread(step)
    requires step.SetPreempt? ==>
      s.ct.cmd.isAbort && ((s.queue != [] && s.queue[0] == s.ct.cmd) || Handling(s.mt, s.ct.cmd) || sent)
    ensures BoundFor(Recounted(p, s, step, sent), Next(s, step))
  {
  }

  lemma BoundSoundKept(s: State, step: Step)
    requires Sound(s) && EarlySound(s) && BoundSound(s) && Enabled(s, step)
    ensures BoundSound(Next(s, step))
  {
    StepLogs(s, step);
    var sent := Logged(s, step).Some? && AbortSent(s.trace, Logged(s, step).value.cmd);
    if Logged(s, step).Some? {
      PendingMore(s.trace, Logged(s, step).value);
    }
    if OfCommandThread(step) {
      BoundKeptByCommand(PendingAbort(s.trace), s, step, sent);
    } else {
      BoundKeptByMain(PendingAbort(s.trace), s, step, sent);
    }
  }

  lemma {:induction false} BoundReachable(steps: seq<Step>)
    requires After(steps).Some?
    ensures EarlySound(After(steps).value) && BoundSound(After(steps).value)
  {
    if steps != [] {
      var s := After(steps[..|steps| - 1]).value;
      var step := steps[|steps| - 1];
      BoundReachable(steps[..|steps| - 1]);
      SoundReachable(steps[..|steps| - 1]);
      EarlySoundKept(s, step);
      BoundSoundKept(s, step);
    }
  }

  // ---------------------------------------------------------------- the bound

  ghost function ToolsSent(trace: seq<Event>): nat {
    if trace == [] then 0
    else ToolsSent(trace[..|trace| - 1]) + (if trace[|trace| - 1].SentTool? then 1 else 0)
  }

  ghost predicate AbortReceived(events: seq<Event>) {
    exists i :: 0 <= i < |events| && events[i].Received? && events[i].cmd.isAbort
  }

  /** Along a run, while no further abort is received, the count is that of the tool calls sent since. */
  lemma {:induction false} PendingCounts(steps: seq<Step>, i: nat)
    requires After(steps).Some?
    requires i < |After(steps).value.trace| && After(steps).value.trace[i].AbortReady?
    requires !AbortSent(After(steps).value.trace, After(steps).value.trace[i].cmd)
    requires !AbortReceived(After(steps).value.trace[i + 1..])
    ensures var trace := After(steps).value.trace;
      PendingAbort(trace) == Pending(trace[i].cmd, ToolsSent(trace[i + 1..]))
  {
    var before := After(steps[..|steps| - 1]).value;
    var trace := After(steps).value.trace;
    StepLogs(before, steps[|steps| - 1]);
    if Logged(before, steps[|steps| - 1]) == None {
      PendingCounts(steps[..|steps| - 1], i);
    } else {
      var e := Logged(before, steps[|steps| - 1]).value;
      PendingMore(before.trace, e);
      SentMore(before.trace, e, trace[i].cmd);
      if i < |before.trace| {
        StillNoneReceived(before.trace, e, i);
        PendingCounts(steps[..|steps| - 1], i);
        BoundReachable(steps[..|steps| - 1]);
        assert e.AbortReady? ==> InAbort(before.ct);
      }
    }
  }

  lemma StillNoneReceived(trace: seq<Event>, e: Event, i: nat)
    requires i < |trace| && !AbortReceived((trace + [e])[i + 1..])
    ensures !AbortReceived(trace[i + 1..]) && !(e.Received? && e.cmd.isAbort)
    ensures ToolsSent((trace + [e])[i + 1..]) == ToolsSent(trace[i + 1..]) + (if e.SentTool? then 1 else 0)
  {
    var since := (trace + [e])[i + 1..];
    assert since == trace[i + 1..] + [e];
    assert since[..|since| - 1] == trace[i + 1..];
    assert since[|since| - 1] == e;
    assert forall k :: 0 <= k < |trace[i + 1..]| ==> since[k] == trace[i + 1..][k];
  }

  /**
   In every interleaving: once an abort is ready, and until its own abort call is sent, it heads the queue or is
   being handled, and the main thread sends at most one more tool call, provided no further abort is received
   meanwhile.  It holds also when the main thread wipes the signal, because the queue check at the head of the
   mission loop then stops it.
  */
  lemma AtMostOneMoreToolCall(steps: seq<Step>, i: nat)
    requires After(steps).Some?
    requires i < |After(steps).value.trace| && After(steps).value.trace[i].AbortReady?
    requires !AbortSent(After(steps).value.trace, After(steps).value.trace[i].cmd)
    requires !AbortReceived(After(steps).value.trace[i + 1..])
    ensures ToolsSent(After(steps).value.trace[i + 1..]) <= 1
    ensures var s := After(steps).value;
      (s.queue != [] && s.queue[0] == s.trace[i].cmd) || Handling(s.mt, s.trace[i].cmd)
  {
    PendingCounts(steps, i);
    BoundReachable(steps);
  }
}
