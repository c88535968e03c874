/**
 The heartbeat watchdog thread of the flight bridge (src/flight_bridge/main.cpp), against a declarative
 reading of a tick trace: one action per outage at most, and exactly when the first overdue tick finds the
 vehicle armed by voice.
*/
module Watchdog {
  import opened Messages

  /**
   One round of the loop: whether the autopilot was connected, the clock as read when a fresh outage is
   time-stamped, the clock as read for its age, and the latch as loaded afterwards.
  */
  datatype Tick = Tick(connected: bool, stamp: real, now: real, armedWithVoice: bool)

  /** The tick at which the outage that tick `i` belongs to began. */
  ghost function OutageStart(ticks: seq<Tick>, i: nat): (s: nat)
    requires i < |ticks| && !ticks[i].connected
    ensures s <= i && (forall j :: s <= j <= i ==> !ticks[j].connected)
    ensures s > 0 ==> ticks[s - 1].connected
  {
    if i > 0 && !ticks[i - 1].connected then OutageStart(ticks, i - 1) else i
  }

  ghost function Age(ticks: seq<Tick>, i: nat): real
    requires i < |ticks| && !ticks[i].connected
  {
    ticks[i].now - ticks[OutageStart(ticks, i)].stamp
  }

  /** Tick `i` is the first of its outage whose age has reached the threshold. */
  ghost predicate FirstOverdue(ticks: seq<Tick>, threshold: real, i: nat) {
    && i < |ticks| && !ticks[i].connected
    && Age(ticks, i) >= threshold
    && forall j :: OutageStart(ticks, i) <= j < i ==> ticks[j].now - ticks[OutageStart(ticks, i)].stamp < threshold
  }

  ghost predicate ShouldAct(ticks: seq<Tick>, threshold: real, i: nat) {
    FirstOverdue(ticks, threshold, i) && ticks[i].armedWithVoice
  }

  lemma {:induction false} SameOutage(ticks: seq<Tick>, i: nat, j: nat)
    requires i <= j < |ticks| && forall k :: i <= k <= j ==> !ticks[k].connected
    ensures OutageStart(ticks, i) == OutageStart(ticks, j)
    decreases j - i
  {
    if i < j {
      SameOutage(ticks, i, j - 1);
    }
  }

  lemma {:induction false} StartOfPrefix(ticks: seq<Tick>, n: nat, i: nat)
    requires i < n <= |ticks| && !ticks[i].connected
    ensures OutageStart(ticks[..n], i) == OutageStart(ticks, i)
  {
    if i > 0 && !ticks[i - 1].connected {
      StartOfPrefix(ticks, n, i - 1);
    }
  }

  /** The outage the loop is in after `n` ticks has an overdue tick. */
  ghost predicate Overdue(ticks: seq<Tick>, threshold: real, n: nat) {
    && 0 < n <= |ticks| && !ticks[n - 1].connected
    && exists j ::
         OutageStart(ticks, n - 1) <= j < n && ticks[j].now - ticks[OutageStart(ticks, n - 1)].stamp >= threshold
  }

  /** The loop acts at exactly the ticks the trace says it should, for any threshold and any trace. */
  method Watch(ticks: seq<Tick>, threshold: real) returns (actions: seq<nat>)
    ensures forall i :: 0 <= i < |actions| ==> ShouldAct(ticks, threshold, actions[i])
    ensures forall i :: 0 <= i < |ticks| && ShouldAct(ticks, threshold, i) ==> i in actions
    ensures forall i, j :: 0 <= i < j < |actions| ==> actions[i] < actions[j]
  {
    actions := [];
    var disconnectAt: Option<real> := None;
    var actionFired := false;
    var n := 0;
    while n < |ticks|
      invariant 0 <= n <= |ticks|
      invariant disconnectAt.Some? <==> n > 0 && !ticks[n - 1].connected
      invariant disconnectAt.Some? ==> disconnectAt.value == ticks[OutageStart(ticks, n - 1)].stamp
      invariant actionFired <==> Overdue(ticks, threshold, n)
      invariant forall i :: 0 <= i < |actions| ==> actions[i] < n && ShouldAct(ticks, threshold, actions[i])
      invariant forall i :: 0 <= i < n && ShouldAct(ticks, threshold, i) ==> i in actions
      invariant forall i, j :: 0 <= i < j < |actions| ==> actions[i] < actions[j]
    {
      var tick := ticks[n];
      n := n + 1;
      if tick.connected {
        disconnectAt := None;
        actionFired := false;
        continue;
      }
      if disconnectAt == None {
        disconnectAt := Some(tick.stamp);
      }
      var age := tick.now - disconnectAt.value;
      assert OutageStart(ticks, n - 1) < n - 1 ==> OutageStart(ticks, n - 1) == OutageStart(ticks, n - 2);
      if age < threshold || actionFired {
        continue;
      }
      if !tick.armedWithVoice {
        actionFired := true;
        continue;
      }
      actions := actions + [n - 1];
      actionFired := true;
    }
  }

  /** At most one action per outage. */
  lemma OneActionPerOutage(ticks: seq<Tick>, threshold: real, i: nat, j: nat)
    requires ShouldAct(ticks, threshold, i) && ShouldAct(ticks, threshold, j)
    requires OutageStart(ticks, i) == OutageStart(ticks, j)
    ensures i == j
  {
  }

  /**
   The verdict for a whole outage falls at its first overdue tick `f`: it acts there exactly when that tick
   sees the latch set, and at no other tick of the outage, whatever the latch does later.
  */
  lemma OutageVerdict(ticks: seq<Tick>, threshold: real, f: nat, i: nat)
    requires FirstOverdue(ticks, threshold, f)
    requires i < |ticks| && !ticks[i].connected && OutageStart(ticks, i) == OutageStart(ticks, f)
    ensures ShouldAct(ticks, threshold, i) <==> i == f && ticks[f].armedWithVoice
  {
    if i < f {
      assert ticks[i].now - ticks[OutageStart(ticks, f)].stamp < threshold;
    }
  }

  /** An outage with an overdue tick has a first one. */
  lemma {:induction false} FirstOverdueExists(ticks: seq<Tick>, threshold: real, i: nat) returns (f: nat)
    requires i < |ticks| && !ticks[i].connected && Age(ticks, i) >= threshold
    ensures f <= i && FirstOverdue(ticks, threshold, f) && OutageStart(ticks, f) == OutageStart(ticks, i)
  {
    var s := OutageStart(ticks, i);
    f := s;
    while ticks[f].now - ticks[s].stamp < threshold
      invariant s <= f <= i
      invariant forall j :: s <= j < f ==> ticks[j].now - ticks[s].stamp < threshold
      decreases i - f
    {
      f := f + 1;
    }
    SameOutage(ticks, f, i);
  }

  /** Consecutive clock reads of the loop are at most `d` apart. */
  ghost predicate TicksWithin(ticks: seq<Tick>, d: real) {
    && (forall i :: 0 <= i < |ticks| ==> ticks[i].now - ticks[i].stamp <= d)
    && (forall i :: 0 < i < |ticks| ==> ticks[i].now - ticks[i - 1].now <= d)
  }

  /** With a positive threshold T and ticks at most D apart, an action comes at an age in [T, T + D). */
  lemma ActionIsTimely(ticks: seq<Tick>, threshold: real, d: real, i: nat)
    requires threshold > 0.0 && TicksWithin(ticks, d)
    requires ShouldAct(ticks, threshold, i)
    ensures threshold <= Age(ticks, i) < threshold + d
  {
    var s := OutageStart(ticks, i);
    if s < i {
      assert ticks[i - 1].now - ticks[s].stamp < threshold;
    }
  }
}
