/**
 The orchestrator's telemetry history (python/services/orchestrator/main.py): every sample is appended
 with its receive time and samples older than the window are popped from the left.
*/
module TelemetryRing {

  datatype Sample = Sample(at: real, header: nat)

  /** The samples of a log that are at or after the cutoff, in order. */
  ghost function Recent(log: seq<Sample>, cutoff: real): seq<Sample> {
    if log == [] then []
    else if log[0].at >= cutoff then [log[0]] + Recent(log[1..], cutoff)
    else Recent(log[1..], cutoff)
  }

  ghost predicate NonDecreasing(log: seq<Sample>) {
    forall i, j :: 0 <= i <= j < |log| ==> log[i].at <= log[j].at
  }

  lemma {:induction false} RecentOfFresh(log: seq<Sample>, cutoff: real)
    requires forall i :: 0 <= i < |log| ==> log[i].at >= cutoff
    ensures Recent(log, cutoff) == log
  {
    if log != [] {
      RecentOfFresh(log[1..], cutoff);
    }
  }

  lemma {:induction false} RecentSkipsStale(stale: seq<Sample>, rest: seq<Sample>, cutoff: real)
    requires forall i :: 0 <= i < |stale| ==> stale[i].at < cutoff
    ensures Recent(stale + rest, cutoff) == Recent(rest, cutoff)
  {
    if stale == [] {
      assert stale + rest == rest;
    } else {
      assert (stale + rest)[1..] == stale[1..] + rest;
      RecentSkipsStale(stale[1..], rest, cutoff);
    }
  }

  /** The filter says what it should: in order, exactly the samples inside the window. */
  lemma {:induction false} RecentIsTheWindow(log: seq<Sample>, cutoff: real)
    ensures multiset(Recent(log, cutoff)) <= multiset(log)
    ensures forall x :: x in Recent(log, cutoff) <==> x in log && x.at >= cutoff
  {
    if log != [] {
      assert log == [log[0]] + log[1..];
      RecentIsTheWindow(log[1..], cutoff);
    }
  }

  ghost predicate Stale(popped: seq<Sample>, cutoff: real) {
    forall i :: 0 <= i < |popped| ==> popped[i].at < cutoff
  }

  /** Times never fall, and what has been popped is outside the window of the latest arrival. */
  ghost predicate InOrder(popped: seq<Sample>, ring: seq<Sample>, window: real) {
    var log := popped + ring;
    NonDecreasing(log) && (log != [] ==> Stale(popped, log[|log| - 1].at - window))
  }

  lemma LaterSample(popped: seq<Sample>, ring: seq<Sample>, window: real, sample: Sample)
    requires InOrder(popped, ring, window)
    requires popped + ring == [] || (popped + ring)[|popped + ring| - 1].at <= sample.at
    ensures NonDecreasing(popped + ring + [sample]) && Stale(popped, sample.at - window)
  {
  }

  lemma StillInOrder(popped: seq<Sample>, ring: seq<Sample>, window: real, log: seq<Sample>, sample: Sample)
    requires popped + ring == log + [sample] && NonDecreasing(log + [sample])
    requires Stale(popped, sample.at - window)
    ensures InOrder(popped, ring, window)
  {
  }

  /** Once the front is fresh, what is left is the whole window. */
  lemma SuffixIsRecent(popped: seq<Sample>, ring: seq<Sample>, cutoff: real)
    requires NonDecreasing(popped + ring)
    requires Stale(popped, cutoff)
    requires ring == [] || ring[0].at >= cutoff
    ensures Recent(popped + ring, cutoff) == ring
  {
    forall i | 0 <= i < |ring| ensures ring[i].at >= cutoff {
      assert (popped + ring)[|popped|] == ring[0] && (popped + ring)[|popped| + i] == ring[i];
    }
    RecentSkipsStale(popped, ring, cutoff);
    RecentOfFresh(ring, cutoff);
  }

  lemma HeadMoves(popped: seq<Sample>, ring: seq<Sample>)
    requires ring != []
    ensures (popped + [ring[0]]) + ring[1..] == popped + ring
  {
  }

  lemma Regroup(a: seq<Sample>, b: seq<Sample>, c: seq<Sample>)
    ensures a + (b + c) == (a + b) + c
  {
  }

  class TelemetryHistory {
    const window: real
    var ring: seq<Sample>
    ghost var popped: seq<Sample>

    /** Everything ever appended, in order. */
    ghost function Log(): seq<Sample>
      reads this
    {
      popped + ring
    }

    ghost predicate Valid()
      reads this
    {
      InOrder(popped, ring, window)
    }

    constructor (window: real)
      ensures Valid() && Log() == [] && this.window == window
    {
      this.window := window;
      ring, popped := [], [];
    }

    /** Samples before the cutoff leave on the left, until the first one is fresh. */
    method Prune(cutoff: real)
      requires Stale(popped, cutoff)
      modifies this`ring, this`popped
      ensures popped + ring == old(popped + ring) && (ring == [] || ring[0].at >= cutoff)
      ensures Stale(popped, cutoff)
    {
      while ring != [] && ring[0].at < cutoff
        invariant popped + ring == old(popped + ring)
        invariant Stale(popped, cutoff)
      {
        HeadMoves(popped, ring);
        popped, ring := popped + [ring[0]], ring[1..];
      }
    }

    method Append(at: real, header: nat)
      requires Valid()
      requires Log() == [] || Log()[|Log()| - 1].at <= at   // time.monotonic()
      modifies this
      ensures Valid()
      ensures Log() == old(Log()) + [Sample(at, header)]
      ensures ring == Recent(Log(), at - window)
    {
      var sample := Sample(at, header);
      ghost var log := Log();
      LaterSample(popped, ring, window, sample);
      Regroup(popped, ring, [sample]);
      ring := ring + [sample];
      Prune(at - window);
      SuffixIsRecent(popped, ring, at - window);
      StillInOrder(popped, ring, window, log, sample);
    }
  }
}
