/** Timing of the visibility renewals in extendVisibility: each tick comes one period of
    extension minus grace after the previous round trip, and each renewal hides the message for
    `extension` from the moment the queue applies it. Times are in any one unit. */
module Visibility {

  datatype Timing = Timing(extension: int, grace: int, latency: int)

  datatype Renewal = Renewal(sent: int, applied: int, returned: int)

  predicate Sensible(p: Timing) { 0 <= p.grace <= p.extension && 0 < p.extension && 0 <= p.latency }

  function Period(p: Timing): int { p.extension - p.grace }

  /** When the timer for the renewal after `trace` was armed. */
  function Armed(start: int, trace: seq<Renewal>): int {
    if trace == [] then start else trace[|trace| - 1].returned
  }

  /** Successful renewals in order, each applied within its round trip of at most `latency`. */
  predicate Trace(p: Timing, start: int, trace: seq<Renewal>) {
    trace == [] ||
    var front, r := trace[..|trace| - 1], trace[|trace| - 1];
    && Trace(p, start, front)
    && r.sent == Armed(start, front) + Period(p)
    && r.sent <= r.applied <= r.returned <= r.sent + p.latency
  }

  /** When the message becomes visible again, as the queue sees it at time t. */
  function Deadline(p: Timing, initial: int, trace: seq<Renewal>, t: int): int {
    if trace == [] then initial
    else
      var r := trace[|trace| - 1];
      if r.applied <= t then r.applied + p.extension else Deadline(p, initial, trace[..|trace| - 1], t)
  }

  predicate Hidden(p: Timing, initial: int, trace: seq<Renewal>, t: int) {
    t < Deadline(p, initial, trace, t)
  }

  /** While the heartbeat lives, the next renewal is applied before this time. */
  function Horizon(p: Timing, start: int, trace: seq<Renewal>): int {
    Armed(start, trace) + Period(p) + p.latency
  }

  /** The visibility the queue gave on delivery outlasts the first renewal. */
  predicate CoversFirstTick(p: Timing, start: int, initial: int) {
    start + Period(p) + p.latency <= initial
  }

  lemma {:induction false} HiddenThroughout(p: Timing, start: int, initial: int, trace: seq<Renewal>, t: int)
    requires Sensible(p) && 2 * p.latency <= p.grace && CoversFirstTick(p, start, initial)
    requires Trace(p, start, trace) && t < Horizon(p, start, trace)
    ensures Hidden(p, initial, trace, t)
  {
    if trace != [] {
      var front, r := trace[..|trace| - 1], trace[|trace| - 1];
      if t < r.applied { HiddenThroughout(p, start, initial, front, t); }
    }
  }

  ghost predicate NeverVisible(p: Timing, start: int, initial: int) {
    forall trace: seq<Renewal>, t: int ::
      Trace(p, start, trace) && t < Horizon(p, start, trace) ==> Hidden(p, initial, trace, t)
  }

  /** A fast renewal followed by a slow one: the gap the grace period has to cover. */
  function SlowPair(p: Timing, start: int): seq<Renewal> {
    var s := start + Period(p);
    var u := s + p.latency + Period(p);
    [Renewal(s, s, s + p.latency), Renewal(u, u + p.latency, u + p.latency)]
  }

  lemma SlowPairShows(p: Timing, start: int, initial: int)
    requires Sensible(p) && 2 * p.latency > p.grace
    ensures var trace := SlowPair(p, start);
            var t := trace[0].applied + p.extension;
            Trace(p, start, trace) && t < Horizon(p, start, trace) && !Hidden(p, initial, trace, t)
  {
    var trace := SlowPair(p, start);
    var t := trace[0].applied + p.extension;
    assert trace[..1] == [trace[0]] && [trace[0]][..0] == [];
    assert Trace(p, start, []);
    assert Trace(p, start, trace[..1]);
    assert t < trace[1].applied;
    assert Deadline(p, initial, trace, t) == Deadline(p, initial, trace[..1], t) == t;
  }

  /** A held message stays hidden for as long as its heartbeat lives, in every timing of the
      renewals, exactly when a round trip takes at most half the grace period. */
  lemma HiddenIffLatencyWithinHalfGrace(p: Timing, start: int, initial: int)
    requires Sensible(p) && CoversFirstTick(p, start, initial)
    ensures NeverVisible(p, start, initial) <==> 2 * p.latency <= p.grace
  {
    if 2 * p.latency <= p.grace {
      forall trace: seq<Renewal>, t: int | Trace(p, start, trace) && t < Horizon(p, start, trace)
        ensures Hidden(p, initial, trace, t)
      {
        HiddenThroughout(p, start, initial, trace, t);
      }
    } else {
      SlowPairShows(p, start, initial);
    }
  }
}
