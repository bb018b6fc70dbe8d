/** Exponential backoff: tokens.Retry and the receive loop of the SQS subscriber. Durations are
    64-bit nanosecond counts, and doubling one wraps. */
module Backoff {

  const TWO62: int := 0x4000_0000_0000_0000
  const TWO63: int := 2 * TWO62

  /** Go's int64 arithmetic. */
  function Wrap64(x: int): int {
    var r := x % (2 * TWO63);
    if r >= TWO63 then r - 2 * TWO63 else r
  }

  function Min(a: int, b: int): int { if a < b then a else b }

  // ---- The sequence of delays ----

  /** delay *= 2, then the cap, which a Max of zero or less turns off. */
  function NextDelay(delay: int, max: int): int {
    var doubled := Wrap64(delay * 2);
    if max > 0 && doubled > max then max else doubled
  }

  /** The k-th sleep, counting from 1. */
  function Delay(base: int, max: int, k: nat): int
    requires k >= 1
  {
    if k == 1 then base else NextDelay(Delay(base, max, k - 1), max)
  }

  function Pow2(k: nat): (p: nat)
    ensures p >= 1
  {
    if k == 0 then 1 else 2 * Pow2(k - 1)
  }

  lemma DoublingBelowCap(d: int, max: int)
    requires 0 <= d < TWO62 && 0 < max
    ensures NextDelay(d, max) == Min(2 * d, max)
  {
  }

  lemma DoublingMin(d: int, max: int)
    requires 0 <= d && 0 < max < TWO62
    ensures NextDelay(Min(d, max), max) == Min(2 * d, max)
  {
  }

  function Doubled(base: int, k: nat): int {
    if k == 0 then base else 2 * Doubled(base, k - 1)
  }

  lemma {:induction false} DoubledIsProduct(base: int, k: nat)
    ensures Doubled(base, k) == base * Pow2(k)
  {
    if k > 0 {
      DoubledIsProduct(base, k - 1);
      assert base * (2 * Pow2(k - 1)) == 2 * (base * Pow2(k - 1));
    }
  }

  /** After the first sleep the delays are capped doublings, and none overflows. */
  lemma {:induction false} LaterDelays(base: int, max: int, k: nat)
    requires 0 <= base < TWO62 && 0 < max < TWO62 && k >= 2
    ensures Delay(base, max, k) == Min(Doubled(base, k - 1), max) && Doubled(base, k - 1) >= 0
  {
    if k == 2 {
      assert Doubled(base, 1) == 2 * Doubled(base, 0);
      DoublingBelowCap(base, max);
    } else {
      LaterDelays(base, max, k - 1);
      DoublingMin(Doubled(base, k - 2), max);
    }
  }

  /** With Base at most Max the k-th sleep is min(Base * 2^(k-1), Max). */
  lemma DelayClosedForm(base: int, max: int, k: nat)
    requires 0 <= base <= max < TWO62 && 0 < max && k >= 1
    ensures Delay(base, max, k) == Min(base * Pow2(k - 1), max)
  {
    DoubledIsProduct(base, k - 1);
    if k >= 2 { LaterDelays(base, max, k); }
  }

  ghost predicate EverySleepCapped(base: int, max: int) {
    forall k: nat :: k >= 1 ==> Delay(base, max, k) <= max
  }

  /** Every sleep respects a positive cap exactly when Base does: the first sleep is Base, uncapped, and
      any later one is capped, whatever overflowed. */
  lemma CappedIffBaseCapped(base: int, max: int)
    requires max > 0
    ensures EverySleepCapped(base, max) <==> base <= max
  {
    var first: nat := 1;
    assert Delay(base, max, first) == base;
    forall k: nat | k >= 2 ensures Delay(base, max, k) <= max {
      assert Delay(base, max, k) == NextDelay(Delay(base, max, k - 1), max);
    }
  }

  // ---- Retry ----

  datatype Attempt = Succeeded | Permanent(error: nat) | Failed(error: nat)

  datatype Outcome = Success | NoAttempts | Aborted | LastError(error: nat)

  datatype Config = Config(maxAttempts: int, base: int, max: int)

  /** `fn(i)` is what call i returns, and `interrupted(k)` says the context ends during sleep k.
      At most MaxAttempts calls are made, all but the last of them failing retryably, with the
      k-th delay slept before call k; the error returned is that of the last call. */
  method Retry(cfg: Config, fn: nat -> Attempt, interrupted: nat -> bool)
    returns (outcome: Outcome, calls: nat, sleeps: seq<int>)
    ensures outcome == NoAttempts <==> cfg.maxAttempts < 1
    ensures calls <= if cfg.maxAttempts < 1 then 0 else cfg.maxAttempts
    ensures forall i: nat :: i + 1 < calls ==> fn(i).Failed?
    ensures forall k: nat :: k < |sleeps| ==> sleeps[k] == Delay(cfg.base, cfg.max, k + 1)
    ensures outcome == Success ==> calls >= 1 && fn(calls - 1) == Succeeded
    ensures outcome.LastError? ==> calls >= 1
    ensures outcome.LastError? && fn(calls - 1) != Permanent(outcome.error) ==>
              fn(calls - 1) == Failed(outcome.error) && calls == cfg.maxAttempts
    ensures outcome == Aborted ==> 1 <= calls < cfg.maxAttempts && interrupted(calls) && fn(calls - 1).Failed?
    ensures outcome != NoAttempts ==> |sleeps| == if outcome == Aborted then calls else calls - 1
    ensures forall k: nat :: 1 <= k < calls ==> !interrupted(k)
  {
    calls, sleeps := 0, [];
    if cfg.maxAttempts < 1 { return NoAttempts, 0, []; }
    var last := 0;
    var delay := cfg.base;
    var attempt := 0;
    while attempt < cfg.maxAttempts
      invariant 0 <= attempt == calls <= cfg.maxAttempts
      invariant |sleeps| == if attempt == 0 then 0 else attempt - 1
      invariant delay == Delay(cfg.base, cfg.max, |sleeps| + 1)
      invariant forall k: nat :: k < |sleeps| ==> sleeps[k] == Delay(cfg.base, cfg.max, k + 1)
      invariant forall i: nat :: i < calls ==> fn(i).Failed?
      invariant calls > 0 ==> fn(calls - 1) == Failed(last)
      invariant forall k: nat :: 1 <= k < calls ==> !interrupted(k)
    {
      if attempt > 0 {
        sleeps := sleeps + [delay];
        if interrupted(attempt) { return Aborted, calls, sleeps; }
        delay := Wrap64(delay * 2);
        if cfg.max > 0 && delay > cfg.max { delay := cfg.max; }
      }
      var err := fn(attempt);
      calls := calls + 1;
      match err {
        case Succeeded => return Success, calls, sleeps;
        case Permanent(e) => return LastError(e), calls, sleeps;
        case Failed(e) => last := e;
      }
      attempt := attempt + 1;
    }
    outcome := LastError(last);
  }

  // ---- The receive loop ----

  /** What one Receive call meets: a message, a transient error with or without the context ending
      during the wait that follows, a permanent error, or an error because the context ended. */
  datatype Response = Delivered(message: nat) | Transient(endsInWait: bool) | PermanentFailure | ContextEnded

  datatype Received = Got(message: nat) | Stopped | Fatal | StillWaiting

  /** The responses end where Receive blocks. The loop waits the k-th delay after the k-th transient
      error, gives up only on a permanent error or an ended context, and returns the first message. */
  method Receive(minBackoff: int, maxBackoff: int, responses: seq<Response>)
    returns (result: Received, waits: seq<int>)
    requires maxBackoff > 0
    ensures |waits| <= |responses|
    ensures forall k: nat :: k < |waits| ==> waits[k] == Delay(minBackoff, maxBackoff, k + 1)
    ensures forall i: nat :: i < |waits| ==> responses[i].Transient?
    ensures forall i: nat :: i + 1 < |waits| ==> !responses[i].endsInWait
    ensures match result
            case Got(m) => |waits| < |responses| && responses[|waits|] == Delivered(m)
            case Fatal => |waits| < |responses| && responses[|waits|] == PermanentFailure
            case Stopped => (|waits| < |responses| && responses[|waits|] == ContextEnded)
                            || (|waits| > 0 && responses[|waits| - 1].endsInWait)
            case StillWaiting => |waits| == |responses|
  {
    var backoff := minBackoff;
    waits := [];
    var i := 0;
    while i < |responses|
      invariant 0 <= i == |waits| <= |responses|
      invariant backoff == Delay(minBackoff, maxBackoff, |waits| + 1)
      invariant forall k: nat :: k < |waits| ==> waits[k] == Delay(minBackoff, maxBackoff, k + 1)
      invariant forall k: nat :: k < i ==> responses[k].Transient? && !responses[k].endsInWait
    {
      match responses[i] {
        case Delivered(m) => return Got(m), waits;
        case ContextEnded => return Stopped, waits;
        case PermanentFailure => return Fatal, waits;
        case Transient(ends) =>
          waits := waits + [backoff];
          if ends { return Stopped, waits; }
          backoff := Min(Wrap64(backoff * 2), maxBackoff);
      }
      i := i + 1;
    }
    result := StillWaiting;
  }
}
