/** What the worker's loop does with a message, as steps of the heartbeat system's thread, with renewals
    and a cancellation at any moment in between. */
module ThreadSteps {
  import H = Heartbeat

  /** Not a step of the thread. */
  predicate Background(e: H.Event) { H.OfBeat(e) || e.Cancel? }

  ghost predicate InBackground(events: seq<H.Event>) { forall i: nat :: i < |events| ==> Background(events[i]) }

  function Acks(s: H.State): seq<bool> { seq(|s.msgs|, i requires 0 <= i < |s.msgs| => s.msgs[i].acked) }

  /** After these events the thread is here, and these are the messages it received, acked or not. */
  ghost predicate Stands(log: seq<H.Event>, pc: H.Pc, acks: seq<bool>) {
    H.Run(log).pc == pc && Acks(H.Run(log)) == acks
  }

  lemma BackgroundKeeps(s: H.State, e: H.Event)
    requires Background(e)
    ensures var t := H.Step(s, e);
      t.pc == s.pc && Acks(t) == Acks(s) && t.current == s.current && (s.cancelled || e.Cancel? ==> t.cancelled)
  {
  }

  lemma {:induction false} BackgroundRun(s: H.State, events: seq<H.Event>)
    requires InBackground(events)
    ensures var t := H.Exec(s, events);
      t.pc == s.pc && Acks(t) == Acks(s) && t.current == s.current && (s.cancelled || H.Cancel in events ==> t.cancelled)
    decreases |events|
  {
    if events != [] {
      BackgroundKeeps(s, events[0]);
      assert forall i: nat :: i < |events[1..]| ==> events[1..][i] == events[i + 1];
      BackgroundRun(H.Step(s, events[0]), events[1..]);
      assert H.Cancel in events ==> events[0] == H.Cancel || H.Cancel in events[1..];
    }
  }

  /** The events, then these in the background, then one of the thread. */
  lemma OneMore(log: seq<H.Event>, between: seq<H.Event>, e: H.Event)
    requires InBackground(between)
    ensures var s := H.Run(log + between);
      && H.Run(log + between + [e]) == H.Step(s, e) && H.Inv(s)
      && s.pc == H.Run(log).pc && Acks(s) == Acks(H.Run(log)) && s.current == H.Run(log).current
      && (H.Cancel in between ==> s.cancelled)
  {
    H.ExecAppend(H.INIT, log, between);
    H.ExecAppend(H.INIT, log + between, [e]);
    assert H.Exec(H.Run(log + between), [e]) == H.Exec(H.Step(H.Run(log + between), e), []);
    BackgroundRun(H.Run(log), between);
    H.RunKeeps(H.INIT, log + between);
  }

  /** Where a step leads that neither receives, waits nor settles. */
  predicate Leads(pc: H.Pc, e: H.Event, next: H.Pc) {
    match e
    case ReceiveFails => pc == H.Pulling && next == H.Returned
    case StoreMessage(handle) => handle && pc == H.Received && next == H.Parsing
    case Parse(ok) => ok && pc == H.Parsing && next == H.CheckingMetadata
    case Metadata(found) => pc == H.CheckingMetadata && next == if found then H.CheckingResult else H.Stopping(H.Nack)
    case Result(error, found) =>
      pc == H.CheckingResult &&
      next == if error then H.Stopping(H.Nack) else if found then H.PostProcessing else H.Processing
    case Process(ok) => pc == H.Processing && next == if ok then H.PostProcessing else H.Stopping(H.Nack)
    case PostProcess => pc == H.PostProcessing && next == H.Stopping(H.Ack)
    case CloseStop => pc.Stopping? && next == H.Waiting(pc.how)
    case CloseShuts => pc == H.ClosingDone && next == H.Returned
    case _ => false
  }

  lemma Goes(log: seq<H.Event>, between: seq<H.Event>, e: H.Event, pc: H.Pc, next: H.Pc, acks: seq<bool>)
    requires Stands(log, pc, acks) && InBackground(between) && Leads(pc, e, next)
    ensures Stands(log + between + [e], next, acks)
  {
    OneMore(log, between, e);
  }

  lemma Delivers(log: seq<H.Event>, between: seq<H.Event>, acks: seq<bool>)
    requires Stands(log, H.Pulling, acks) && InBackground(between)
    ensures Stands(log + between + [H.Deliver], H.Received, acks + [false])
  {
    OneMore(log, between, H.Deliver);
  }

  /** The wait for the goroutine ends, at the latest after steps of its own. */
  lemma Waits(log: seq<H.Event>, between: seq<H.Event>, pc: H.Pc, acks: seq<bool>) returns (more: seq<H.Event>)
    requires Stands(log, pc, acks) && InBackground(between) && (pc.Waiting? || pc == H.ClosingWait)
    ensures log + between <= more
    ensures Stands(more, if pc.Waiting? then H.Settling(pc.how) else H.ClosingDone, acks)
  {
    OneMore(log, between, H.WaitDone);
    var es := H.StopCannotHang(log + between);
    OneMore(log + between, es, H.WaitDone);
    more := log + between + es + [H.WaitDone];
    assert log + between + [] == log + between;
  }

  lemma Settles(log: seq<H.Event>, between: seq<H.Event>, how: H.Settlement, acks: seq<bool>)
    requires Stands(log, H.Settling(how), acks) && InBackground(between)
    ensures acks != [] && Stands(log + between + [H.Settle], H.Pulling, acks[..|acks| - 1] + [how == H.Ack])
  {
    OneMore(log, between, H.Settle);
  }

  // ---- What the loop does with the subscriber ----

  ghost predicate Beats(beats: nat -> seq<H.Event>) { forall n: nat :: InBackground(beats(n)) }

  /** A message arrives, is stored, its heartbeat starts, and it parses. */
  lemma Pulls(log: seq<H.Event>, beats: nat -> seq<H.Event>, acks: seq<bool>) returns (more: seq<H.Event>)
    requires Stands(log, H.Pulling, acks) && Beats(beats)
    ensures log <= more && Stands(more, H.CheckingMetadata, acks + [false])
  {
    more := log + beats(|log|) + [H.Deliver];
    Delivers(log, beats(|log|), acks);
    more := Does(more, beats, H.StoreMessage(true), H.Received, H.Parsing, acks + [false]);
    more := Does(more, beats, H.Parse(true), H.Parsing, H.CheckingMetadata, acks + [false]);
  }

  lemma Does(log: seq<H.Event>, beats: nat -> seq<H.Event>, e: H.Event, pc: H.Pc, next: H.Pc, acks: seq<bool>)
    returns (more: seq<H.Event>)
    requires Stands(log, pc, acks) && Beats(beats) && Leads(pc, e, next)
    ensures log <= more && Stands(more, next, acks)
  {
    Goes(log, beats(|log|), e, pc, next, acks);
    more := log + beats(|log|) + [e];
  }

  /** Ack or Nack: the heartbeat is stopped and waited for, then the message is settled. */
  lemma StopsAndSettles(log: seq<H.Event>, beats: nat -> seq<H.Event>, how: H.Settlement, acks: seq<bool>)
    returns (more: seq<H.Event>)
    requires Stands(log, H.Stopping(how), acks) && Beats(beats)
    ensures acks != [] && log <= more && Stands(more, H.Pulling, acks[..|acks| - 1] + [how == H.Ack])
  {
    more := Does(log, beats, H.CloseStop, H.Stopping(how), H.Waiting(how), acks);
    more := Waits(more, beats(|more|), H.Waiting(how), acks);
    Settles(more, beats(|more|), how, acks);
    more := more + beats(|more|) + [H.Settle];
  }

  lemma ReceiveEnds(log: seq<H.Event>, between: seq<H.Event>, acks: seq<bool>)
    requires Stands(log, H.Pulling, acks) && InBackground(between) && H.Cancel in between
    ensures Stands(log + between + [H.ReceiveStops], H.Closing, acks)
  {
    OneMore(log, between, H.ReceiveStops);
  }

  lemma CloseStops(log: seq<H.Event>, between: seq<H.Event>, acks: seq<bool>) returns (next: H.Pc)
    requires Stands(log, H.Closing, acks) && InBackground(between)
    ensures (next == H.ClosingWait || next == H.ClosingDone) && Stands(log + between + [H.CloseStop], next, acks)
  {
    OneMore(log, between, H.CloseStop);
    next := H.Run(log + between + [H.CloseStop]).pc;
  }

  /** The context is cancelled and the pull returns nothing. */
  lemma PullsNothing(log: seq<H.Event>, beats: nat -> seq<H.Event>, acks: seq<bool>) returns (more: seq<H.Event>)
    requires Stands(log, H.Pulling, acks) && Beats(beats)
    ensures log <= more && Stands(more, H.Closing, acks)
  {
    ReceiveEnds(log, beats(|log|) + [H.Cancel], acks);
    more := log + (beats(|log|) + [H.Cancel]) + [H.ReceiveStops];
  }

  /** Close stops what is left to stop. */
  lemma Closes(log: seq<H.Event>, beats: nat -> seq<H.Event>, acks: seq<bool>) returns (more: seq<H.Event>)
    requires Stands(log, H.Closing, acks) && Beats(beats)
    ensures log <= more && Stands(more, H.Returned, acks)
  {
    var next := CloseStops(log, beats(|log|), acks);
    more := log + beats(|log|) + [H.CloseStop];
    if next == H.ClosingWait { more := Waits(more, beats(|more|), H.ClosingWait, acks); }
    more := Does(more, beats, H.CloseShuts, H.ClosingDone, H.Returned, acks);
  }
}
