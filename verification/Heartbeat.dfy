/** The SQS subscriber's visibility heartbeat under cron/worker's loop, as a step system: the
    loop's thread, one goroutine per stored message, and a cancellable context, interleaved in
    any order. Messages are numbered in the order they are received. */
module Heartbeat {

  // ---- State ----

  /** Where a message's goroutine stands: not started, at its select, in a renewal call, or gone. */
  datatype Beat = NotStarted | Selecting | Renewing | Exited

  datatype Settlement = Ack | Nack

  /** The thread's program counter, through WorkLoop.Run, SynchronousPull, Ack, Nack and Close. */
  datatype Pc =
    | Pulling                    // in receive
    | Received                   // a message arrived and is not stored yet
    | Parsing                    // stored, its heartbeat started
    | CheckingMetadata
    | CheckingResult
    | Processing
    | PostProcessing
    | Stopping(how: Settlement)  // stopHeartbeat, before stopOnce.Do
    | Waiting(how: Settlement)   // stopHeartbeat, in wg.Wait
    | Settling(how: Settlement)  // stopHeartbeat returned
    | Closing                    // Close: stopHeartbeat, before stopOnce.Do
    | ClosingWait                // Close: stopHeartbeat, in wg.Wait
    | ClosingDone                // Close: stopHeartbeat returned
    | Returned                   // Run returned

  /** The history of one message: how often its stop channel was closed and how often it was
      settled, whether a stopHeartbeat for it returned, whether its work is done, whether it was
      settled by Ack. */
  datatype Message = Message(beat: Beat, closes: nat, settled: nat, passed: bool, finished: bool, acked: bool)

  const FRESH := Message(NotStarted, 0, 0, false, false, false)

  /** The fields msg, stop and stopOnce belong to message `current`, and are nil while it is -1. */
  datatype State = State(pc: Pc, cancelled: bool, msgs: seq<Message>, current: int, onceDone: bool, wg: int)

  const INIT := State(Pulling, false, [], -1, false, 0)

  datatype Event =
    | Cancel
    | Deliver
    | ReceiveStops
    | ReceiveFails
    | StoreMessage(handle: bool)
    | Parse(ok: bool)
    | Metadata(found: bool)          // a lookup error counts as not found: both nack
    | Result(error: bool, found: bool)
    | Process(ok: bool)
    | PostProcess
    | CloseStop
    | WaitDone
    | Settle
    | CloseShuts
    | Tick(beat: nat)
    | RenewalReturns(beat: nat)
    | Leave(beat: nat)

  predicate HasCurrent(s: State) { 0 <= s.current < |s.msgs| }

  /** The goroutines the wait group counts. */
  function Live(s: State): set<nat> {
    set b: nat | b < |s.msgs| && (s.msgs[b].beat == Selecting || s.msgs[b].beat == Renewing)
  }

  predicate OfBeat(e: Event) { e.Tick? || e.RenewalReturns? || e.Leave? }

  // ---- Steps ----

  predicate BeatIs(s: State, b: nat, beat: Beat) { b < |s.msgs| && s.msgs[b].beat == beat }

  predicate Enabled(s: State, e: Event) {
    match e
    case Cancel => true
    case Deliver => s.pc == Pulling
    case ReceiveStops => s.pc == Pulling && s.cancelled
    case ReceiveFails => s.pc == Pulling
    case StoreMessage(_) => s.pc == Received && s.msgs != []
    case Parse(_) => s.pc == Parsing
    case Metadata(_) => s.pc == CheckingMetadata
    case Result(_, _) => s.pc == CheckingResult
    case Process(_) => s.pc == Processing
    case PostProcess => s.pc == PostProcessing
    case CloseStop => s.pc.Stopping? || s.pc == Closing
    case WaitDone => (s.pc.Waiting? || s.pc == ClosingWait) && s.wg == 0
    case Settle => s.pc.Settling?
    case CloseShuts => s.pc == ClosingDone
    case Tick(b) => BeatIs(s, b, Selecting)
    case RenewalReturns(b) => BeatIs(s, b, Renewing)
    case Leave(b) => BeatIs(s, b, Selecting) && (s.cancelled || s.msgs[b].closes > 0)
  }

  function NextPc(s: State, e: Event): Pc
    requires Enabled(s, e)
  {
    match e
    case Deliver => Received
    case ReceiveStops => Closing
    case ReceiveFails => Returned
    case StoreMessage(handle) => if handle then Parsing else Returned
    case Parse(ok) => if ok then CheckingMetadata else Stopping(Nack)
    case Metadata(found) => if found then CheckingResult else Stopping(Nack)
    case Result(error, found) =>
      if error then Stopping(Nack) else if found then PostProcessing else Processing
    case Process(ok) => if ok then PostProcessing else Stopping(Nack)
    case PostProcess => Stopping(Ack)
    case CloseStop =>
      if s.pc.Stopping? then Waiting(s.pc.how) else if s.current < 0 then ClosingDone else ClosingWait
    case WaitDone => if s.pc.Waiting? then Settling(s.pc.how) else ClosingDone
    case Settle => Pulling
    case CloseShuts => Returned
    case _ => s.pc
  }

  /** What a thread step records about the current message. stopOnce.Do closes the channel the
      first time only. */
  function NextCurrent(s: State, e: Event): Message
    requires Enabled(s, e) && HasCurrent(s)
  {
    var m := s.msgs[s.current];
    match e
    case Result(error, found) => m.(finished := m.finished || (!error && found))
    case Process(ok) => m.(finished := m.finished || ok)
    case CloseStop => if s.onceDone then m else m.(closes := m.closes + 1)
    case WaitDone => m.(passed := true)
    case Settle => m.(settled := m.settled + 1, acked := m.acked || s.pc == Settling(Ack))
    case _ => m
  }

  function NextMsgs(s: State, e: Event): seq<Message>
    requires Enabled(s, e)
  {
    var last := |s.msgs| - 1;
    match e
    case Deliver => s.msgs + [FRESH]
    case StoreMessage(handle) =>
      s.msgs[last := if handle then s.msgs[last].(beat := Selecting)
                     else s.msgs[last].(settled := s.msgs[last].settled + 1)]
    case Tick(b) => s.msgs[b := s.msgs[b].(beat := Renewing)]
    case RenewalReturns(b) => s.msgs[b := s.msgs[b].(beat := Selecting)]
    case Leave(b) => s.msgs[b := s.msgs[b].(beat := Exited)]
    case _ => if HasCurrent(s) then s.msgs[s.current := NextCurrent(s, e)] else s.msgs
  }

  function Step(s: State, e: Event): State {
    if !Enabled(s, e) then s
    else
      var stores := e == StoreMessage(true);
      State(NextPc(s, e),
            s.cancelled || e.Cancel?,
            NextMsgs(s, e),
            if stores then |s.msgs| - 1 else s.current,
            if stores then false else s.onceDone || (e.CloseStop? && s.current >= 0),
            if stores then s.wg + 1 else if e.Leave? then s.wg - 1 else s.wg)
  }

  function Exec(s: State, events: seq<Event>): State
    decreases |events|
  {
    if events == [] then s else Exec(Step(s, events[0]), events[1..])
  }

  // ---- Invariant ----

  /** The message is stored and its settlement has not begun to stop the heartbeat. */
  predicate Holding(pc: Pc) {
    pc == Parsing || pc == CheckingMetadata || pc == CheckingResult || pc == Processing
    || pc == PostProcessing || pc.Stopping?
  }

  predicate ToAck(pc: Pc) { pc == PostProcessing || pc == Stopping(Ack) || pc == Waiting(Ack) || pc == Settling(Ack) }

  /** A message whose turn is over: stopped once, settled once, its goroutine gone. */
  predicate Over(m: Message) {
    m.closes == 1 && m.settled == 1 && m.passed && m.beat == Exited && (m.acked ==> m.finished)
  }

  /** What the program counter says about the current message. */
  predicate CurrentOk(pc: Pc, m: Message, onceDone: bool) {
    && (onceDone <==> m.closes == 1)
    && (ToAck(pc) ==> m.finished)
    && if Holding(pc) then
         m.beat != NotStarted && m.closes == 0 && m.settled == 0 && !m.passed && !m.acked
       else if pc.Waiting? then
         m.beat != NotStarted && m.closes == 1 && m.settled == 0 && !m.passed && !m.acked
       else if pc.Settling? then
         m.beat == Exited && m.closes == 1 && m.settled == 0 && m.passed && !m.acked
       else Over(m)
  }

  predicate Inv(s: State) {
    && -1 <= s.current < |s.msgs|
    && (s.pc == Received ==> s.current == |s.msgs| - 2 && s.msgs[|s.msgs| - 1] == FRESH)
    && (s.pc == Returned && s.current != |s.msgs| - 1 ==>
          s.current == |s.msgs| - 2 && s.msgs[|s.msgs| - 1] == FRESH.(settled := 1))
    && (s.pc != Received && s.pc != Returned ==> s.current == |s.msgs| - 1)
    && (forall m: nat :: m < s.current ==> Over(s.msgs[m]))
    && (s.current >= 0 ==> CurrentOk(s.pc, s.msgs[s.current], s.onceDone))
    && (s.current < 0 ==> !Holding(s.pc) && !s.pc.Waiting? && !s.pc.Settling? && s.pc != ClosingWait)
    && s.wg == (if s.current >= 0 && s.msgs[s.current].beat != Exited then 1 else 0)
  }

  /** Only the current message has a goroutine. */
  lemma BeatIsCurrent(s: State, b: nat)
    requires Inv(s) && (BeatIs(s, b, Selecting) || BeatIs(s, b, Renewing))
    ensures b == s.current
  {
  }

  lemma SameTurn(pc: Pc, m: Message, beat: Beat, onceDone: bool)
    requires CurrentOk(pc, m, onceDone) && (m.beat == Selecting || m.beat == Renewing) && beat != NotStarted
    ensures CurrentOk(pc, m.(beat := beat), onceDone)
  {
  }

  lemma TickKeeps(s: State, e: Event)
    requires Inv(s) && (e.Tick? || e.RenewalReturns?)
    ensures Inv(Step(s, e))
  {
    if Enabled(s, e) {
      BeatIsCurrent(s, e.beat);
      SameTurn(s.pc, s.msgs[s.current], if e.Tick? then Renewing else Selecting, s.onceDone);
    }
  }

  lemma LeaveKeeps(s: State, e: Event)
    requires Inv(s) && e.Leave?
    ensures Inv(Step(s, e))
  {
    if Enabled(s, e) {
      BeatIsCurrent(s, e.beat);
      SameTurn(s.pc, s.msgs[s.current], Exited, s.onceDone);
    }
  }

  lemma BeatKeeps(s: State, e: Event)
    requires Inv(s) && OfBeat(e)
    ensures Inv(Step(s, e))
  {
    if e.Leave? { LeaveKeeps(s, e); } else { TickKeeps(s, e); }
  }

  /** Receiving, storing, cancelling and returning leave the messages before the last alone. */
  predicate OfReceive(e: Event) {
    e.Cancel? || e.Deliver? || e.ReceiveStops? || e.ReceiveFails? || e.StoreMessage? || e.CloseShuts?
  }

  lemma StoreKeeps(s: State, e: Event)
    requires Inv(s) && (e.StoreMessage? || e.Deliver?)
    ensures Inv(Step(s, e))
  {
  }

  lemma ReceiveKeeps(s: State, e: Event)
    requires Inv(s) && OfReceive(e)
    ensures Inv(Step(s, e))
  {
    if e.StoreMessage? || e.Deliver? { StoreKeeps(s, e); }
  }

  lemma SettleKeeps(s: State, e: Event)
    requires Inv(s) && !OfBeat(e) && !OfReceive(e)
    ensures Inv(Step(s, e))
  {
  }

  lemma StepKeeps(s: State, e: Event)
    requires Inv(s)
    ensures Inv(Step(s, e))
  {
    if OfBeat(e) { BeatKeeps(s, e); } else if OfReceive(e) { ReceiveKeeps(s, e); } else { SettleKeeps(s, e); }
  }

  lemma {:induction false} RunKeeps(s: State, events: seq<Event>)
    requires Inv(s)
    ensures Inv(Exec(s, events))
    decreases |events|
  {
    if events != [] {
      StepKeeps(s, events[0]);
      RunKeeps(Step(s, events[0]), events[1..]);
    }
  }

  lemma {:induction false} ExecAppend(s: State, xs: seq<Event>, ys: seq<Event>)
    ensures Exec(s, xs + ys) == Exec(Exec(s, xs), ys)
    decreases |xs|
  {
    if xs == [] {
      assert xs + ys == ys;
    } else {
      assert (xs + ys)[1..] == xs[1..] + ys;
      ExecAppend(Step(s, xs[0]), xs[1..], ys);
    }
  }

  function Run(events: seq<Event>): State { Exec(INIT, events) }

  // ---- Main results ----

  lemma LiveIsCurrent(s: State)
    requires Inv(s)
    ensures Live(s) == if s.current >= 0 && s.msgs[s.current].beat != Exited then {s.current} else {}
  {
  }

  /** In every interleaving at most one heartbeat is live, the wait group counts exactly the live
      ones, and no stop channel is closed twice. */
  lemma OneHeartbeat(events: seq<Event>)
    ensures var s := Run(events);
      && s.wg == |Live(s)| && |Live(s)| <= 1
      && (forall m: nat :: m < |s.msgs| ==> s.msgs[m].closes <= 1)
  {
    RunKeeps(INIT, events);
    LiveIsCurrent(Run(events));
  }

  lemma TurnsSettled(s: State)
    requires Inv(s)
    ensures forall m: nat :: m < |s.msgs| ==> s.msgs[m].settled <= 1 && (s.msgs[m].acked ==> s.msgs[m].finished)
    ensures s.pc == Pulling || s.pc == Closing || s.pc == Returned ==> forall m: nat :: m < |s.msgs| ==> s.msgs[m].settled == 1
  {
    forall m: nat | m < |s.msgs|
      ensures s.msgs[m].settled <= 1 && (s.msgs[m].acked ==> s.msgs[m].finished)
      ensures s.pc == Pulling || s.pc == Closing || s.pc == Returned ==> s.msgs[m].settled == 1
    {
      assert m < s.current ==> Over(s.msgs[m]);
    }
  }

  /** Every message received before a pull has been settled exactly once by then, none is ever
      settled twice, and only a message whose work is done is acked. */
  lemma SettledOncePerPull(events: seq<Event>)
    ensures var s := Run(events);
      && (forall m: nat :: m < |s.msgs| ==> s.msgs[m].settled <= 1 && (s.msgs[m].acked ==> s.msgs[m].finished))
      && (s.pc == Pulling || s.pc == Closing || s.pc == Returned ==>
            forall m: nat :: m < |s.msgs| ==> s.msgs[m].settled == 1)
  {
    RunKeeps(INIT, events);
    TurnsSettled(Run(events));
  }

  predicate Silent(s: State, m: nat) { m < |s.msgs| && s.msgs[m].passed && s.msgs[m].beat == Exited }

  lemma SilentStep(s: State, e: Event, m: nat)
    requires Inv(s) && Silent(s, m)
    ensures Silent(Step(s, e), m)
  {
  }

  lemma {:induction false} SilentStays(s: State, events: seq<Event>, m: nat)
    requires Inv(s) && Silent(s, m)
    ensures Silent(Exec(s, events), m)
    decreases |events|
  {
    if events != [] {
      SilentStep(s, events[0], m);
      StepKeeps(s, events[0]);
      SilentStays(Step(s, events[0]), events[1..], m);
    }
  }

  /** Once Ack, Nack or Close is past stopHeartbeat for a message, no renewal of it is running or
      ever starts again; and a message with a heartbeat is settled only after that. */
  lemma NoRenewalAfterStop(events: seq<Event>, later: seq<Event>, m: nat)
    requires m < |Run(events).msgs|
    ensures var x := Run(events).msgs[m];
      && (x.passed ==> Silent(Run(events + later), m))
      && (x.settled > 0 && x.beat != NotStarted ==> x.passed)
  {
    RunKeeps(INIT, events);
    if Run(events).msgs[m].passed {
      SilentStays(Run(events), later, m);
      ExecAppend(INIT, events, later);
    }
  }

  lemma LeaveFrees(s: State, b: nat)
    requires Inv(s) && s.pc.Waiting? && b == s.current && s.msgs[b].beat == Selecting
    ensures Enabled(Exec(s, [Leave(b)]), WaitDone)
  {
  }

  lemma RenewalFrees(s: State, b: nat)
    requires Inv(s) && s.pc.Waiting? && b == s.current && s.msgs[b].beat == Renewing
    ensures Enabled(Exec(s, [RenewalReturns(b), Leave(b)]), WaitDone)
  {
    StepKeeps(s, RenewalReturns(b));
    LeaveFrees(Step(s, RenewalReturns(b)), b);
    assert [RenewalReturns(b), Leave(b)][1..] == [Leave(b)];
  }

  /** Waiting for the goroutine cannot hang: whatever came before, at most two steps of its own
      let the wait of a settlement return, and the wait in Close returns at once. */
  lemma StopCannotHang(events: seq<Event>) returns (es: seq<Event>)
    ensures |es| <= 2 && forall i :: 0 <= i < |es| ==> OfBeat(es[i])
    ensures Run(events).pc.Waiting? ==> Enabled(Run(events + es), WaitDone)
    ensures Run(events).pc == ClosingWait ==> es == [] && Enabled(Run(events), WaitDone)
  {
    RunKeeps(INIT, events);
    var s := Run(events);
    es := [];
    if s.pc.Waiting? {
      var b := s.current;
      if s.msgs[b].beat == Selecting {
        LeaveFrees(s, b);
        es := [Leave(b)];
      } else if s.msgs[b].beat == Renewing {
        RenewalFrees(s, b);
        es := [RenewalReturns(b), Leave(b)];
      }
    }
    ExecAppend(INIT, events, es);
  }
}
