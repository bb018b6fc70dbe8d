/** The worker's loop as it is written, among everything else that happens in the pipeline. Its
    operations are steps of the pipeline, and of the heartbeat system's thread; what the others and the
    heartbeats do in between is arbitrary. */
module WorkLoop {
  import opened Wrappers
  import opened Calendar
  import opened BlobNames
  import opened PipelineResults
  import opened Summary
  import opened ThreadSteps
  import H = Heartbeat
  import P = Pipeline

  predicate OfOthers(me: nat, events: seq<P.Event>) {
    forall i :: 0 <= i < |events| ==> !(events[i].OfWorker? && events[i].worker == me)
  }

  /** The others do not move this worker. */
  lemma {:induction false} OthersLeaveMe(s: P.State, me: nat, events: seq<P.Event>)
    requires OfOthers(me, events)
    ensures P.WorkerAt(P.Exec(s, events), me) == P.WorkerAt(s, me)
    decreases |events|
  {
    if events != [] {
      StepLeavesMe(s, me, events[0]);
      OthersLeaveMe(P.Step(s, events[0]), me, events[1..]);
    }
  }

  lemma StepLeavesMe(s: P.State, me: nat, e: P.Event)
    requires !(e.OfWorker? && e.worker == me)
    ensures P.WorkerAt(P.Step(s, e), me) == P.WorkerAt(s, me)
  {
  }

  lemma ExecThenStep(events: seq<P.Event>, more: seq<P.Event>, e: P.Event)
    ensures Run(events + more + [e]) == P.Step(P.Exec(Run(events), more), e)
  {
    ExecAppend(P.INIT, events, more);
    ExecAppend(P.INIT, events + more, [e]);
    assert P.Exec(P.Exec(P.INIT, events + more), [e]) == P.Exec(P.Step(P.Exec(P.INIT, events + more), e), []);
  }

  /** What became of the messages settled, and of one in hand. */
  function AcksOf(settled: seq<H.Settlement>, inHand: nat): seq<bool> {
    seq(|settled|, i requires 0 <= i < |settled| => settled[i] == H.Ack) + if inHand == 1 then [false] else []
  }

  /** Where the heartbeat system's thread is while the worker is here with a message in hand. */
  function ThreadAt(w: P.Worker): H.Pc {
    match w
    case Idle => H.Stopping(H.Nack)
    case CheckingMetadata(_) => H.CheckingMetadata
    case CheckingResult(_) => H.CheckingResult
    case Scanning(_) => H.Processing
    case RawWritten(_) => H.Processing
    case Acking(_) => H.PostProcessing
  }

  /** The worker and its surroundings. Operation n is preceded by others(n), and step n of the heartbeat
      system by beats(n); `fine`, `writes`, `bytes` and `deliver` say what operation n meets, `pullFails`
      whether it fails as a pull, and the context is cancelled after `left` deliveries. */
  class World {
    const me: nat
    const others: nat -> seq<P.Event>
    const beats: nat -> seq<H.Event>
    const fine: nat -> bool
    const writes: nat -> WriteResult
    const bytes: nat -> string
    const deliver: nat -> P.Message
    const pullFails: nat -> bool
    var ops: nat
    var left: nat
    var s: P.State
    ghost var events: seq<P.Event>
    ghost var log: seq<H.Event>
    var pulled: seq<P.Message>
    var settled: seq<H.Settlement>

    constructor (me: nat, left: nat, others: nat -> seq<P.Event>, beats: nat -> seq<H.Event>, deliver: nat -> P.Message,
                 pullFails: nat -> bool, fine: nat -> bool, writes: nat -> WriteResult, bytes: nat -> string)
      requires (forall n: nat :: OfOthers(me, others(n))) && Beats(beats)
      ensures Valid() && Me() == P.Idle && this.me == me && this.others == others && this.beats == beats
      ensures pulled == [] && settled == [] && this.left == left && log == []
    {
      this.me, this.left, this.others, this.beats, this.deliver := me, left, others, beats, deliver;
      this.pullFails, this.fine, this.writes, this.bytes := pullFails, fine, writes, bytes;
      ops, s, events, log, pulled, settled := 0, P.INIT, [], [], [], [];
    }

    /** The state is that of a run of the whole pipeline. */
    ghost predicate Valid()
      reads this
    {
      s == Run(events) && (forall n: nat :: OfOthers(me, others(n))) && Beats(beats)
    }

    /** Where the worker stands. */
    function Me(): P.Worker
      reads this
    {
      P.WorkerAt(s, me)
    }

    /** Everything pulled is settled, in order, but for the message in hand, if any; what was acked
        here is acked in the pipeline. */
    ghost predicate Settled(inHand: nat)
      reads this
    {
      && |pulled| == |settled| + inHand
      && forall k :: 0 <= k < |settled| && settled[k] == H.Ack ==> pulled[k] in s.acked
    }

    /** The thread of the heartbeat system has received as many messages, acked the same, and stands here. */
    ghost predicate ThreadIs(pc: H.Pc, inHand: nat)
      reads this
    {
      Stands(log, pc, AcksOf(settled, inHand))
    }

    ghost predicate InHand()
      reads this
    {
      Settled(1) && ThreadIs(ThreadAt(Me()), 1)
    }

    ghost predicate AtPull()
      reads this
    {
      Me() == P.Idle && Settled(0) && ThreadIs(H.Pulling, 0)
    }

    /** A step of the thread. */
    ghost method Thread(e: H.Event, pc: H.Pc, next: H.Pc)
      requires Valid() && ThreadIs(pc, 1) && Leads(pc, e, next)
      modifies this`log
      ensures Valid() && ThreadIs(next, 1)
    {
      log := Does(log, beats, e, pc, next, AcksOf(settled, 1));
    }

    /** An operation of this worker; the others go first, and lead to the state `before` it. */
    method Do(e: P.WorkerEvent) returns (ghost before: P.State)
      requires Valid() && !e.Pull? && P.WorkerEnabled(s, Me(), e)
      modifies this`s, this`events, this`ops
      ensures Valid() && P.WorkerAt(before, me) == old(Me()) && s == P.WorkerStep(before, me, e)
      ensures old(s).acked <= s.acked
    {
      OthersLeaveMe(s, me, others(ops));
      AckedGrows(s, others(ops));
      ExecThenStep(events, others(ops), P.OfWorker(me, e));
      s := P.Exec(s, others(ops));
      before := s;
      events := events + others(ops) + [P.OfWorker(me, e)];
      s := P.Step(s, P.OfWorker(me, e));
      ops := ops + 1;
    }

    /** Any message of the queue, none once the context is cancelled, or an error. */
    method SynchronousPull() returns (r: Option<P.Message>, ok: bool)
      requires Valid() && AtPull()
      modifies this
      ensures Valid() && left <= old(left) && settled == old(settled)
      ensures !ok ==> r == None && pullFails(ops)
      ensures r == None ==>
        Me() == P.Idle && Settled(0) && pulled == old(pulled) && ThreadIs(if ok then H.Closing else H.Returned, 0)
      ensures r.Some? ==> left < old(left) && pulled == old(pulled) + [r.value]
                          && Me() == P.CheckingMetadata(r.value) && InHand()
    {
      ok := true;
      if left == 0 {
        r := None;
      } else if pullFails(ops) {
        r, ok := None, false;
      } else {
        r := Receive(deliver(ops));
      }
      if r == None { StopPulling(ok); }
    }

    /** The message is delivered if it is in the queue then. */
    method Receive(m: P.Message) returns (r: Option<P.Message>)
      requires Valid() && AtPull() && left > 0
      modifies this
      ensures Valid() && settled == old(settled)
      ensures r == None ==> AtPull() && pulled == old(pulled) && left == old(left)
      ensures r.Some? ==> left < old(left) && pulled == old(pulled) + [r.value]
                          && Me() == P.CheckingMetadata(r.value) && InHand()
    {
      var e := P.OfWorker(me, P.Pull(m));
      OthersLeaveMe(s, me, others(ops));
      AckedGrows(s, others(ops));
      ExecThenStep(events, others(ops), e);
      var t := P.Exec(s, others(ops));
      if m !in t.queue { return None; }
      s := P.Step(t, e);
      events := events + others(ops) + [e];
      ops, left, pulled := ops + 1, left - 1, pulled + [m];
      log := Pulls(log, beats, AcksOf(settled, 0));
      r := Some(m);
    }

    ghost method StopPulling(ok: bool)
      requires Valid() && ThreadIs(H.Pulling, 0)
      modifies this`log
      ensures Valid() && ThreadIs(if ok then H.Closing else H.Returned, 0)
    {
      if ok {
        log := PullsNothing(log, beats, AcksOf(settled, 0));
      } else {
        log := Does(log, beats, H.ReceiveFails, H.Pulling, H.Returned, AcksOf(settled, 0));
      }
    }

    method HasMetadataFile(m: P.Message) returns (found: bool, ok: bool)
      requires Valid() && Me() == P.CheckingMetadata(m) && InHand()
      modifies this`s, this`events, this`ops, this`log
      ensures Valid() && InHand()
      ensures Me() == if ok && found then P.CheckingResult(m) else P.Idle
    {
      ok := fine(ops);
      var _ := Do(P.CheckMetadata(ok));
      found := P.JobMetadata(m.job) in s.canonical;
      Thread(H.Metadata(ok && found), H.CheckingMetadata, ThreadAt(Me()));
    }

    method ResultExists(m: P.Message) returns (processed: bool, ok: bool)
      requires Valid() && Me() == P.CheckingResult(m) && InHand()
      modifies this`s, this`events, this`ops, this`log
      ensures Valid() && InHand()
      ensures Me() == if !ok then P.Idle else if processed then P.Acking(m) else P.Scanning(m)
    {
      ok := fine(ops);
      var _ := Do(P.CheckResult(ok));
      processed := P.Shard(m.job, m.shard) in s.canonical;
      Thread(H.Result(!ok, processed), H.CheckingResult, ThreadAt(Me()));
    }

    method Process(m: P.Message) returns (ok: bool)
      requires Valid() && Me() == P.Scanning(m) && InHand()
      modifies this`s, this`events, this`ops, this`log
      ensures Valid() && InHand()
      ensures Me() == if ok then P.Acking(m) else P.Idle
    {
      ok := ScanAndWrite(m);
      Thread(H.Process(ok), H.Processing, ThreadAt(Me()));
    }

    /** Scans, then writes the raw and the canonical shard file. */
    method ScanAndWrite(m: P.Message) returns (ok: bool)
      requires Valid() && Me() == P.Scanning(m) && Settled(1)
      modifies this`s, this`events, this`ops
      ensures Valid() && Settled(1)
      ensures Me() == if ok then P.Acking(m) else P.Idle
    {
      if !fine(ops) {
        var _ := Do(P.ScanFailed);
        return false;
      }
      var w := writes(ops);
      var _ := Do(P.WriteRaw(bytes(ops), w));
      if w != Written { return false; }
      w := writes(ops);
      var _ := Do(P.WriteCanonical(bytes(ops), w));
      ok := w == Written;
    }

    method PostProcess()
      requires Valid() && Me().Acking? && InHand()
      modifies this`log
      ensures Valid() && ThreadIs(H.Stopping(H.Ack), 1)
    {
      Thread(H.PostProcess, H.PostProcessing, H.Stopping(H.Ack));
    }

    method AckMessage(m: P.Message)
      requires Valid() && Me() == P.Acking(m) && Settled(1) && ThreadIs(H.Stopping(H.Ack), 1)
      requires pulled[|pulled| - 1] == m
      modifies this
      ensures Valid() && AtPull()
      ensures left == old(left) && pulled == old(pulled) && settled == old(settled) + [H.Ack]
    {
      var _ := Do(P.Ack);
      Settle(H.Ack);
    }

    method NackMessage()
      requires Valid() && Me() == P.Idle && InHand()
      modifies this`settled, this`log
      ensures Valid() && AtPull()
      ensures settled == old(settled) + [H.Nack]
    {
      Settle(H.Nack);
    }

    /** The heartbeat is stopped and waited for, and the message settled. */
    method Settle(how: H.Settlement)
      requires Valid() && Settled(1) && ThreadIs(H.Stopping(how), 1)
      requires how == H.Ack ==> pulled[|pulled| - 1] in s.acked
      modifies this`settled, this`log
      ensures Valid() && Settled(0) && ThreadIs(H.Pulling, 0) && settled == old(settled) + [how]
    {
      log := StopsAndSettles(log, beats, how, AcksOf(settled, 1));
      assert AcksOf(settled + [how], 0) == AcksOf(settled, 1)[..|settled|] + [how == H.Ack];
      settled := settled + [how];
    }

    /** What is left of the last heartbeat is stopped and waited for. */
    method Close()
      requires Valid() && ThreadIs(H.Closing, 0)
      modifies this`log
      ensures Valid() && ThreadIs(H.Returned, 0)
    {
      log := Closes(log, beats, AcksOf(settled, 0));
    }
  }

  lemma {:induction false} AckedGrows(s: P.State, events: seq<P.Event>)
    ensures s.acked <= P.Exec(s, events).acked
    decreases |events|
  {
    if events != [] {
      StepAcks(s, events[0]);
      AckedGrows(P.Step(s, events[0]), events[1..]);
    }
  }

  lemma StepAcks(s: P.State, e: P.Event)
    ensures s.acked <= P.Step(s, e).acked
  {
  }

  /** The message's canonical and raw result exist, and the metadata of its job. */
  ghost predicate HasResults(s: P.State, m: P.Message) {
    && Valid(m.job) && ResultFilename(Time(m.job, 0), m.shard) in Render(s.canonical)
    && ResultFilename(Time(m.job, 0), m.shard) in Render(s.raw)
    && MetadataKey(m.job) in Render(s.canonical)
  }

  lemma AckedHasResults(events: seq<P.Event>)
    ensures forall m :: m in Run(events).acked ==> HasResults(Run(events), m)
  {
    WriteOrder(events);
  }

  /** The rest of a turn whose lookups succeeded: the work, unless it is done already. */
  method Finish(world: World, m: P.Message, processed: bool)
    requires world.Valid() && world.InHand() && world.pulled[|world.pulled| - 1] == m
    requires world.Me() == if processed then P.Acking(m) else P.Scanning(m)
    modifies world
    ensures world.Valid() && world.AtPull()
    ensures world.left == old(world.left) && world.pulled == old(world.pulled) && old(world.settled) < world.settled
  {
    if !processed {
      var ok := world.Process(m);
      if !ok { world.NackMessage(); return; }
    }
    world.PostProcess();
    world.AckMessage(m);
  }

  /** The message in hand is settled: nacked unless its work is done. */
  method Handle(world: World, m: P.Message)
    requires world.Valid() && world.Me() == P.CheckingMetadata(m) && world.InHand()
    requires world.pulled[|world.pulled| - 1] == m
    modifies world
    ensures world.Valid() && world.AtPull()
    ensures world.left == old(world.left) && world.pulled == old(world.pulled) && old(world.settled) < world.settled
  {
    var hasMd, ok := world.HasMetadataFile(m);
    if !ok { world.NackMessage(); return; }
    if !hasMd { world.NackMessage(); return; }
    var processed;
    processed, ok := world.ResultExists(m);
    if !ok { world.NackMessage(); return; }
    Finish(world, m, processed);
  }

  /** WorkLoop.Run, until its context is cancelled or a pull fails: every message pulled is settled
      once, before the next is pulled, so none is in hand at the end; and whatever everyone else does,
      an acked message has its result, the raw and the canonical one, and its job has its metadata. All of
      it is a run of the heartbeat system to its end, which acked the same messages. */
  method RunLoop(world: World) returns (ok: bool)
    requires world.Valid() && world.Me() == P.Idle && world.pulled == [] && world.settled == [] && world.log == []
    modifies world
    ensures world.Valid() && world.Me() == P.Idle
    ensures !ok ==> world.pullFails(world.ops)
    ensures |world.settled| == |world.pulled|
    ensures forall k :: 0 <= k < |world.pulled| && world.settled[k] == H.Ack ==> HasResults(world.s, world.pulled[k])
    ensures world.ThreadIs(H.Returned, 0)
  {
    while true
      invariant world.Valid() && world.AtPull()
      decreases world.left
    {
      var req;
      req, ok := world.SynchronousPull();
      if req.None? { break; }
      Handle(world, req.value);
    }
    AckedHasResults(world.events);
    if ok { world.Close(); }
  }
}
