/** Runs of the pipeline that nothing excludes. */
module PipelineRuns {
  import opened Wrappers
  import opened Calendar
  import opened PipelineResults
  import opened ControllerSteps
  import P = Pipeline

  lemma Then(events: seq<P.Event>, s: P.State, e: P.Event) returns (more: seq<P.Event>)
    requires Run(events) == s
    ensures more == events + [e] && Run(more) == P.Step(s, e)
  {
    more := events + [e];
    ExecOne(P.INIT, events, e);
  }

  /** Ready for this message to be worked on, with no worker at work yet. */
  ghost predicate Waits(s: P.State, m: P.Message) {
    s.workers == map[] && m in s.queue && P.JobMetadata(m.job) in s.canonical && P.Shard(m.job, m.shard) !in s.canonical
  }

  /** A job of n shards, published. */
  lemma Published(job: DateTime, n: nat, k: nat) returns (events: seq<P.Event>)
    requires Valid(job) && k < n
    ensures Waits(Run(events), P.Message(job, k))
  {
    var fates := Fates((_: nat) => true, (_: nat) => false);
    events := [P.StartController(job, n)] + Publishes(job, n) + Sends(job, n, fates);
    SentRun(P.INIT, job, n, n, fates);
    RefusedNone(n, fates.accepts);
    assert From(n, n) == {};
    var c, s := Sending(n, n, n, fates), Sent(P.INIT, job, n, n, n, fates);
    assert fates.Reaches()(k) && P.Message(job, k) in s.queue;
    events := Then(events, s, Of(job, P.ClosePublisher));
    CloseStep(s, job, c);
    var closed := P.NextController(c, P.ClosePublisher);
    events := Then(events, Put(s, job, closed), Of(job, P.WriteMetadata("", Written, false)));
    MetadataStep(s, job, closed, "", Written, false);
  }

  /** The state s with these two workers. */
  function Two(s: P.State, a: P.Worker, b: P.Worker): P.State { s.(workers := map[0 := a, 1 := b]) }

  lemma BothPull(s: P.State, m: P.Message)
    requires Waits(s, m)
    ensures P.Step(P.Step(s, P.OfWorker(0, P.Pull(m))), P.OfWorker(1, P.Pull(m))) ==
            Two(s, P.CheckingMetadata(m), P.CheckingMetadata(m))
  {
    assert P.Step(s, P.OfWorker(0, P.Pull(m))) == s.(workers := map[0 := P.CheckingMetadata(m)]);
  }

  predicate Lookup(e: P.WorkerEvent) { e.CheckMetadata? || e.CheckResult? }

  /** A lookup moves only the worker that makes it. */
  lemma FirstMoves(s: P.State, a: P.Worker, b: P.Worker, e: P.WorkerEvent)
    requires Lookup(e) && P.WorkerEnabled(s, a, e)
    ensures P.Step(Two(s, a, b), P.OfWorker(0, e)) == Two(s, P.NextWorker(s, a, e), b)
  {
    assert map[0 := a, 1 := b][0 := P.NextWorker(s, a, e)] == map[0 := P.NextWorker(s, a, e), 1 := b];
  }

  lemma SecondMoves(s: P.State, a: P.Worker, b: P.Worker, e: P.WorkerEvent)
    requires Lookup(e) && P.WorkerEnabled(s, b, e)
    ensures P.Step(Two(s, a, b), P.OfWorker(1, e)) == Two(s, a, P.NextWorker(s, b, e))
  {
    assert map[0 := a, 1 := b][1 := P.NextWorker(s, b, e)] == map[0 := a, 1 := P.NextWorker(s, b, e)];
  }

  /** Both make the same lookup. */
  lemma BothMove(events: seq<P.Event>, s: P.State, a: P.Worker, e: P.WorkerEvent) returns (more: seq<P.Event>)
    requires Run(events) == Two(s, a, a) && Lookup(e) && P.WorkerEnabled(s, a, e)
    ensures Run(more) == Two(s, P.NextWorker(s, a, e), P.NextWorker(s, a, e))
  {
    FirstMoves(s, a, a, e);
    more := Then(events, Two(s, a, a), P.OfWorker(0, e));
    SecondMoves(s, P.NextWorker(s, a, e), a, e);
    more := Then(more, Two(s, P.NextWorker(s, a, e), a), P.OfWorker(1, e));
  }

  /** Whatever the shard, a run in which its message is pulled twice and both workers come to scan it. */
  lemma TwoWorkersOneShard(job: DateTime, n: nat, k: nat) returns (events: seq<P.Event>)
    requires Valid(job) && k < n
    ensures var s := Run(events); P.WorkerAt(s, 0) == P.WorkerAt(s, 1) == P.Scanning(P.Message(job, k))
  {
    var m := P.Message(job, k);
    events := Published(job, n, k);
    var s := Run(events);
    BothPull(s, m);
    events := Then(events, s, P.OfWorker(0, P.Pull(m)));
    events := Then(events, P.Step(s, P.OfWorker(0, P.Pull(m))), P.OfWorker(1, P.Pull(m)));
    events := BothMove(events, s, P.CheckingMetadata(m), P.CheckMetadata(true));
    events := BothMove(events, s, P.CheckingResult(m), P.CheckResult(true));
  }
}
