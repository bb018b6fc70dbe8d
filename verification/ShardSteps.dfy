/** The processing of a request, as steps of the pipeline's worker: whatever it attempts on the api
    bucket, its two shard files are the worker's two writes, and nothing else of it is. */
module ShardSteps {
  import opened Wrappers
  import opened Calendar
  import opened BlobNames
  import opened Controller
  import opened ShardWorker
  import opened Summary
  import opened PipelineResults
  import P = Pipeline

  /** The worker's steps that these attempts are; one that stops before the shard files has failed. */
  function StepsOf(attempts: seq<Write>, results: nat -> WriteResult): seq<P.WorkerEvent> {
    var n := |attempts|;
    if n >= 2 && attempts[n - 1].store == Canonical then
      [P.WriteRaw(attempts[n - 2].bytes, results(n - 2)), P.WriteCanonical(attempts[n - 1].bytes, results(n - 1))]
    else if n >= 1 && attempts[n - 1].store == RawResults then [P.WriteRaw(attempts[n - 1].bytes, results(n - 1))]
    else [P.ScanFailed]
  }

  /** What attempts on one bucket leave there under one name. */
  function After(store: P.Store, which: ShardWorker.Store, name: P.Name, attempts: seq<Write>,
                 results: nat -> WriteResult): P.Store
  {
    if attempts == [] then store
    else
      var n := |attempts| - 1;
      var before := After(store, which, name, attempts[..n], results);
      if attempts[n].store == which then AfterWrite(before, name, Bytes(attempts[n].bytes), results(n)) else before
  }

  lemma {:induction false} AfterNone(store: P.Store, which: ShardWorker.Store, name: P.Name, attempts: seq<Write>,
                                     results: nat -> WriteResult)
    requires forall i :: 0 <= i < |attempts| ==> attempts[i].store != which
    ensures After(store, which, name, attempts, results) == store
  {
    if attempts != [] { AfterNone(store, which, name, attempts[..|attempts| - 1], results); }
  }

  ghost function WorkerRun(s: P.State, i: nat, events: seq<P.WorkerEvent>): P.State
    decreases |events|
  {
    if events == [] then s else WorkerRun(P.WorkerStep(s, i, events[0]), i, events[1..])
  }

  predicate AllApi(attempts: seq<Write>) { forall j :: 0 <= j < |attempts| ==> attempts[j].store == Api }

  predicate Ends(attempts: seq<Write>, k: nat, which: ShardWorker.Store, name: string) {
    k <= |attempts| && k > 0 && attempts[|attempts| - k].store == which && attempts[|attempts| - k].key == name
  }

  /** Attempts that end before the shard files, after a failed raw file, or with both. */
  predicate Shaped(attempts: seq<Write>, name: string, results: nat -> WriteResult) {
    var n := |attempts|;
    || AllApi(attempts)
    || (Ends(attempts, 1, RawResults, name) && results(n - 1) != Written && AllApi(attempts[..n - 1]))
    || (Ends(attempts, 1, Canonical, name) && Ends(attempts, 2, RawResults, name) && results(n - 2) == Written
        && AllApi(attempts[..n - 2]))
  }

  /** Written exactly when the canonical file was attempted, and that attempt succeeded. */
  predicate Done(attempts: seq<Write>, results: nat -> WriteResult) {
    attempts != [] && attempts[|attempts| - 1].store == Canonical && results(|attempts| - 1) == Written
  }

  lemma RunOne(s: P.State, i: nat, e: P.WorkerEvent)
    ensures WorkerRun(s, i, [e]) == P.WorkerStep(s, i, e)
  {
    assert WorkerRun(s, i, [e]) == WorkerRun(P.WorkerStep(s, i, e), i, []);
  }

  lemma RunTwo(s: P.State, i: nat, d: P.WorkerEvent, e: P.WorkerEvent)
    ensures WorkerRun(s, i, [d, e]) == P.WorkerStep(P.WorkerStep(s, i, d), i, e)
  {
    assert [d, e][1..] == [e];
    RunOne(P.WorkerStep(s, i, d), i, e);
  }

  predicate Reaches(s: P.State, t: P.State, i: nat, m: P.Message, attempts: seq<Write>, results: nat -> WriteResult) {
    var shard := P.Shard(m.job, m.shard);
    && P.WorkerAt(t, i) == (if Done(attempts, results) then P.Acking(m) else P.Idle)
    && t.raw == After(s.raw, RawResults, shard, attempts, results)
    && t.canonical == After(s.canonical, Canonical, shard, attempts, results)
  }

  lemma AfterBoth(store: P.Store, name: P.Name, attempts: seq<Write>, results: nat -> WriteResult)
    requires |attempts| >= 2 && AllApi(attempts[..|attempts| - 2])
    requires attempts[|attempts| - 1].store == Canonical && attempts[|attempts| - 2].store == RawResults
    ensures var n := |attempts|;
      && After(store, RawResults, name, attempts, results) ==
           AfterWrite(store, name, Bytes(attempts[n - 2].bytes), results(n - 2))
      && After(store, Canonical, name, attempts, results) ==
           AfterWrite(store, name, Bytes(attempts[n - 1].bytes), results(n - 1))
  {
    var n := |attempts|;
    assert attempts[..n - 1][..n - 2] == attempts[..n - 2];
    AfterNone(store, RawResults, name, attempts[..n - 2], results);
    AfterNone(store, Canonical, name, attempts[..n - 1], results);
  }

  lemma BothReach(s: P.State, i: nat, m: P.Message, attempts: seq<Write>, name: string, results: nat -> WriteResult)
    requires P.WorkerAt(s, i) == P.Scanning(m) && |attempts| >= 2 && AllApi(attempts[..|attempts| - 2])
    requires Ends(attempts, 1, Canonical, name) && Ends(attempts, 2, RawResults, name)
    requires results(|attempts| - 2) == Written
    ensures Reaches(s, WorkerRun(s, i, StepsOf(attempts, results)), i, m, attempts, results)
  {
    var n, shard := |attempts|, P.Shard(m.job, m.shard);
    RunTwo(s, i, P.WriteRaw(attempts[n - 2].bytes, results(n - 2)), P.WriteCanonical(attempts[n - 1].bytes, results(n - 1)));
    AfterBoth(s.raw, shard, attempts, results);
    AfterBoth(s.canonical, shard, attempts, results);
  }

  lemma RawReaches(s: P.State, i: nat, m: P.Message, attempts: seq<Write>, name: string, results: nat -> WriteResult)
    requires P.WorkerAt(s, i) == P.Scanning(m) && Ends(attempts, 1, RawResults, name)
    requires results(|attempts| - 1) != Written && AllApi(attempts[..|attempts| - 1])
    ensures Reaches(s, WorkerRun(s, i, StepsOf(attempts, results)), i, m, attempts, results)
  {
    var n, shard := |attempts|, P.Shard(m.job, m.shard);
    RunOne(s, i, P.WriteRaw(attempts[n - 1].bytes, results(n - 1)));
    AfterNone(s.raw, RawResults, shard, attempts[..n - 1], results);
    AfterNone(s.canonical, Canonical, shard, attempts[..n - 1], results);
  }

  lemma NoneReaches(s: P.State, i: nat, m: P.Message, attempts: seq<Write>, results: nat -> WriteResult)
    requires P.WorkerAt(s, i) == P.Scanning(m) && AllApi(attempts)
    ensures Reaches(s, WorkerRun(s, i, StepsOf(attempts, results)), i, m, attempts, results)
  {
    RunOne(s, i, P.ScanFailed);
    AfterNone(s.raw, RawResults, P.Shard(m.job, m.shard), attempts, results);
    AfterNone(s.canonical, Canonical, P.Shard(m.job, m.shard), attempts, results);
  }

  lemma ShapedReaches(s: P.State, i: nat, m: P.Message, attempts: seq<Write>, name: string, results: nat -> WriteResult)
    requires P.WorkerAt(s, i) == P.Scanning(m) && Shaped(attempts, name, results)
    ensures Reaches(s, WorkerRun(s, i, StepsOf(attempts, results)), i, m, attempts, results)
    ensures forall j :: 0 <= j < |attempts| && attempts[j].store != Api ==> attempts[j].key == name
  {
    if AllApi(attempts) {
      NoneReaches(s, i, m, attempts, results);
    } else if Ends(attempts, 1, Canonical, name) {
      BothReach(s, i, m, attempts, name, results);
    } else {
      RawReaches(s, i, m, attempts, name, results);
    }
  }

  /** A failed write may be lost or have landed. */
  function Results(b: Buckets, failure: nat -> WriteResult): nat -> WriteResult {
    (j: nat) => if b.succeeds(j) then Written else failure(j)
  }

  /** What processing leaves has the shape of the worker's steps. */
  lemma PrefixShaped(b: Buckets, scans: seq<Scan>, filename: string, n: nat, failure: nat -> WriteResult)
    requires Followed(b, [], Plan(scans, filename), n)
    requires forall j :: failure(j) != Written
    requires n < |Plan(scans, filename)| ==> n > 0 && !b.succeeds(n - 1)
    ensures Shaped(b.attempts, filename, Results(b, failure))
  {
    var plan := Plan(scans, filename);
    CanonicalLast(scans, filename);
    assert b.attempts == plan[..n];
    if Unbroken(scans) < |scans| {
      ExportsAreApi(scans[..Unbroken(scans)]);
    } else {
      ExportsAreApi(scans);
      assert scans[..|scans|] == scans;
      assert plan == AllExports(scans) + ShardWrites(scans, filename);
    }
  }

  lemma ShapedAndDone(b: Buckets, scans: seq<Scan>, filename: string, n: nat, ok: bool, failure: nat -> WriteResult)
    requires Followed(b, [], Plan(scans, filename), n) && forall j :: failure(j) != Written
    requires ok ==> Unbroken(scans) == |scans| && n == |Plan(scans, filename)| && AllSucceed(b, 0, n)
    requires !ok ==> Stopped(b, [], scans, filename, n)
    ensures Shaped(b.attempts, filename, Results(b, failure))
    ensures Done(b.attempts, Results(b, failure)) == ok
  {
    PrefixShaped(b, scans, filename, n, failure);
    CanonicalLast(scans, filename);
  }

  /** What a processed request's attempts are as worker's steps. */
  ghost predicate Refines(b: Buckets, m: P.Message, ok: bool, s: P.State, i: nat, results: nat -> WriteResult)
    requires Valid(m.job)
    reads b
  {
    && Reaches(s, WorkerRun(s, i, StepsOf(b.attempts, results)), i, m, b.attempts, results)
    && ok == Done(b.attempts, results)
    && forall j :: 0 <= j < |b.attempts| && b.attempts[j].store != Api ==>
         b.attempts[j].key == ObjectName(P.Shard(m.job, m.shard))
  }

  lemma ProcessRefines(b: Buckets, m: P.Message, scans: seq<Scan>, n: nat, ok: bool, s: P.State, i: nat,
                       failure: nat -> WriteResult)
    requires Valid(m.job) && P.WorkerAt(s, i) == P.Scanning(m) && forall j :: failure(j) != Written
    requires var name := ResultFilename(Time(m.job, 0), m.shard);
      && Followed(b, [], Plan(scans, name), n)
      && (ok ==> Unbroken(scans) == |scans| && n == |Plan(scans, name)| && AllSucceed(b, 0, n))
      && (!ok ==> Stopped(b, [], scans, name, n))
    ensures Refines(b, m, ok, s, i, Results(b, failure))
  {
    ShapedAndDone(b, scans, ResultFilename(Time(m.job, 0), m.shard), n, ok, failure);
    ShapedReaches(s, i, m, b.attempts, ObjectName(P.Shard(m.job, m.shard)), Results(b, failure));
  }

  lemma WholeFollowed(b: Buckets, plan: seq<Write>)
    requires b.attempts == [] + plan && AllSucceed(b, 0, |b.attempts|)
    ensures Followed(b, [], plan, |plan|)
  {
    assert plan[..|plan|] == plan;
  }

  /** Processing a request moves the worker of the pipeline as its steps do: to acking exactly when it
      succeeds, and what it leaves in the raw and the canonical bucket is what they leave. */
  method Process(b: Buckets, m: P.Message, requests: seq<RepoRequest>, scan: RepoRequest -> Scan,
                 ghost s: P.State, ghost i: nat, ghost failure: nat -> WriteResult)
    returns (ok: bool)
    requires Valid(m.job) && b.attempts == [] && P.WorkerAt(s, i) == P.Scanning(m)
    requires forall j :: failure(j) != Written
    modifies b
    ensures Refines(b, m, ok, s, i, Results(b, failure))
  {
    ghost var n;
    ok, n := ProcessRequest(b, Time(m.job, 0), m.shard, requests, scan);
    ghost var scans, plan := Scans(requests, scan), Plan(Scans(requests, scan), ResultFilename(Time(m.job, 0), m.shard));
    if ok {
      n := |plan|;
      WholeFollowed(b, plan);
    }
    ProcessRefines(b, m, scans, n, ok, s, i, failure);
  }
}
