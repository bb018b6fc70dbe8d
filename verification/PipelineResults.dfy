/** What the pipeline guarantees in every run, stated on the object keys in the buckets. */
module PipelineResults {
  import opened Calendar
  import opened BlobNames
  import opened Summary
  import P = Pipeline
  import Safety = PipelineSafety

  // ---- Object names ----

  /** The key each object is stored under. */
  function ObjectName(name: P.Name): string
    requires Valid(name.job)
  {
    match name
    case Shard(job, number) => ResultFilename(Time(job, 0), number)
    case JobMetadata(job) => MetadataKey(job)
    case JobStatus(job) => StatusKey(job)
  }

  function FileName(name: P.Name): string {
    match name
    case Shard(_, number) => ShardName(number)
    case JobMetadata(_) => SHARD_METADATA
    case JobStatus(_) => TRANSFER_STATUS
  }

  function NameKind(name: P.Name): Kind {
    match name
    case Shard(_, _) => ShardFile
    case JobMetadata(_) => MetadataFile
    case JobStatus(_) => StatusFile
  }

  lemma NameParses(name: P.Name)
    requires Valid(name.job)
    ensures Parses(ObjectName(name)) && TimeOf(ObjectName(name)) == name.job
    ensures FileOf(ObjectName(name)) == FileName(name) && KindOf(FileName(name)) == NameKind(name)
  {
    ParseUndoesFormat(FileName(name), Time(name.job, 0));
    KindsOfNames();
    if name.Shard? {
      assert FileName(name)[..|SHARD_PREFIX|] == SHARD_PREFIX;
    }
  }

  /** Different objects have different keys. */
  lemma NamesDiffer(m: P.Name, n: P.Name)
    requires Valid(m.job) && Valid(n.job)
    ensures ObjectName(m) == ObjectName(n) <==> m == n
  {
    NameParses(m);
    NameParses(n);
    if ObjectName(m) == ObjectName(n) && m.Shard? { ShardNameInjective(m.number, n.number); }
  }

  /** A bucket as its clients see it: keys and contents. */
  ghost function Render(store: P.Store): (b: Bucket)
    ensures forall name :: name in store && Valid(name.job) ==>
              ObjectName(name) in b && b[ObjectName(name)] == store[name]
    ensures forall key :: key in b ==>
              exists name :: name in store && Valid(name.job) && ObjectName(name) == key
  {
    assert forall m: P.Name, n: P.Name :: Valid(m.job) && Valid(n.job) && ObjectName(m) == ObjectName(n) ==> m == n by {
      forall m: P.Name, n: P.Name | Valid(m.job) && Valid(n.job) && ObjectName(m) == ObjectName(n) ensures m == n {
        NamesDiffer(m, n);
      }
    }
    map name | name in store && Valid(name.job) :: ObjectName(name) := store[name]
  }

  // ---- Runs ----

  ghost function Run(events: seq<P.Event>): P.State { P.Exec(P.INIT, events) }

  lemma RunOk(events: seq<P.Event>)
    ensures P.Inv(Run(events))
    ensures forall name :: name in Run(events).canonical ==> Valid(name.job)
  {
    Safety.InitOk();
    Safety.RunKeeps(P.INIT, events);
    var s := Run(events);
    forall name | name in s.canonical ensures Valid(name.job) {
      assert P.ObjectOk(s, name);
      Safety.MetadataHasController(s, name.job);
      assert P.ControllerOk(s, name.job);
    }
  }

  lemma {:induction false} ExecAppend(s: P.State, xs: seq<P.Event>, ys: seq<P.Event>)
    ensures P.Exec(s, xs + ys) == P.Exec(P.Exec(s, xs), ys)
    decreases |xs|
  {
    if xs == [] {
      assert xs + ys == ys;
    } else {
      assert (xs + ys)[1..] == xs[1..] + ys;
      ExecAppend(P.Step(s, xs[0]), xs[1..], ys);
    }
  }

  lemma ExecOne(s: P.State, events: seq<P.Event>, e: P.Event)
    ensures P.Exec(s, events + [e]) == P.Step(P.Exec(s, events), e)
  {
    ExecAppend(s, events, [e]);
    assert P.Exec(P.Exec(s, events), [e]) == P.Exec(P.Step(P.Exec(s, events), e), []);
  }

  /** A run through given states. */
  lemma {:induction false} Chain(states: seq<P.State>, events: seq<P.Event>)
    requires |states| == |events| + 1
    requires forall i: nat :: i < |events| ==> P.Step(states[i], events[i]) == states[i + 1]
    ensures P.Exec(states[0], events) == states[|events|]
    decreases |events|
  {
    if events != [] {
      forall i: nat | i < |events| - 1 ensures P.Step(states[1..][i], events[1..][i]) == states[1..][i + 1] {
        assert P.Step(states[i + 1], events[i + 1]) == states[i + 2];
      }
      Chain(states[1..], events[1..]);
    }
  }

  // ---- Write order across processes ----

  /** An acked message's result is in the canonical bucket; a canonical result implies the raw
      result and the job's metadata; metadata implies the queue accepted every shard of the job. */
  lemma WriteOrder(events: seq<P.Event>)
    ensures var s := Run(events);
      var canonical, raw := Render(s.canonical), Render(s.raw);
      && (forall m :: m in s.acked ==> Valid(m.job) && ResultFilename(Time(m.job, 0), m.shard) in canonical)
      && (forall job: DateTime, k: nat :: Valid(job) && ResultFilename(Time(job, 0), k) in canonical ==>
            ResultFilename(Time(job, 0), k) in raw && MetadataKey(job) in canonical)
      && (forall job: DateTime :: Valid(job) && MetadataKey(job) in canonical ==>
            && job in s.controllers
            && canonical[MetadataKey(job)].Metadata?
            && canonical[MetadataKey(job)].numShard == s.controllers[job].total
            && forall k: nat :: k < s.controllers[job].total ==> P.Message(job, k) in s.accepted)
  {
    var s := Run(events);
    RunOk(events);
    var canonical, raw := Render(s.canonical), Render(s.raw);
    forall m | m in s.acked ensures Valid(m.job) && ResultFilename(Time(m.job, 0), m.shard) in canonical {
      var name := P.Shard(m.job, m.shard);
      assert name in s.canonical;
      assert ObjectName(name) in canonical;
    }
    forall job: DateTime, k: nat | Valid(job) && ResultFilename(Time(job, 0), k) in canonical
      ensures ResultFilename(Time(job, 0), k) in raw && MetadataKey(job) in canonical
    {
      var name := P.Shard(job, k);
      Stored(s.canonical, name);
      assert P.ObjectOk(s, name);
      assert ObjectName(name) in raw;
      assert ObjectName(P.JobMetadata(job)) in canonical;
    }
    forall job: DateTime | Valid(job) && MetadataKey(job) in canonical
      ensures && job in s.controllers
              && canonical[MetadataKey(job)].Metadata?
              && canonical[MetadataKey(job)].numShard == s.controllers[job].total
              && forall k: nat :: k < s.controllers[job].total ==> P.Message(job, k) in s.accepted
    {
      var name := P.JobMetadata(job);
      Stored(s.canonical, name);
      assert P.ObjectOk(s, name);
      assert canonical[ObjectName(name)] == s.canonical[name];
    }
  }

  /** A key is in the rendered bucket exactly when the object is in the store. */
  lemma Stored(store: P.Store, name: P.Name)
    requires Valid(name.job)
    ensures ObjectName(name) in Render(store) <==> name in store
  {
    if ObjectName(name) in Render(store) {
      var n :| n in store && Valid(n.job) && ObjectName(n) == ObjectName(name);
      NamesDiffer(n, name);
    }
  }

  // ---- The summary of a pipeline bucket ----

  ghost function Image(names: set<P.Name>): set<string>
    requires forall n :: n in names ==> Valid(n.job)
  {
    set n | n in names :: ObjectName(n)
  }

  lemma {:induction false} ImageSize(names: set<P.Name>)
    requires forall n :: n in names ==> Valid(n.job)
    ensures |Image(names)| == |names|
  {
    if names != {} {
      var n :| n in names;
      ImageSize(names - {n});
      if ObjectName(n) in Image(names - {n}) {
        var m :| m in names - {n} && ObjectName(m) == ObjectName(n);
        NamesDiffer(m, n);
      }
      assert Image(names) == Image(names - {n}) + {ObjectName(n)};
    }
  }

  /** Every key of a rendered bucket is some object's name. */
  lemma NameOf(store: P.Store, key: string) returns (n: P.Name)
    requires key in Render(store)
    ensures n in store && Valid(n.job) && ObjectName(n) == key && Render(store)[key] == store[n]
    ensures Parses(key) && TimeOf(key) == n.job && FileOf(key) == FileName(n) && KindOf(FileOf(key)) == NameKind(n)
  {
    n :| n in store && Valid(n.job) && ObjectName(n) == key;
    NameParses(n);
  }

  lemma ShardKeys(store: P.Store, job: DateTime)
    requires Valid(job) && forall name :: name in store ==> Valid(name.job)
    ensures ShardFiles(Render(store).Keys, job) == Image(P.ShardsOf(store, job))
  {
    var b, shards := Render(store), P.ShardsOf(store, job);
    forall key | key in ShardFiles(b.Keys, job) ensures key in Image(shards) {
      var n := NameOf(store, key);
      assert n in shards;
    }
    forall key | key in Image(shards) ensures key in ShardFiles(b.Keys, job) {
      var n :| n in shards && ObjectName(n) == key;
      NameParses(n);
      assert key in b;
    }
  }

  /** GetBucketSummary's row for a job is the pipeline's own row. */
  lemma RowRendered(store: P.Store, job: DateTime)
    requires Valid(job) && forall name :: name in store ==> Valid(name.job)
    ensures RowOf(Render(store).Keys, Render(store), job) == P.JobRow(store, job)
  {
    var metadata, status := P.JobMetadata(job), P.JobStatus(job);
    Stored(store, metadata);
    Stored(store, status);
    assert ObjectName(metadata) == MetadataKey(job) && ObjectName(status) == StatusKey(job);
    assert metadata in store ==> Render(store)[MetadataKey(job)] == store[metadata];
    ShardKeys(store, job);
    ImageSize(P.ShardsOf(store, job));
  }

  lemma TimeIsJob(store: P.Store, job: DateTime)
    requires job in Times(Render(store).Keys)
    ensures job in P.Jobs(store)
  {
    var key :| key in Render(store).Keys && Parses(key) && TimeOf(key) == job;
    var n := NameOf(store, key);
    assert n in store && n.job == job;
  }

  lemma JobIsTime(store: P.Store, job: DateTime)
    requires job in P.Jobs(store) && forall name :: name in store ==> Valid(name.job)
    ensures job in Times(Render(store).Keys) && Valid(job)
  {
    var n :| n in store && n.job == job;
    NameParses(n);
    var key := ObjectName(n);
    assert key in Render(store).Keys && Parses(key) && TimeOf(key) == job;
  }

  lemma TimesWithinJobs(store: P.Store)
    ensures Times(Render(store).Keys) <= P.Jobs(store)
  {
    forall job | job in Times(Render(store).Keys) ensures job in P.Jobs(store) { TimeIsJob(store, job); }
  }

  lemma AllRecognised(s: P.State)
    requires P.ObjectsOk(s) && forall name :: name in s.canonical ==> Valid(name.job)
    ensures Summarisable(Render(s.canonical))
  {
    var b := Render(s.canonical);
    forall key | key in b ensures Recognised(key, b[key]) {
      var n := NameOf(s.canonical, key);
      assert P.ObjectOk(s, n);
    }
  }

  lemma RowsRenderedAt(store: P.Store, job: DateTime)
    requires job in P.Jobs(store) && forall name :: name in store ==> Valid(name.job)
    ensures job in Summarise(Render(store)) && Summarise(Render(store))[job] == P.JobRows(store)[job]
  {
    JobIsTime(store, job);
    RowRendered(store, job);
  }

  lemma SameRows(left: map<DateTime, Row>, right: map<DateTime, Row>)
    requires left.Keys <= right.Keys
    requires forall job :: job in right ==> job in left && left[job] == right[job]
    ensures left == right
  {
  }

  lemma RowsRendered(store: P.Store)
    requires forall name :: name in store ==> Valid(name.job)
    ensures Summarise(Render(store)) == P.JobRows(store)
  {
    var left, right := Summarise(Render(store)), P.JobRows(store);
    TimesWithinJobs(store);
    forall job | job in right ensures job in left && left[job] == right[job] { RowsRenderedAt(store, job); }
    SameRows(left, right);
  }

  /** Every bucket the pipeline can produce is summarised without error, row by row. */
  lemma PipelineBucketSummarises(events: seq<P.Event>)
    ensures var s := Run(events);
      Summarisable(Render(s.canonical)) && Summarise(Render(s.canonical)) == P.JobRows(s.canonical)
  {
    var store := Run(events).canonical;
    RunOk(events);
    AllRecognised(Run(events));
    RowsRendered(store);
  }

  // ---- Completion ----

  ghost function Expected(job: DateTime, n: nat): set<P.Name> {
    set k: nat | k < n :: P.Shard(job, k)
  }

  lemma {:induction false} ExpectedSize(job: DateTime, n: nat)
    ensures |Expected(job, n)| == n
  {
    if n > 0 {
      ExpectedSize(job, n - 1);
      assert Expected(job, n) == Expected(job, n - 1) + {P.Shard(job, n - 1)};
    }
  }

  lemma SubsetSize(a: set<P.Name>, b: set<P.Name>)
    requires a <= b
    ensures |a| <= |b| && (|a| == |b| ==> a == b)
  {
    assert b == a + (b - a);
  }

  /** When all shards of a job lie among the expected ones, counting n of them means having them all. */
  lemma AllCounted(store: P.Store, job: DateTime, n: nat)
    requires P.ShardsOf(store, job) <= Expected(job, n)
    ensures |P.ShardsOf(store, job)| >= n <==> forall k: nat :: k < n ==> P.Shard(job, k) in store
  {
    var shards := P.ShardsOf(store, job);
    ExpectedSize(job, n);
    SubsetSize(shards, Expected(job, n));
    if |shards| >= n {
      forall k: nat | k < n ensures P.Shard(job, k) in store { assert P.Shard(job, k) in shards; }
    }
    if forall k: nat :: k < n ==> P.Shard(job, k) in store {
      SubsetSize(Expected(job, n), shards);
    }
  }

  lemma ShardsNeedMetadata(s: P.State)
    requires P.ObjectsOk(s)
    ensures forall name :: name in s.canonical && name.Shard? ==> P.JobMetadata(name.job) in s.canonical
  {
  }

  lemma ReachesOne(part: nat, whole: nat)
    requires whole > 0
    ensures part as real / whole as real >= 1.0 <==> part >= whole
  {
    var x, n := part as real, whole as real;
    assert x / n * n == x;
    if x / n >= 1.0 { assert x / n * n >= 1.0 * n; } else { assert x / n * n < 1.0 * n; }
  }

  /** In every reachable bucket no row counts more shards than it expects, and a job that
      expects any is complete at threshold 1 exactly when every published shard has its result. */
  lemma CompleteMeansEveryShard(events: seq<P.Event>, job: DateTime)
    ensures var s := Run(events);
      var row := P.JobRow(s.canonical, job);
      && row.created <= row.expected
      && (P.JobMetadata(job) in s.canonical ==> job in s.controllers && row.expected == s.controllers[job].total)
      && (row.expected > 0 ==>
            (IsCompleted(row, 1.0) <==> forall k: nat :: k < row.expected ==> P.Shard(job, k) in s.canonical))
  {
    var s := Run(events);
    RunOk(events);
    var row, shards := P.JobRow(s.canonical, job), P.ShardsOf(s.canonical, job);
    if P.JobMetadata(job) in s.canonical {
      assert P.ObjectOk(s, P.JobMetadata(job));
      var n := s.controllers[job].total;
      forall name | name in shards ensures name in Expected(job, n) { assert P.ObjectOk(s, name); }
      ExpectedSize(job, n);
      SubsetSize(shards, Expected(job, n));
      AllCounted(s.canonical, job, n);
      if n > 0 { ReachesOne(row.created, n); }
    } else {
      ShardsNeedMetadata(s);
      assert shards == {};
    }
  }

  // ---- Transfers ----

  /** A marker implies a load that succeeded on a row with work in it that met the threshold,
      as the bucket still does; a webhook was posted at most once, and only for a marked job. */
  lemma MarkerMeansLoaded(events: seq<P.Event>, job: DateTime)
    ensures var s := Run(events);
      && (P.JobStatus(job) in s.canonical ==>
            exists l :: l in s.loads && l.job == job && l.row.expected > 0 && IsCompleted(l.row, l.threshold)
                     && IsCompleted(P.JobRow(s.canonical, job), l.threshold))
      && s.posts[job] <= 1
      && (s.posts[job] > 0 ==> P.JobStatus(job) in s.canonical)
  {
    var s := Run(events);
    RunOk(events);
    if P.JobStatus(job) in s.canonical {
      assert P.ObjectOk(s, P.JobStatus(job));
      var l :| l in s.loads && l.job == job;
      assert P.LoadOk(s, l);
    }
  }

  lemma MarkedStep(s: P.State, e: P.Event, job: DateTime)
    requires P.Inv(s) && P.JobStatus(job) in s.canonical
    ensures var t := P.Step(s, e); t.attempts[job] == s.attempts[job] && P.JobStatus(job) in t.canonical
  {
  }

  lemma {:induction false} MarkedStays(s: P.State, events: seq<P.Event>, job: DateTime)
    requires P.Inv(s) && P.JobStatus(job) in s.canonical
    ensures P.Exec(s, events).attempts[job] == s.attempts[job]
    decreases |events|
  {
    if events != [] {
      MarkedStep(s, events[0], job);
      Safety.StepKeeps(s, events[0]);
      MarkedStays(P.Step(s, events[0]), events[1..], job);
    }
  }

  /** Once a job is marked, no later event loads it again. */
  lemma MarkedNeverLoadedAgain(events: seq<P.Event>, later: seq<P.Event>, job: DateTime)
    requires P.JobStatus(job) in Run(events).canonical
    ensures Run(events + later).attempts[job] == Run(events).attempts[job]
  {
    RunOk(events);
    MarkedStays(Run(events), later, job);
    ExecAppend(P.INIT, events, later);
  }

  /** The job's row only moves forward, so a job complete at a threshold stays complete at it. */
  lemma CompleteStep(s: P.State, e: P.Event, job: DateTime, threshold: real)
    requires P.Inv(s) && IsCompleted(P.JobRow(s.canonical, job), threshold)
    ensures IsCompleted(P.JobRow(P.Step(s, e).canonical, job), threshold)
  {
    Safety.BehindItself(s.canonical, job);
    var row := P.JobRow(s.canonical, job);
    match e {
      case StartController(_, _) =>
      case OfController(j, ce) =>
        if ce.WriteMetadata? && j in s.controllers && P.ControllerEnabled(s.controllers[j], ce) {
          assert P.ControllerOk(s, j);
          Safety.WriteMovesForward(s.canonical, P.JobMetadata(j), Metadata(s.controllers[j].total, ce.loc), ce.w, row, job);
        }
      case OfWorker(i, we) =>
        var w := P.WorkerAt(s, i);
        if we.WriteCanonical? && P.WorkerEnabled(s, w, we) {
          Safety.WriteMovesForward(s.canonical, P.Shard(w.m.job, w.m.shard), Bytes(we.bytes), we.w, row, job);
        }
      case OfTransfer(te) =>
        if te.MarkTransferred? && P.TransferEnabled(s, te) {
          Safety.WriteMovesForward(s.canonical, P.JobStatus(s.transfer.stage.job), Bytes(""), te.w, row, job);
        }
    }
  }

  lemma {:induction false} CompleteStays(s: P.State, events: seq<P.Event>, job: DateTime, threshold: real)
    requires P.Inv(s) && IsCompleted(P.JobRow(s.canonical, job), threshold)
    ensures IsCompleted(P.JobRow(P.Exec(s, events).canonical, job), threshold)
    decreases |events|
  {
    if events != [] {
      CompleteStep(s, events[0], job, threshold);
      Safety.StepKeeps(s, events[0]);
      CompleteStays(P.Step(s, events[0]), events[1..], job, threshold);
    }
  }

  lemma CompleteStaysComplete(events: seq<P.Event>, later: seq<P.Event>, job: DateTime, threshold: real)
    requires IsCompleted(P.JobRow(Run(events).canonical, job), threshold)
    ensures IsCompleted(P.JobRow(Run(events + later).canonical, job), threshold)
  {
    RunOk(events);
    CompleteStays(Run(events), later, job, threshold);
    ExecAppend(P.INIT, events, later);
  }
}
