/** The pipeline's invariant holds in every run. */
module PipelineSafety {
  import opened Wrappers
  import opened Summary
  import opened Calendar
  import opened Pipeline

  // ---- Rows under writes ----

  lemma ShardsAfterWrite(store: Store, name: Name, content: Content, job: DateTime)
    ensures ShardsOf(store[name := content], job) ==
            if name.Shard? && name.job == job then ShardsOf(store, job) + {name} else ShardsOf(store, job)
  {
  }

  lemma RowAfterShard(store: Store, name: Name, content: Content, job: DateTime)
    requires name.Shard?
    ensures JobRow(store[name := content], job) ==
            JobRow(store, job).(created := JobRow(store, job).created +
              if name.job == job && name !in store then 1 else 0)
  {
    ShardsAfterWrite(store, name, content, job);
    if name.job == job && name in store {
      assert name in ShardsOf(store, job);
      assert ShardsOf(store, job) + {name} == ShardsOf(store, job);
    }
  }

  lemma RowAfterOther(store: Store, name: Name, content: Content, job: DateTime)
    requires !name.Shard?
    ensures JobRow(store[name := content], job) ==
            if name == JobStatus(job) then JobRow(store, job).(transferred := true)
            else if name == JobMetadata(job) then
              JobRow(store, job).(expected := if content.Metadata? then content.numShard else 0, metadata := Some(content))
            else JobRow(store, job)
  {
    ShardsAfterWrite(store, name, content, job);
  }

  /** A write that leaves existing metadata alone only moves rows forward. */
  lemma WriteMovesForward(store: Store, name: Name, content: Content, w: WriteResult, row: Row, job: DateTime)
    requires RowBehind(row, JobRow(store, job))
    requires name.JobMetadata? ==> name !in store
    ensures RowBehind(row, JobRow(AfterWrite(store, name, content, w), job))
    ensures forall threshold :: IsCompleted(JobRow(store, job), threshold) ==>
              IsCompleted(JobRow(AfterWrite(store, name, content, w), job), threshold)
  {
    if name.Shard? { RowAfterShard(store, name, content, job); } else { RowAfterOther(store, name, content, job); }
    var before, after := JobRow(store, job), JobRow(AfterWrite(store, name, content, w), job);
    forall threshold | IsCompleted(before, threshold) ensures IsCompleted(after, threshold) {
      CompletedMonotone(before, after, threshold);
    }
  }

  lemma CompletedMonotone(before: Row, after: Row, threshold: real)
    requires IsCompleted(before, threshold) && after.expected == before.expected && before.created <= after.created
    ensures IsCompleted(after, threshold)
  {
    var n, a, b := before.expected as real, before.created as real, after.created as real;
    assert b / n - a / n == (b - a) / n;
    assert (b - a) / n >= 0.0;
  }

  lemma BehindItself(store: Store, job: DateTime)
    ensures RowBehind(JobRow(store, job), JobRow(store, job))
  {
  }

  /** Everything the transfer job and the loads know survives a write of a new or non-metadata object. */
  lemma WriteKeepsLoads(s: State, name: Name, content: Content, w: WriteResult)
    requires Inv(s) && (name.JobMetadata? ==> name !in s.canonical)
    ensures var store := AfterWrite(s.canonical, name, content, w);
      && (forall l :: l in s.loads ==> LoadOk(s.(canonical := store), l))
      && (s.transfer.Running? ==> forall job :: job in s.transfer.rows ==>
            RowBehind(s.transfer.rows[job], JobRow(store, job)))
  {
    forall l | l in s.loads ensures LoadOk(s.(canonical := AfterWrite(s.canonical, name, content, w)), l) {
      BehindItself(s.canonical, l.job);
      WriteMovesForward(s.canonical, name, content, w, JobRow(s.canonical, l.job), l.job);
    }
    if s.transfer.Running? {
      forall job | job in s.transfer.rows
        ensures RowBehind(s.transfer.rows[job], JobRow(AfterWrite(s.canonical, name, content, w), job))
      {
        WriteMovesForward(s.canonical, name, content, w, s.transfer.rows[job], job);
      }
    }
  }

  // ---- Steps only add ----

  /** Nothing a later check relies on is ever taken back. */
  ghost predicate Extends(s: State, t: State) {
    && s.queue <= t.queue && s.accepted <= t.accepted && s.loads <= t.loads
    && s.canonical.Keys <= t.canonical.Keys && s.raw.Keys <= t.raw.Keys
    && (forall job :: job in s.controllers ==> job in t.controllers && t.controllers[job].total == s.controllers[job].total)
    && (forall job :: HasMetadata(s, job) ==> t.canonical[JobMetadata(job)] == s.canonical[JobMetadata(job)])
  }

  lemma WorkersStay(s: State, t: State)
    requires Extends(s, t) && WorkersOk(s) && t.workers == s.workers
    ensures WorkersOk(t)
  {
  }

  lemma ObjectsStay(s: State, t: State, name: Name)
    requires Extends(s, t) && ObjectsOk(s) && t.canonical.Keys <= s.canonical.Keys + {name}
    requires name in t.canonical ==> ObjectOk(t, name)
    ensures ObjectsOk(t)
  {
  }

  lemma AckedStay(s: State, t: State)
    requires Extends(s, t) && AckedOk(s) && t.acked == s.acked
    ensures AckedOk(t)
  {
  }

  lemma ControllerStays(s: State, t: State, job: DateTime)
    requires Extends(s, t) && job in s.controllers && ControllerOk(s, job)
    requires t.controllers[job] == s.controllers[job]
    requires HasMetadata(t, job) ==> HasMetadata(s, job)
    ensures ControllerOk(t, job)
  {
  }

  /** The transfer run and the loads only look at the canonical bucket and their own fields. */
  predicate SameTransfer(s: State, t: State) {
    t.transfer == s.transfer && t.loads == s.loads && t.posts == s.posts
  }

  lemma TransferStays(s: State, t: State, name: Name, content: Content, w: WriteResult)
    requires Inv(s) && SameTransfer(s, t)
    requires t.canonical == AfterWrite(s.canonical, name, content, w)
    requires !name.JobStatus? && (name.JobMetadata? ==> name !in s.canonical)
    ensures TransferOk(t) && LoadsOk(t)
  {
    WriteKeepsLoads(s, name, content, w);
    forall l | l in t.loads ensures LoadOk(t, l) {
      assert LoadOk(s.(canonical := t.canonical), l);
    }
  }

  lemma MetadataHasController(s: State, job: DateTime)
    requires ObjectsOk(s)
    ensures HasMetadata(s, job) ==> job in s.controllers
  {
  }

  // ---- Controllers keep the invariant ----

  lemma StartKeeps(s: State, job: DateTime, total: nat)
    requires Inv(s)
    ensures Inv(Step(s, StartController(job, total)))
  {
    var t := Step(s, StartController(job, total));
    if t != s {
      assert Extends(s, t);
      WorkersStay(s, t);
      ObjectsStay(s, t, JobMetadata(job));
      AckedStay(s, t);
      TransferStays(s, t, Shard(job, 0), Bytes(""), Lost);
      MetadataHasController(s, job);
      forall j | j in t.controllers ensures ControllerOk(t, j) {
        if j in s.controllers { ControllerStays(s, t, j); }
      }
    }
  }

  lemma ControllerExtends(s: State, job: DateTime, e: ControllerEvent)
    requires ControllersOk(s)
    ensures Extends(s, ControllerStep(s, job, e))
  {
  }

  lemma ControllerItself(s: State, job: DateTime, e: ControllerEvent)
    requires job in s.controllers && ControllerOk(s, job)
    ensures ControllerOk(ControllerStep(s, job, e), job)
  {
  }

  lemma ControllersKept(s: State, job: DateTime, e: ControllerEvent)
    requires ControllersOk(s)
    ensures ControllersOk(ControllerStep(s, job, e))
  {
    var t := ControllerStep(s, job, e);
    ControllerExtends(s, job, e);
    forall j | j in t.controllers ensures ControllerOk(t, j) {
      assert ControllerOk(s, j);
      if j == job { ControllerItself(s, job, e); } else { ControllerStays(s, t, j); }
    }
  }

  lemma QueueKept(s: State, job: DateTime, e: ControllerEvent)
    requires ControllersOk(s) && QueueOk(s)
    ensures QueueOk(ControllerStep(s, job, e))
  {
  }

  lemma ControllerKeeps(s: State, job: DateTime, e: ControllerEvent)
    requires Inv(s)
    ensures Inv(ControllerStep(s, job, e))
  {
    var t := ControllerStep(s, job, e);
    if t != s {
      ControllerExtends(s, job, e);
      ControllersKept(s, job, e);
      QueueKept(s, job, e);
      WorkersStay(s, t);
      AckedStay(s, t);
      assert ControllerOk(s, job);
      if e.WriteMetadata? {
        TransferStays(s, t, JobMetadata(job), Metadata(s.controllers[job].total, e.loc), e.w);
      } else {
        TransferStays(s, t, Shard(job, 0), Bytes(""), Lost);
      }
      ObjectsStay(s, t, JobMetadata(job));
    }
  }

  // ---- Workers keep the invariant ----

  lemma WorkerExtends(s: State, i: nat, e: WorkerEvent)
    ensures Extends(s, WorkerStep(s, i, e))
  {
  }

  lemma WorkerItself(s: State, i: nat, e: WorkerEvent)
    requires WorkersOk(s)
    ensures WorkersOk(WorkerStep(s, i, e))
  {
  }

  /** The shard a worker writes is accounted for; a step that writes none changes no object. */
  lemma WorkerObjects(s: State, i: nat, e: WorkerEvent)
    requires Inv(s) && WorkerEnabled(s, WorkerAt(s, i), e)
    ensures var t := WorkerStep(s, i, e);
            ObjectsOk(t) && TransferOk(t) && LoadsOk(t)
            && forall job :: HasMetadata(t, job) ==> HasMetadata(s, job)
  {
    var t := WorkerStep(s, i, e);
    var w := WorkerAt(s, i);
    WorkerExtends(s, i, e);
    assert WorkerOk(s, w);
    var name := if w.Idle? then Shard(DateTime(0, 1, 1, 0, 0, 0), 0) else Shard(w.m.job, w.m.shard);
    TransferStays(s, t, name, if e.WriteCanonical? then Bytes(e.bytes) else Bytes(""),
                  if e.WriteCanonical? then e.w else Lost);
    ObjectsStay(s, t, name);
  }

  lemma WorkerAcks(s: State, i: nat, e: WorkerEvent)
    requires AckedOk(s) && WorkersOk(s)
    ensures AckedOk(WorkerStep(s, i, e))
  {
  }

  lemma WorkerKeeps(s: State, i: nat, e: WorkerEvent)
    requires Inv(s)
    ensures Inv(WorkerStep(s, i, e))
  {
    var t := WorkerStep(s, i, e);
    if WorkerEnabled(s, WorkerAt(s, i), e) {
      WorkerExtends(s, i, e);
      WorkerItself(s, i, e);
      WorkerObjects(s, i, e);
      WorkerAcks(s, i, e);
      forall j | j in t.controllers ensures ControllerOk(t, j) {
        assert ControllerOk(s, j);
        ControllerStays(s, t, j);
      }
    }
  }

  // ---- The transfer job keeps the invariant ----

  lemma TransferExtends(s: State, e: TransferEvent)
    ensures Extends(s, TransferStep(s, e))
    ensures forall job :: HasMetadata(TransferStep(s, e), job) ==> HasMetadata(s, job)
  {
  }

  /** A load is recorded only for a job whose row met the threshold, then and now. */
  lemma PickOk(s: State, job: DateTime, ok: bool)
    requires Inv(s) && TransferEnabled(s, PickJob(job, ok))
    ensures var t := TransferStep(s, PickJob(job, ok));
            TransferOk(t) && LoadsOk(t) && ObjectsOk(t)
  {
    var t := TransferStep(s, PickJob(job, ok));
    var row, now := s.transfer.rows[job], JobRow(s.canonical, job);
    assert RowBehind(row, now);
    var l := Load(job, row, s.transfer.threshold);
    if Attempts(s, PickJob(job, ok)) {
      CompletedMonotone(row, now, s.transfer.threshold);
      assert LoadOk(t, l);
      if ok { assert l in t.loads && l.job == job; }
    }
    forall k | k in t.loads ensures LoadOk(t, k) {
      if k != l { assert LoadOk(s, k); }
    }
    TransferExtends(s, PickJob(job, ok));
    ObjectsStay(s, t, JobStatus(job));
  }

  lemma MarkOk(s: State, w: WriteResult)
    requires Inv(s) && TransferEnabled(s, MarkTransferred(w))
    ensures var t := TransferStep(s, MarkTransferred(w));
            TransferOk(t) && LoadsOk(t) && ObjectsOk(t)
  {
    var t := TransferStep(s, MarkTransferred(w));
    var job := s.transfer.stage.job;
    WriteKeepsLoads(s, JobStatus(job), Bytes(""), w);
    forall l | l in t.loads ensures LoadOk(t, l) { assert LoadOk(s.(canonical := t.canonical), l); }
    var l :| l in s.loads && l.job == job;
    assert LoadOk(s, l);
    LoadedHasMetadata(s, l);
    TransferExtends(s, MarkTransferred(w));
    ObjectsStay(s, t, JobStatus(job));
  }

  lemma LoadedHasMetadata(s: State, l: Load)
    requires LoadOk(s, l)
    ensures HasMetadata(s, l.job)
  {
  }

  /** Starting, posting and crashing touch no object and no load. */
  lemma QuietOk(s: State, e: TransferEvent)
    requires Inv(s) && TransferEnabled(s, e) && !e.PickJob? && !e.MarkTransferred?
    ensures var t := TransferStep(s, e);
            TransferOk(t) && LoadsOk(t) && ObjectsOk(t)
  {
    var t := TransferStep(s, e);
    if e.StartTransfer? {
      forall job ensures RowBehind(JobRow(s.canonical, job), JobRow(s.canonical, job)) { BehindItself(s.canonical, job); }
    }
    forall l | l in t.loads ensures LoadOk(t, l) { assert LoadOk(s, l); }
    TransferExtends(s, e);
    ObjectsStay(s, t, JobStatus(DateTime(0, 1, 1, 0, 0, 0)));
  }

  lemma TransferKeeps(s: State, e: TransferEvent)
    requires Inv(s)
    ensures Inv(TransferStep(s, e))
  {
    var t := TransferStep(s, e);
    if TransferEnabled(s, e) {
      match e {
        case PickJob(job, ok) => PickOk(s, job, ok);
        case MarkTransferred(w) => MarkOk(s, w);
        case _ => QuietOk(s, e);
      }
      TransferExtends(s, e);
      WorkersStay(s, t);
      AckedStay(s, t);
      forall j | j in t.controllers ensures ControllerOk(t, j) {
        assert ControllerOk(s, j);
        ControllerStays(s, t, j);
      }
    }
  }

  // ---- Every run ----

  lemma StepKeeps(s: State, e: Event)
    requires Inv(s)
    ensures Inv(Step(s, e))
  {
    match e {
      case StartController(job, total) => StartKeeps(s, job, total);
      case OfController(job, ce) => ControllerKeeps(s, job, ce);
      case OfWorker(i, we) => WorkerKeeps(s, i, we);
      case OfTransfer(te) => TransferKeeps(s, te);
    }
  }

  lemma {:induction false} RunKeeps(s: State, events: seq<Event>)
    requires Inv(s)
    ensures Inv(Exec(s, events))
    decreases |events|
  {
    if events != [] {
      StepKeeps(s, events[0]);
      RunKeeps(Step(s, events[0]), events[1..]);
    }
  }

  lemma InitOk()
    ensures Inv(INIT)
  {
  }
}
