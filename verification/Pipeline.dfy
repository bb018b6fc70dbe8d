/** The weekly batch pipeline as a step system: controllers, the queue, workers, the two
    buckets and the transfer job, interleaved in any order. An event that is not enabled
    leaves the state as it is, so every sequence of events is a run. */
module Pipeline {
  import opened Wrappers
  import opened Calendar
  import opened Summary

  // ---- State ----

  datatype Message = Message(job: DateTime, shard: nat)

  /** The objects the pipeline writes; ObjectNames renders them to object keys. */
  datatype Name = Shard(job: DateTime, number: nat) | JobMetadata(job: DateTime) | JobStatus(job: DateTime)

  type Store = map<Name, Content>

  datatype Phase = Publishing | WritingMetadata | WritingRawMetadata | Finished | Dead

  /** `inFlight` is the send goroutines the wait group still counts. */
  datatype Controller = Controller(total: nat, published: nat, inFlight: set<nat>, errors: nat, phase: Phase)

  datatype Worker =
    | Idle
    | CheckingMetadata(m: Message)
    | CheckingResult(m: Message)
    | Scanning(m: Message)
    | RawWritten(m: Message)
    | Acking(m: Message)

  datatype Stage = Picking | Loaded(job: DateTime) | Marked(job: DateTime)

  datatype Transfer =
    | Off
    | Running(rows: map<DateTime, Row>, threshold: real, webhook: bool, pending: set<DateTime>, stage: Stage)

  datatype Load = Load(job: DateTime, row: Row, threshold: real)

  /** `accepted`, `acked`, `attempts`, `loads` and `posts` record what happened; `queue` is
      what a pull may return, again and again, acked or not. */
  datatype State = State(
    controllers: map<DateTime, Controller>,
    queue: set<Message>, accepted: set<Message>, acked: set<Message>,
    workers: map<nat, Worker>,
    canonical: Store, raw: Store,
    transfer: Transfer, attempts: multiset<DateTime>, loads: set<Load>, posts: multiset<DateTime>)

  const INIT := State(map[], {}, {}, {}, map[], map[], map[], Off, multiset{}, {}, multiset{})

  datatype ControllerEvent =
    | Publish
    | SendAccepted(shard: nat)
    | SendFailed(shard: nat, delivered: bool)
    | ClosePublisher
    | WriteMetadata(loc: string, w: WriteResult, hasRawBucket: bool)
    | WriteRawMetadata(loc: string, w: WriteResult)
    | CrashController

  datatype WorkerEvent =
    | Pull(m: Message)
    | CheckMetadata(ok: bool)
    | CheckResult(ok: bool)
    | ScanFailed
    | WriteRaw(bytes: string, w: WriteResult)
    | WriteCanonical(bytes: string, w: WriteResult)
    | Ack
    | CrashWorker

  datatype TransferEvent =
    | StartTransfer(threshold: real, webhook: bool)
    | PickJob(job: DateTime, ok: bool)
    | MarkTransferred(w: WriteResult)
    | PostWebhook(ok: bool)
    | CrashTransfer

  datatype Event =
    | StartController(job: DateTime, total: nat)
    | OfController(job: DateTime, ce: ControllerEvent)
    | OfWorker(worker: nat, we: WorkerEvent)
    | OfTransfer(te: TransferEvent)

  // ---- The transfer job's view of the bucket ----

  function ShardsOf(store: Store, job: DateTime): set<Name> {
    set name | name in store && name.Shard? && name.job == job
  }

  function JobRow(store: Store, job: DateTime): Row {
    var metadata := JobMetadata(job);
    Row(if metadata in store && store[metadata].Metadata? then store[metadata].numShard else 0,
        |ShardsOf(store, job)|,
        JobStatus(job) in store,
        if metadata in store then Some(store[metadata]) else None)
  }

  function Jobs(store: Store): set<DateTime> { set name | name in store :: name.job }

  function JobRows(store: Store): map<DateTime, Row> {
    map job | job in Jobs(store) :: JobRow(store, job)
  }

  // ---- Steps ----

  predicate ControllerEnabled(c: Controller, e: ControllerEvent) {
    match e
    case Publish => c.phase == Publishing && c.published < c.total
    case SendAccepted(k) => c.phase == Publishing && k in c.inFlight
    case SendFailed(k, _) => c.phase == Publishing && k in c.inFlight
    case ClosePublisher => c.phase == Publishing && c.published == c.total && c.inFlight == {}
    case WriteMetadata(_, _, _) => c.phase == WritingMetadata
    case WriteRawMetadata(_, _) => c.phase == WritingRawMetadata
    case CrashController => true
  }

  /** publishToRepoRequestTopic, publisherImpl and the metadata writes of main, by program counter. */
  function NextController(c: Controller, e: ControllerEvent): Controller {
    match e
    case Publish => c.(published := c.published + 1, inFlight := c.inFlight + {c.published})
    case SendAccepted(k) => c.(inFlight := c.inFlight - {k})
    case SendFailed(k, _) => c.(inFlight := c.inFlight - {k}, errors := c.errors + 1)
    case ClosePublisher => c.(phase := if c.errors > 0 then Dead else WritingMetadata)
    case WriteMetadata(_, w, hasRawBucket) =>
      c.(phase := if w != Written then Dead else if hasRawBucket then WritingRawMetadata else Finished)
    case WriteRawMetadata(_, w) => c.(phase := if w != Written then Dead else Finished)
    case CrashController => c.(inFlight := {}, phase := Dead)
  }

  function Accepts(job: DateTime, e: ControllerEvent): set<Message> {
    if e.SendAccepted? then {Message(job, e.shard)} else {}
  }

  /** A send that reports failure may have reached the queue. */
  function Delivers(job: DateTime, e: ControllerEvent): set<Message> {
    if e.SendAccepted? || (e.SendFailed? && e.delivered) then {Message(job, e.shard)} else {}
  }

  function ControllerStep(s: State, job: DateTime, e: ControllerEvent): State {
    if job !in s.controllers || !ControllerEnabled(s.controllers[job], e) then s
    else
      var c := s.controllers[job];
      s.(controllers := s.controllers[job := NextController(c, e)],
         queue := s.queue + Delivers(job, e),
         accepted := s.accepted + Accepts(job, e),
         canonical := if e.WriteMetadata? then AfterWrite(s.canonical, JobMetadata(job), Metadata(c.total, e.loc), e.w)
                      else s.canonical,
         raw := if e.WriteRawMetadata? then AfterWrite(s.raw, JobMetadata(job), Metadata(c.total, e.loc), e.w)
                else s.raw)
  }

  function WorkerAt(s: State, worker: nat): Worker {
    if worker in s.workers then s.workers[worker] else Idle
  }

  predicate WorkerEnabled(s: State, w: Worker, e: WorkerEvent) {
    match e
    case Pull(m) => w.Idle? && m in s.queue
    case CheckMetadata(_) => w.CheckingMetadata?
    case CheckResult(_) => w.CheckingResult?
    case ScanFailed => w.Scanning?
    case WriteRaw(_, _) => w.Scanning?
    case WriteCanonical(_, _) => w.RawWritten?
    case Ack => w.Acking?
    case CrashWorker => true
  }

  /** WorkLoop.Run on one message, and the last two writes of processRequest. Nack, crash
      and restart all leave the worker idle and the message in the queue. */
  function NextWorker(s: State, w: Worker, e: WorkerEvent): Worker
    requires WorkerEnabled(s, w, e)
  {
    match e
    case Pull(m) => CheckingMetadata(m)
    case CheckMetadata(ok) => if ok && JobMetadata(w.m.job) in s.canonical then CheckingResult(w.m) else Idle
    case CheckResult(ok) =>
      if !ok then Idle else if Shard(w.m.job, w.m.shard) in s.canonical then Acking(w.m) else Scanning(w.m)
    case ScanFailed => Idle
    case WriteRaw(_, result) => if result == Written then RawWritten(w.m) else Idle
    case WriteCanonical(_, result) => if result == Written then Acking(w.m) else Idle
    case Ack => Idle
    case CrashWorker => Idle
  }

  function WorkerStep(s: State, worker: nat, e: WorkerEvent): State {
    var w := WorkerAt(s, worker);
    if !WorkerEnabled(s, w, e) then s
    else
      s.(workers := s.workers[worker := NextWorker(s, w, e)],
         acked := if e.Ack? then s.acked + {w.m} else s.acked,
         raw := if e.WriteRaw? then AfterWrite(s.raw, Shard(w.m.job, w.m.shard), Bytes(e.bytes), e.w) else s.raw,
         canonical := if e.WriteCanonical? then AfterWrite(s.canonical, Shard(w.m.job, w.m.shard), Bytes(e.bytes), e.w)
                      else s.canonical)
  }

  predicate TransferEnabled(s: State, e: TransferEvent) {
    var t := s.transfer;
    match e
    case StartTransfer(_, _) => t.Off?
    case PickJob(job, _) => t.Running? && t.stage.Picking? && job in t.pending && job in t.rows
    case MarkTransferred(_) => t.Running? && t.stage.Loaded?
    case PostWebhook(_) => t.Running? && t.stage.Marked?
    case CrashTransfer => true
  }

  /** The guard of the transfer loop, on the row the run started with. */
  predicate Transferable(t: Transfer, job: DateTime)
    requires t.Running? && job in t.rows
  {
    !t.rows[job].transferred && IsCompleted(t.rows[job], t.threshold)
  }

  /** transferDataToBq: runs do not overlap; the rows are those of the bucket when the run starts. */
  function NextTransfer(s: State, e: TransferEvent): Transfer
    requires TransferEnabled(s, e)
  {
    var t := s.transfer;
    match e
    case StartTransfer(threshold, webhook) =>
      var rows := JobRows(s.canonical);
      Running(rows, threshold, webhook, rows.Keys, Picking)
    case PickJob(job, ok) =>
      if !Transferable(t, job) then t.(pending := t.pending - {job})
      else if ok then t.(pending := t.pending - {job}, stage := Loaded(job))
      else Off
    case MarkTransferred(w) =>
      if w != Written then Off else t.(stage := if t.webhook then Marked(t.stage.job) else Picking)
    case PostWebhook(ok) => if ok then t.(stage := Picking) else Off
    case CrashTransfer => Off
  }

  /** A load is attempted for each transferable job picked, and recorded when it succeeds. */
  predicate Attempts(s: State, e: TransferEvent)
    requires TransferEnabled(s, e)
  {
    e.PickJob? && Transferable(s.transfer, e.job)
  }

  function TransferStep(s: State, e: TransferEvent): State {
    if !TransferEnabled(s, e) then s
    else
      var t := s.transfer;
      s.(transfer := NextTransfer(s, e),
         attempts := if Attempts(s, e) then s.attempts + multiset{e.job} else s.attempts,
         loads := if Attempts(s, e) && e.ok then s.loads + {Load(e.job, t.rows[e.job], t.threshold)} else s.loads,
         canonical := if e.MarkTransferred? then AfterWrite(s.canonical, JobStatus(t.stage.job), Bytes(""), e.w)
                      else s.canonical,
         posts := if e.PostWebhook? then s.posts + multiset{t.stage.job} else s.posts)
  }

  function Step(s: State, e: Event): State {
    match e
    case StartController(job, total) =>
      // One controller run per job second.
      if job in s.controllers || !Calendar.Valid(job) then s
      else s.(controllers := s.controllers[job := Controller(total, 0, {}, 0, Publishing)])
    case OfController(job, ce) => ControllerStep(s, job, ce)
    case OfWorker(worker, we) => WorkerStep(s, worker, we)
    case OfTransfer(te) => TransferStep(s, te)
  }

  function Exec(s: State, events: seq<Event>): State
    decreases |events|
  {
    if events == [] then s else Exec(Step(s, events[0]), events[1..])
  }

  // ---- Invariant ----

  predicate HasMetadata(s: State, job: DateTime) { JobMetadata(job) in s.canonical }

  predicate HasShard(s: State, m: Message) { Shard(m.job, m.shard) in s.canonical }

  predicate Released(c: Controller) { c.phase == WritingMetadata || c.phase == WritingRawMetadata || c.phase == Finished }

  /** Every send that is neither running nor counted as an error was accepted. */
  ghost predicate ControllerOk(s: State, job: DateTime)
    requires job in s.controllers
  {
    var c := s.controllers[job];
    && Calendar.Valid(job)
    && c.published <= c.total
    && (forall k :: k in c.inFlight ==> k < c.published)
    && (c.phase != Dead && c.errors == 0 ==>
          forall k: nat :: k < c.published && k !in c.inFlight ==> Message(job, k) in s.accepted)
    && (Released(c) ==> c.errors == 0 && c.published == c.total && c.inFlight == {})
    && (c.phase == Publishing || c.phase == WritingMetadata ==> !HasMetadata(s, job))
  }

  ghost predicate QueueOk(s: State) {
    && s.accepted <= s.queue
    && forall m :: m in s.queue ==> m.job in s.controllers && m.shard < s.controllers[m.job].total
  }

  ghost predicate WorkerOk(s: State, w: Worker) {
    && (!w.Idle? ==> w.m in s.queue)
    && (w.CheckingResult? || w.Scanning? || w.RawWritten? || w.Acking? ==> HasMetadata(s, w.m.job))
    && (w.RawWritten? ==> Shard(w.m.job, w.m.shard) in s.raw)
    && (w.Acking? ==> HasShard(s, w.m))
  }

  /** What the presence of a canonical object says about the rest of the system. */
  ghost predicate ObjectOk(s: State, name: Name)
    requires name in s.canonical
  {
    match name
    case JobMetadata(job) =>
      && job in s.controllers
      && s.canonical[name].Metadata? && s.canonical[name].numShard == s.controllers[job].total
      && forall k: nat :: k < s.controllers[job].total ==> Message(job, k) in s.accepted
    case Shard(job, k) =>
      && name in s.raw && HasMetadata(s, job) && Message(job, k) in s.queue
    case JobStatus(job) =>
      && HasMetadata(s, job)
      && exists l :: l in s.loads && l.job == job
  }

  ghost predicate LoadOk(s: State, l: Load) {
    IsCompleted(l.row, l.threshold) && IsCompleted(JobRow(s.canonical, l.job), l.threshold)
  }

  /** A row of the running transfer is no further than the bucket now. */
  ghost predicate RowBehind(row: Row, now: Row) {
    && row.created <= now.created
    && (row.metadata.Some? ==> now.expected == row.expected && now.metadata == row.metadata)
    && (row.expected > 0 ==> row.metadata.Some?)
  }

  ghost predicate TransferOk(s: State) {
    && (forall job :: s.posts[job] <= 1)
    && (forall job :: s.posts[job] > 0 ==> JobStatus(job) in s.canonical)
    && (s.transfer.Running? ==>
          var t := s.transfer;
          && t.pending <= t.rows.Keys
          && (forall job :: job in t.rows ==> RowBehind(t.rows[job], JobRow(s.canonical, job)))
          && (forall job :: job in t.pending ==> (JobStatus(job) in s.canonical <==> t.rows[job].transferred))
          && (t.stage.Loaded? ==>
                && t.stage.job !in t.pending && JobStatus(t.stage.job) !in s.canonical
                && exists l :: l in s.loads && l.job == t.stage.job)
          && (t.stage.Marked? ==>
                t.stage.job !in t.pending && JobStatus(t.stage.job) in s.canonical && s.posts[t.stage.job] == 0))
  }

  ghost predicate ControllersOk(s: State) { forall job :: job in s.controllers ==> ControllerOk(s, job) }

  ghost predicate WorkersOk(s: State) { forall i :: i in s.workers ==> WorkerOk(s, s.workers[i]) }

  ghost predicate AckedOk(s: State) { forall m :: m in s.acked ==> m in s.queue && HasShard(s, m) }

  ghost predicate ObjectsOk(s: State) { forall name :: name in s.canonical ==> ObjectOk(s, name) }

  ghost predicate LoadsOk(s: State) { forall l :: l in s.loads ==> LoadOk(s, l) }

  ghost predicate Inv(s: State) {
    ControllersOk(s) && QueueOk(s) && WorkersOk(s) && AckedOk(s) && ObjectsOk(s) && LoadsOk(s) && TransferOk(s)
  }
}
