/** The controller's program, as steps of the pipeline's controller: the total the pipeline is started
    with is the number of shards the publishing loop cuts, and the count written is that one. */
module ControllerSteps {
  import opened Wrappers
  import opened Calendar
  import opened Iterators
  import opened Controller
  import opened PipelineResults
  import opened Summary
  import P = Pipeline

  function Of(job: DateTime, e: P.ControllerEvent): P.Event { P.OfController(job, e) }

  ghost predicate At(s: P.State, job: DateTime, c: P.Controller) { job in s.controllers && s.controllers[job] == c }

  /** The state s with this controller for the job. */
  function Put(s: P.State, job: DateTime, c: P.Controller): P.State { s.(controllers := s.controllers[job := c]) }

  /** Besides, these messages have reached the queue, and these are known to have. */
  function With(s: P.State, job: DateTime, c: P.Controller, queued: set<P.Message>, taken: set<P.Message>): P.State {
    Put(s, job, c).(queue := s.queue + queued, accepted := s.accepted + taken)
  }

  lemma SameState(s: P.State, job: DateTime)
    requires job in s.controllers
    ensures Put(s, job, s.controllers[job]) == With(s, job, s.controllers[job], {}, {}) == s
  {
    assert s.controllers[job := s.controllers[job]] == s.controllers;
  }

  predicate InFlight(j: nat, i: nat, k: nat) { j <= i < k }

  function From(j: nat, k: nat): set<nat> { set i: nat | i < k && InFlight(j, i, k) }

  /** The messages among the first k of which this holds. */
  function Those(job: DateTime, k: nat, p: nat -> bool): set<P.Message> {
    set i: nat | i < k && p(i) :: P.Message(job, i)
  }

  lemma ThoseMore(job: DateTime, j: nat, p: nat -> bool)
    requires j > 0
    ensures Those(job, j, p) == Those(job, j - 1, p) + if p(j - 1) then {P.Message(job, j - 1)} else {}
  {
  }

  // ---- Sending ----

  /** How each send ends: it is accepted, or it reports failure and may have reached the queue. */
  datatype Fates = Fates(accepts: nat -> bool, delivered: nat -> bool) {
    function Reaches(): nat -> bool { (i: nat) => accepts(i) || delivered(i) }

    function SendOf(k: nat): P.ControllerEvent {
      if accepts(k) then P.SendAccepted(k) else P.SendFailed(k, delivered(k))
    }
  }

  function Refused(k: nat, accepts: nat -> bool): nat {
    if k == 0 then 0 else Refused(k - 1, accepts) + if accepts(k - 1) then 0 else 1
  }

  function Publishes(job: DateTime, k: nat): seq<P.Event> { seq(k, (_: nat) => Of(job, P.Publish)) }

  /** The sends, each accepted or failed; they may end in any order, and here do in theirs. */
  function Sends(job: DateTime, k: nat, fates: Fates): seq<P.Event> { seq(k, (i: nat) => Of(job, fates.SendOf(i))) }

  function Published(n: nat, k: nat): P.Controller { P.Controller(n, k, From(0, k), 0, P.Publishing) }

  lemma PutTwice(s: P.State, job: DateTime, c: P.Controller, d: P.Controller)
    ensures s.controllers[job := c][job := d] == s.controllers[job := d]
    ensures s.queue + {} == s.queue && s.accepted + {} == s.accepted
  {
  }

  lemma PublishStep(s: P.State, job: DateTime, n: nat, k: nat)
    requires k < n
    ensures P.Step(Put(s, job, Published(n, k)), Of(job, P.Publish)) == Put(s, job, Published(n, k + 1))
  {
    assert From(0, k + 1) == From(0, k) + {k};
    PutTwice(s, job, Published(n, k), Published(n, k + 1));
  }

  lemma PublishesRun(s: P.State, job: DateTime, n: nat, k: nat)
    requires k <= n && At(s, job, Published(n, 0))
    ensures P.Exec(s, Publishes(job, k)) == Put(s, job, Published(n, k))
  {
    var states := seq(k + 1, (i: nat) => Put(s, job, Published(n, i)));
    forall i: nat | i < k ensures P.Step(states[i], Publishes(job, k)[i]) == states[i + 1] { PublishStep(s, job, n, i); }
    Chain(states, Publishes(job, k));
    SameState(s, job);
  }

  lemma SendMoves(s: P.State, job: DateTime, c: P.Controller, queued: set<P.Message>, taken: set<P.Message>,
                  e: P.ControllerEvent)
    requires P.ControllerEnabled(c, e) && (e.SendAccepted? || e.SendFailed?)
    ensures P.Step(With(s, job, c, queued, taken), Of(job, e)) ==
            With(s, job, P.NextController(c, e), queued + P.Delivers(job, e), taken + P.Accepts(job, e))
  {
    assert s.queue + queued + P.Delivers(job, e) == s.queue + (queued + P.Delivers(job, e));
    assert s.accepted + taken + P.Accepts(job, e) == s.accepted + (taken + P.Accepts(job, e));
  }

  function Sending(n: nat, k: nat, j: nat, fates: Fates): P.Controller {
    P.Controller(n, k, From(j, k), Refused(j, fates.accepts), P.Publishing)
  }

  lemma SendStep(n: nat, k: nat, j: nat, fates: Fates)
    requires j < k
    ensures var c, e := Sending(n, k, j, fates), fates.SendOf(j);
      P.ControllerEnabled(c, e) && P.NextController(c, e) == Sending(n, k, j + 1, fates)
  {
    assert InFlight(j, j, k);
    assert From(j + 1, k) == From(j, k) - {j};
  }

  /** After j of k sends. */
  function Sent(s: P.State, job: DateTime, n: nat, k: nat, j: nat, fates: Fates): P.State {
    With(s, job, Sending(n, k, j, fates), Those(job, j, fates.Reaches()), Those(job, j, fates.accepts))
  }

  lemma SentStep(s: P.State, job: DateTime, n: nat, k: nat, j: nat, fates: Fates)
    requires j < k
    ensures P.Step(Sent(s, job, n, k, j, fates), Of(job, fates.SendOf(j))) == Sent(s, job, n, k, j + 1, fates)
  {
    SendStep(n, k, j, fates);
    SendMoves(s, job, Sending(n, k, j, fates), Those(job, j, fates.Reaches()), Those(job, j, fates.accepts), fates.SendOf(j));
    ThoseMore(job, j + 1, fates.accepts);
    ThoseMore(job, j + 1, fates.Reaches());
  }

  lemma SentNone(s: P.State, job: DateTime, n: nat, k: nat, fates: Fates)
    requires At(s, job, Sending(n, k, 0, fates))
    ensures Sent(s, job, n, k, 0, fates) == s
  {
    assert Those(job, 0, fates.accepts) == Those(job, 0, fates.Reaches()) == {};
    SameState(s, job);
  }

  lemma SendsRun(s: P.State, job: DateTime, n: nat, k: nat, fates: Fates)
    requires At(s, job, Sending(n, k, 0, fates))
    ensures P.Exec(s, Sends(job, k, fates)) == Sent(s, job, n, k, k, fates)
  {
    var states := seq(k + 1, (i: nat) => Sent(s, job, n, k, i, fates));
    forall i: nat | i < k ensures P.Step(states[i], Sends(job, k, fates)[i]) == states[i + 1] {
      SentStep(s, job, n, k, i, fates);
    }
    Chain(states, Sends(job, k, fates));
    SentNone(s, job, n, k, fates);
  }

  lemma {:induction false} RefusedNone(k: nat, accepts: nat -> bool)
    ensures Refused(k, accepts) == 0 <==> forall i: nat :: i < k ==> accepts(i)
  {
    if k > 0 { RefusedNone(k - 1, accepts); }
  }

  /** How the program ends: it panics before Close, Close reports errors, or the metadata is written
      (and, where there is one, that of the raw bucket). */
  datatype End = Panics | CloseFails | Writes(loc: string, w: WriteResult, raw: Option<(string, WriteResult)>)

  function Ending(job: DateTime, end: End): seq<P.Event> {
    match end
    case Panics => [Of(job, P.CrashController)]
    case CloseFails => [Of(job, P.ClosePublisher)]
    case Writes(loc, w, raw) =>
      [Of(job, P.ClosePublisher), Of(job, P.WriteMetadata(loc, w, raw.Some?))]
      + if w == Written && raw.Some? then [Of(job, P.WriteRawMetadata(raw.value.0, raw.value.1))] else []
  }

  /** The controller's steps: k of n shards sent, then the end. */
  function StepsOf(job: DateTime, n: nat, k: nat, fates: Fates, end: End): seq<P.Event> {
    [P.StartController(job, n)] + Publishes(job, k) + Sends(job, k, fates) + Ending(job, end)
  }

  lemma SentRun(s: P.State, job: DateTime, n: nat, k: nat, fates: Fates)
    requires Valid(job) && job !in s.controllers && k <= n
    ensures P.Exec(s, [P.StartController(job, n)] + Publishes(job, k) + Sends(job, k, fates)) ==
            Sent(s, job, n, k, k, fates)
  {
    var start := [P.StartController(job, n)];
    ExecOne(s, [], P.StartController(job, n));
    assert [] + start == start;
    var s1 := P.Exec(s, start);
    PublishesRun(s1, job, n, k);
    ExecAppend(s, start, Publishes(job, k));
    var s2 := P.Exec(s1, Publishes(job, k));
    SendsRun(s2, job, n, k, fates);
    ExecAppend(s, start + Publishes(job, k), Sends(job, k, fates));
  }

  // ---- The end ----

  /** What the metadata writes make of the two buckets; the count is that of the pipeline's controller. */
  function Canonical(store: P.Store, job: DateTime, numShard: int, end: End): P.Store {
    if end.Writes? then AfterWrite(store, P.JobMetadata(job), Metadata(numShard, end.loc), end.w) else store
  }

  function Raw(store: P.Store, job: DateTime, numShard: int, end: End): P.Store {
    if end.Writes? && end.w == Written && end.raw.Some?
    then AfterWrite(store, P.JobMetadata(job), Metadata(numShard, end.raw.value.0), end.raw.value.1) else store
  }

  function Last(end: End): P.Phase {
    match end
    case Panics => P.Dead
    case CloseFails => P.Dead
    case Writes(_, w, raw) =>
      if w == Written && (raw.None? || raw.value.1 == Written) then P.Finished else P.Dead
  }

  /** From a controller whose sends are over, the end leads here. */
  ghost predicate Ended(s: P.State, t: P.State, job: DateTime, c: P.Controller, end: End) {
    && At(t, job, c.(phase := Last(end)))
    && t.canonical == Canonical(s.canonical, job, c.total, end) && t.raw == Raw(s.raw, job, c.total, end)
    && t.queue == s.queue && t.accepted == s.accepted
  }

  lemma CloseStep(s: P.State, job: DateTime, c: P.Controller)
    requires At(s, job, c) && P.ControllerEnabled(c, P.ClosePublisher)
    ensures P.Step(s, Of(job, P.ClosePublisher)) == Put(s, job, P.NextController(c, P.ClosePublisher))
  {
    assert s.queue + {} == s.queue && s.accepted + {} == s.accepted;
  }

  lemma MetadataStep(s: P.State, job: DateTime, c: P.Controller, loc: string, w: WriteResult, hasRaw: bool)
    requires c.phase == P.WritingMetadata
    ensures var e := P.WriteMetadata(loc, w, hasRaw);
      P.Step(Put(s, job, c), Of(job, e)) ==
      Put(s, job, P.NextController(c, e)).(
        canonical := AfterWrite(s.canonical, P.JobMetadata(job), Metadata(c.total, loc), w))
  {
    PutTwice(s, job, c, P.NextController(c, P.WriteMetadata(loc, w, hasRaw)));
  }

  lemma RawMetadataStep(s: P.State, job: DateTime, c: P.Controller, loc: string, w: WriteResult)
    requires c.phase == P.WritingRawMetadata
    ensures var e := P.WriteRawMetadata(loc, w);
      P.Step(Put(s, job, c), Of(job, e)) ==
      Put(s, job, P.NextController(c, e)).(raw := AfterWrite(s.raw, P.JobMetadata(job), Metadata(c.total, loc), w))
  {
    PutTwice(s, job, c, P.NextController(c, P.WriteRawMetadata(loc, w)));
  }

  lemma WritesRun(s: P.State, job: DateTime, c: P.Controller, end: End)
    requires At(s, job, c) && c == P.Controller(c.total, c.total, {}, 0, P.Publishing) && end.Writes?
    ensures Ended(s, P.Exec(s, Ending(job, end)), job, c, end)
  {
    var Writes(loc, w, raw) := end;
    var write := P.WriteMetadata(loc, w, raw.Some?);
    CloseStep(s, job, c);
    var closed := P.NextController(c, P.ClosePublisher);
    var s1 := Put(s, job, closed);
    MetadataStep(s, job, closed, loc, w, raw.Some?);
    var written := P.NextController(closed, write);
    var canonical := AfterWrite(s.canonical, P.JobMetadata(job), Metadata(c.total, loc), w);
    var s2 := Put(s, job, written).(canonical := canonical);
    if w == Written && raw.Some? {
      var again := P.WriteRawMetadata(raw.value.0, raw.value.1);
      var base := s.(canonical := canonical);
      assert Put(base, job, written) == s2;
      RawMetadataStep(base, job, written, raw.value.0, raw.value.1);
      Chain([s, s1, s2, P.Step(s2, Of(job, again))], Ending(job, end));
    } else {
      Chain([s, s1, s2], Ending(job, end));
    }
  }

  lemma StopRun(s: P.State, job: DateTime, c: P.Controller, end: End)
    requires At(s, job, c) && c.phase == P.Publishing && c.inFlight == {} && !end.Writes?
    requires end.CloseFails? ==> c.published == c.total && c.errors > 0
    ensures Ended(s, P.Exec(s, Ending(job, end)), job, c, end)
  {
    var e := Of(job, if end.Panics? then P.CrashController else P.ClosePublisher);
    ExecOne(s, [], e);
    assert [] + [e] == [e];
  }

  /** A whole run of the controller: n shards to send, k of them sent. */
  lemma StepsRun(s: P.State, job: DateTime, n: nat, k: nat, fates: Fates, end: End)
    requires Valid(job) && job !in s.controllers && k <= n
    requires end.CloseFails? ==> k == n && Refused(k, fates.accepts) > 0
    requires end.Writes? ==> k == n && Refused(k, fates.accepts) == 0
    ensures Ended(Sent(s, job, n, k, k, fates), P.Exec(s, StepsOf(job, n, k, fates, end)), job, Sending(n, k, k, fates), end)
  {
    var c := Sending(n, k, k, fates);
    var sent := [P.StartController(job, n)] + Publishes(job, k) + Sends(job, k, fates);
    SentRun(s, job, n, k, fates);
    ExecAppend(s, sent, Ending(job, end));
    assert c.inFlight == {};
    if end.Writes? {
      WritesRun(Sent(s, job, n, k, k, fates), job, c, end);
    } else {
      StopRun(Sent(s, job, n, k, k, fates), job, c, end);
    }
  }

  // ---- The program ----

  /** What was sent, how it ended and the count written are those of a run of the pipeline's controller
      whose total is the number of shards. */
  ghost predicate Refines(s: P.State, t: Time, n: nat, sent: seq<Batch>, fates: Fates, end: End, numShard: int) {
    var k := |sent|;
    var u := P.Exec(s, StepsOf(t.civil, n, k, fates, end));
    && At(u, t.civil, P.Controller(n, k, {}, Refused(k, fates.accepts), Last(end)))
    && u.canonical == Canonical(s.canonical, t.civil, numShard, end) && u.raw == Raw(s.raw, t.civil, numShard, end)
    && u.queue == s.queue + Those(t.civil, k, fates.Reaches())
    && u.accepted == s.accepted + Those(t.civil, k, fates.accepts)
    && (forall i :: 0 <= i < k ==> sent[i].shardNum == i && sent[i].jobTime == t)
    && (end.Writes? ==> k == n == numShard)
  }

  lemma ControllerRefines(s: P.State, t: Time, chunks: seq<seq<RepoRequest>>, sent: seq<Batch>, fates: Fates,
                          end: End, numShard: int)
    requires Valid(t.civil) && t.civil !in s.controllers && |chunks| < TWO31 && sent <= Numbered(t, chunks)
    requires end.CloseFails? ==> |sent| == |chunks| && exists i: nat :: i < |chunks| && !fates.accepts(i)
    requires end.Writes? ==> |sent| == |chunks| == numShard && forall i: nat :: i < |chunks| ==> fates.accepts(i)
    ensures Refines(s, t, |chunks|, sent, fates, end, numShard)
  {
    RefusedNone(|sent|, fates.accepts);
    StepsRun(s, t.civil, |chunks|, |sent|, fates, end);
  }

  /** The controller's main: publish everything, and only then write the metadata with the number
      returned plus one. Short of int32 overflow it is a run of the pipeline's controller whose total
      is the number of shards the input is cut into. */
  method RunController(iter: NestedIterator, publisher: Publisher, shardSize: int, t: Time, loc: string,
                       w: WriteResult, raw: Option<(string, WriteResult)>, ghost delivered: nat -> bool, ghost s: P.State)
    returns (end: End, numShard: int)
    requires iter.Valid() && publisher.sent == [] && Valid(t.civil) && t.civil !in s.controllers
    modifies iter, iter.iterators, publisher
    ensures var chunks := Chunks(ToRequests(Read(old(iter.Rest()), iter.valid).repos), Size(shardSize));
      |chunks| < TWO31 ==> Refines(s, t, |chunks|, publisher.sent, Fates(publisher.accepts, delivered), end, numShard)
    ensures end.Writes? ==> end == Writes(loc, w, raw)
  {
    ghost var chunks := Chunks(ToRequests(Read(iter.Rest(), iter.valid).repos), Size(shardSize));
    numShard := 0;
    var lastShard, err := PublishToRepoRequestTopic(iter, publisher, shardSize, t);
    match err {
      case Some(SendsFailed(_)) => end := CloseFails;
      case Some(_) => end := Panics;
      case None =>
        numShard := Wrap32(lastShard + 1);
        end := Writes(loc, w, raw);
    }
    if |chunks| < TWO31 {
      ShardCountRecorded(t, chunks);
      ControllerRefines(s, t, chunks, publisher.sent, Fates(publisher.accepts, delivered), end, numShard);
    }
  }
}
