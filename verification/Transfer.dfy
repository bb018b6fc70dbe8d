/** The transfer job's loop over the jobs of a bucket: load, mark, notify. Each run of the loop is a
    run of the pipeline's transfer steps. */
module Transfer {
  import opened Wrappers
  import opened Calendar
  import opened Summary
  import opened PipelineResults
  import P = Pipeline

  // ---- What the loop does to the outside ----

  datatype Effect = Load(job: DateTime, ok: bool) | Mark(job: DateTime, w: WriteResult) | Post(job: DateTime, ok: bool)

  class Outside {
    var effects: seq<Effect>
    /** How the effect after n others ends. */
    const loads: nat -> bool
    const writes: nat -> WriteResult
    const posts: nat -> bool

    constructor (loads: nat -> bool, writes: nat -> WriteResult, posts: nat -> bool)
      ensures effects == [] && this.loads == loads && this.writes == writes && this.posts == posts
    {
      effects, this.loads, this.writes, this.posts := [], loads, writes, posts;
    }

    method StartDataTransferJob(job: DateTime) returns (ok: bool)
      modifies this
      ensures effects == old(effects) + [Load(job, ok)]
    {
      ok := loads(|effects|);
      effects := effects + [Load(job, ok)];
    }

    method MarkTransferred(job: DateTime) returns (ok: bool, ghost w: WriteResult)
      modifies this
      ensures effects == old(effects) + [Mark(job, w)] && ok == (w == Written)
    {
      var result := writes(|effects|);
      effects := effects + [Mark(job, result)];
      ok, w := result.Written?, result;
    }

    method PostWebhook(job: DateTime) returns (ok: bool)
      modifies this
      ensures effects == old(effects) + [Post(job, ok)]
    {
      ok := posts(|effects|);
      effects := effects + [Post(job, ok)];
    }
  }

  // ---- The same in the pipeline ----

  function EventOf(e: Effect): P.Event {
    P.OfTransfer(match e
      case Load(job, ok) => P.PickJob(job, ok)
      case Mark(_, w) => P.MarkTransferred(w)
      case Post(_, ok) => P.PostWebhook(ok))
  }

  /** What a transfer event does to the outside. */
  function EffectOf(t: P.State, e: P.TransferEvent): seq<Effect> {
    if !P.TransferEnabled(t, e) then []
    else
      match e
      case PickJob(job, ok) => if P.Transferable(t.transfer, job) then [Load(job, ok)] else []
      case MarkTransferred(w) => [Mark(t.transfer.stage.job, w)]
      case PostWebhook(ok) => [Post(t.transfer.stage.job, ok)]
      case _ => []
  }

  predicate OnlyTransfer(events: seq<P.Event>) { forall i :: 0 <= i < |events| ==> events[i].OfTransfer? }

  ghost function EffectsOf(s: P.State, events: seq<P.Event>): seq<Effect>
    requires OnlyTransfer(events)
  {
    if events == [] then []
    else
      var before := events[..|events| - 1];
      EffectsOf(s, before) + EffectOf(P.Exec(s, before), events[|events| - 1].te)
  }

  function LoadOf(e: Effect): multiset<DateTime> { if e.Load? then multiset{e.job} else multiset{} }

  function PostOf(e: Effect): multiset<DateTime> { if e.Post? then multiset{e.job} else multiset{} }

  function MarkedBy(store: P.Store, e: Effect): P.Store {
    if e.Mark? then AfterWrite(store, P.JobStatus(e.job), Bytes(""), e.w) else store
  }

  function LoadsOf(fx: seq<Effect>): multiset<DateTime> {
    if fx == [] then multiset{} else LoadsOf(fx[..|fx| - 1]) + LoadOf(fx[|fx| - 1])
  }

  function PostsOf(fx: seq<Effect>): multiset<DateTime> {
    if fx == [] then multiset{} else PostsOf(fx[..|fx| - 1]) + PostOf(fx[|fx| - 1])
  }

  function Marked(store: P.Store, fx: seq<Effect>): P.Store {
    if fx == [] then store else MarkedBy(Marked(store, fx[..|fx| - 1]), fx[|fx| - 1])
  }

  /** From s the effects lead to t: they are the loads attempted, the markers written and the
      notifications posted on the way, and nothing else but the transfer's own state changed. */
  ghost predicate Mirrors(s: P.State, t: P.State, fx: seq<Effect>) {
    && t.attempts == s.attempts + LoadsOf(fx)
    && t.posts == s.posts + PostsOf(fx)
    && t.canonical == Marked(s.canonical, fx)
    && Framed(s, t)
  }

  lemma LogGrows(fx: seq<Effect>, more: seq<Effect>, store: P.Store)
    requires |more| <= 1
    ensures more == [] ==> fx + more == fx
    ensures more != [] ==>
      && LoadsOf(fx + more) == LoadsOf(fx) + LoadOf(more[0]) && PostsOf(fx + more) == PostsOf(fx) + PostOf(more[0])
      && Marked(store, fx + more) == MarkedBy(Marked(store, fx), more[0])
  {
  }

  /** Adding what an effect, if any, amounts to. */
  ghost predicate Grows(t: P.State, u: P.State, fx: seq<Effect>) {
    && |fx| <= 1
    && u.attempts == (if fx == [] then t.attempts else t.attempts + LoadOf(fx[0]))
    && u.posts == (if fx == [] then t.posts else t.posts + PostOf(fx[0]))
    && u.canonical == (if fx == [] then t.canonical else MarkedBy(t.canonical, fx[0]))
  }

  lemma StepLoads(t: P.State, e: P.TransferEvent)
    ensures var u, fx := P.TransferStep(t, e), EffectOf(t, e);
      |fx| <= 1 && u.attempts == if fx == [] then t.attempts else t.attempts + LoadOf(fx[0])
  {
  }

  lemma StepPosts(t: P.State, e: P.TransferEvent)
    ensures var u, fx := P.TransferStep(t, e), EffectOf(t, e);
      |fx| <= 1 && u.posts == if fx == [] then t.posts else t.posts + PostOf(fx[0])
  {
  }

  lemma StepMarks(t: P.State, e: P.TransferEvent)
    ensures var u, fx := P.TransferStep(t, e), EffectOf(t, e);
      |fx| <= 1 && u.canonical == if fx == [] then t.canonical else MarkedBy(t.canonical, fx[0])
  {
  }

  ghost predicate Framed(s: P.State, t: P.State) {
    && t.controllers == s.controllers && t.queue == s.queue && t.accepted == s.accepted && t.acked == s.acked
    && t.workers == s.workers && t.raw == s.raw
  }

  lemma StepFramed(t: P.State, e: P.TransferEvent)
    ensures Framed(t, P.TransferStep(t, e))
  {
    if P.TransferEnabled(t, e) {
      match e {
        case StartTransfer(_, _) =>
        case PickJob(_, _) =>
        case MarkTransferred(_) =>
        case PostWebhook(_) =>
        case CrashTransfer =>
      }
    }
  }

  /** The effects of a run are all it does. */
  lemma {:induction false} RunMirrors(s: P.State, events: seq<P.Event>)
    requires OnlyTransfer(events)
    ensures Mirrors(s, P.Exec(s, events), EffectsOf(s, events))
  {
    if events != [] {
      var n := |events| - 1;
      var before, e := events[..n], events[n].te;
      RunMirrors(s, before);
      assert events == before + [events[n]];
      ExecOne(s, before, events[n]);
      var t := P.Exec(s, before);
      StepLoads(t, e);
      StepPosts(t, e);
      StepMarks(t, e);
      StepFramed(t, e);
      MirrorsOneMore(s, t, P.TransferStep(t, e), EffectsOf(s, before), EffectOf(t, e));
    }
  }

  lemma MirrorsOneMore(s: P.State, t: P.State, u: P.State, fx: seq<Effect>, more: seq<Effect>)
    requires Mirrors(s, t, fx) && Grows(t, u, more) && Framed(t, u)
    ensures Mirrors(s, u, fx + more)
  {
    LogGrows(fx, more, s.canonical);
  }

  // ---- Following the loop ----

  /** A run of transfer steps from s with these effects, that leaves the transfer so. */
  ghost predicate Leads(s: P.State, events: seq<P.Event>, fx: seq<Effect>, transfer: P.Transfer) {
    OnlyTransfer(events) && EffectsOf(s, events) == fx && P.Exec(s, events).transfer == transfer
  }

  predicate Due(t: P.Transfer, e: Effect) {
    t.Running? &&
    match e
    case Load(job, _) => t.stage.Picking? && job in t.pending && job in t.rows && P.Transferable(t, job)
    case Mark(job, _) => t.stage == P.Loaded(job)
    case Post(job, _) => t.stage == P.Marked(job)
  }

  /** Where an effect leaves the transfer. */
  function After(t: P.Transfer, e: Effect): P.Transfer
    requires Due(t, e)
  {
    match e
    case Load(job, ok) => if ok then t.(pending := t.pending - {job}, stage := P.Loaded(job)) else P.Off
    case Mark(job, w) => if w != Written then P.Off else t.(stage := if t.webhook then P.Marked(job) else P.Picking)
    case Post(_, ok) => if ok then t.(stage := P.Picking) else P.Off
  }

  lemma DueStep(s: P.State, e: Effect)
    requires Due(s.transfer, e)
    ensures P.Step(s, EventOf(e)).transfer == After(s.transfer, e) && EffectOf(s, EventOf(e).te) == [e]
  {
  }

  lemma EffectsMore(s: P.State, events: seq<P.Event>, e: P.TransferEvent)
    requires OnlyTransfer(events)
    ensures OnlyTransfer(events + [P.OfTransfer(e)])
    ensures EffectsOf(s, events + [P.OfTransfer(e)]) == EffectsOf(s, events) + EffectOf(P.Exec(s, events), e)
  {
    assert (events + [P.OfTransfer(e)])[..|events|] == events;
  }

  lemma Advance(s: P.State, events: seq<P.Event>, fx: seq<Effect>, t: P.Transfer, e: Effect)
    requires Leads(s, events, fx, t) && Due(t, e)
    ensures Leads(s, events + [EventOf(e)], fx + [e], After(t, e))
  {
    ExecOne(s, events, EventOf(e));
    EffectsMore(s, events, EventOf(e).te);
    DueStep(P.Exec(s, events), e);
  }

  function Pass(job: DateTime): P.Event { P.OfTransfer(P.PickJob(job, false)) }

  /** A job that is not transferable is passed over without effect. */
  lemma Skip(s: P.State, events: seq<P.Event>, fx: seq<Effect>, t: P.Transfer, job: DateTime)
    requires Leads(s, events, fx, t) && t.Running? && t.stage.Picking?
    requires job in t.pending && job in t.rows && !P.Transferable(t, job)
    ensures Leads(s, events + [Pass(job)], fx, t.(pending := t.pending - {job}))
  {
    ExecOne(s, events, Pass(job));
    EffectsMore(s, events, P.PickJob(job, false));
    PassStep(P.Exec(s, events), job);
  }

  lemma PassStep(s: P.State, job: DateTime)
    requires var t := s.transfer;
      t.Running? && t.stage.Picking? && job in t.pending && job in t.rows && !P.Transferable(t, job)
    ensures P.Step(s, Pass(job)).transfer == s.transfer.(pending := s.transfer.pending - {job})
    ensures EffectOf(s, P.PickJob(job, false)) == []
  {
  }

  lemma Start(s: P.State, threshold: real, webhook: bool)
    requires s.transfer.Off?
    ensures var rows := P.JobRows(s.canonical);
      Leads(s, [P.OfTransfer(P.StartTransfer(threshold, webhook))], [],
            P.Running(rows, threshold, webhook, rows.Keys, P.Picking))
  {
  }

  // ---- The loop ----

  /** One job of the loop. */
  method TransferShard(out: Outside, shard: ShardSummary, threshold: real, webhook: bool,
                       ghost s: P.State, ghost events: seq<P.Event>, ghost t: P.Transfer)
    returns (ok: bool, ghost now: seq<P.Event>)
    requires Leads(s, events, out.effects, t) && t.Running? && t.stage.Picking? && shard.creationTime in t.pending
    requires shard.creationTime in t.rows && t.rows[shard.creationTime] == shard.View()
    requires t.threshold == threshold && t.webhook == webhook
    modifies out
    ensures events <= now
    ensures Leads(s, now, out.effects, if ok then t.(pending := t.pending - {shard.creationTime}) else P.Off)
  {
    var job := shard.creationTime;
    now := events;
    if shard.isTransferred || !IsCompleted(shard.View(), threshold) {
      Skip(s, now, out.effects, t, job);
      return true, now + [Pass(job)];
    }
    ghost var fx, loaded := out.effects, t.(pending := t.pending - {job}, stage := P.Loaded(job));
    ok := out.StartDataTransferJob(job);
    Advance(s, now, fx, t, Load(job, ok));
    now := now + [EventOf(Load(job, ok))];
    if !ok { return; }
    ghost var w;
    fx := out.effects;
    ok, w := out.MarkTransferred(job);
    Advance(s, now, fx, loaded, Mark(job, w));
    now := now + [EventOf(Mark(job, w))];
    if !ok || !webhook { return; }
    fx := out.effects;
    ok := out.PostWebhook(job);
    Advance(s, now, fx, loaded.(stage := P.Marked(job)), Post(job, ok));
    now := now + [EventOf(Post(job, ok))];
  }

  ghost function CreationTimes(list: seq<ShardSummary>): set<DateTime> { set shard | shard in list :: shard.creationTime }

  lemma NextTime(list: seq<ShardSummary>, i: nat)
    requires i < |list| && forall j, k :: 0 <= j < k < |list| ==> list[j].creationTime != list[k].creationTime
    ensures list[i].creationTime in CreationTimes(list[i..])
    ensures CreationTimes(list[i + 1..]) == CreationTimes(list[i..]) - {list[i].creationTime}
  {
  }

  /** The rows the loop walks are those of the summary. */
  lemma AllTimes(summary: BucketSummary, list: seq<ShardSummary>, rows: map<DateTime, Row>)
    requires summary.View() == rows
    requires forall i :: 0 <= i < |list| ==>
               list[i].creationTime in summary.shards && summary.shards[list[i].creationTime] == list[i]
    requires forall t :: t in summary.shards ==> summary.shards[t] in list
    requires summary.Valid()
    requires forall i, j :: 0 <= i < j < |list| ==> list[i].creationTime != list[j].creationTime
    ensures CreationTimes(list) == rows.Keys && Tabulates(rows, list)
  {
  }

  /** Rows that stand for these summaries, each under its own time. */
  ghost predicate Tabulates(rows: map<DateTime, Row>, list: seq<ShardSummary>)
    reads list
  {
    && (forall i, j :: 0 <= i < j < |list| ==> list[i].creationTime != list[j].creationTime)
    && forall i :: 0 <= i < |list| ==> list[i].creationTime in rows && rows[list[i].creationTime] == list[i].View()
  }

  /** The loop over the summaries. */
  method TransferAll(out: Outside, shards: seq<ShardSummary>, threshold: real, webhook: bool,
                     ghost s: P.State, ghost start: seq<P.Event>, ghost rows: map<DateTime, Row>)
    returns (ok: bool, ghost events: seq<P.Event>)
    requires Tabulates(rows, shards)
    requires Leads(s, start, out.effects, P.Running(rows, threshold, webhook, CreationTimes(shards), P.Picking))
    modifies out
    ensures start <= events
    ensures Leads(s, events, out.effects, if ok then P.Running(rows, threshold, webhook, {}, P.Picking) else P.Off)
  {
    events := start;
    assert shards[0..] == shards;
    for i := 0 to |shards|
      invariant start <= events
      invariant Leads(s, events, out.effects, P.Running(rows, threshold, webhook, CreationTimes(shards[i..]), P.Picking))
    {
      NextTime(shards, i);
      ghost var t := P.Running(rows, threshold, webhook, CreationTimes(shards[i..]), P.Picking);
      ok, events := TransferShard(out, shards[i], threshold, webhook, s, events, t);
      if !ok { return; }
    }
    assert shards[|shards|..] == [];
    ok := true;
  }

  /** The whole transfer, from a state s of the pipeline whose bucket the summary is of: the effects
      are those of a run of its transfer steps, which ends with no job left unless something failed. */
  method TransferDataToBq(out: Outside, summary: BucketSummary, threshold: real, webhook: bool, ghost s: P.State)
    returns (ok: bool, ghost events: seq<P.Event>)
    requires out.effects == []
    requires summary.Valid() && summary.View() == P.JobRows(s.canonical) && s.transfer.Off?
    modifies out
    ensures [P.OfTransfer(P.StartTransfer(threshold, webhook))] <= events
    ensures Leads(s, events, out.effects,
                  if ok then P.Running(P.JobRows(s.canonical), threshold, webhook, {}, P.Picking) else P.Off)
  {
    events := [P.OfTransfer(P.StartTransfer(threshold, webhook))];
    Start(s, threshold, webhook);
    var shards := summary.Shards();
    AllTimes(summary, shards, P.JobRows(s.canonical));
    ok, events := TransferAll(out, shards, threshold, webhook, s, events, P.JobRows(s.canonical));
  }
}
