/** The read-through cache: freshness policy, upstream fallback, single-flight scans in a bounded
    pool and the two-object write-back, as a step system over interleaved requests and scans. An
    event that is not enabled leaves the state as it is. */
module ReadThrough {
  import opened Wrappers
  import opened Text
  import opened StoreKeys

  // ---- Results ----

  /** A generation date as written and the instant it parses to, if any. */
  datatype Date = Date(text: string, instant: Option<int>)

  datatype Doc = Doc(date: Date, commit: string, version: string, scores: seq<int>)

  /** Stored bytes: a JSON2 result, or bytes that do not parse. */
  datatype Body = Json(doc: Doc) | Malformed(bytes: string)

  datatype Origin = Local | Upstream

  datatype Object = Object(body: Body, origin: Origin)

  datatype Source = FromCache | FromScan | FromUpstream

  datatype Provenance = Provenance(source: Source, commit: string, date: string, version: string, complete: bool)

  datatype Error = StoreLookup | Unparseable | SlotWait | ScanFailed | Cancelled

  datatype Outcome = Ready(provenance: Provenance, body: Body) | NotReady

  type Answer = Result<Outcome, Error>

  /** scan.Complete: every check is conclusive. */
  predicate Complete(scores: seq<int>) { forall i :: 0 <= i < |scores| ==> scores[i] >= 0 }

  function ProvenanceFrom(doc: Doc, source: Source): Provenance {
    Provenance(source, doc.commit, doc.date.text, doc.version, Complete(doc.scores))
  }

  // ---- Policy ----

  const SEVEN_DAYS: int := 7 * 24 * 3600 * 1_000_000_000

  /** `fallback` is whether an upstream is configured; `clientMaxAge` is the fallback client's own bound. */
  datatype Config = Config(ttl: int, fallbackMaxAge: int, clientMaxAge: int, concurrency: int, fallback: bool)

  function MaxAge(c: Config): int { if c.fallbackMaxAge <= 0 then SEVEN_DAYS else c.fallbackMaxAge }

  function Capacity(c: Config): nat { if c.concurrency < 1 then 1 else c.concurrency }

  function Window(c: Config, origin: Origin): int { if origin == Upstream then MaxAge(c) else c.ttl }

  /** Orchestrator.fresh. */
  predicate Fresh(c: Config, body: Body, origin: Origin, now: int) {
    body.Json? && body.doc.date.instant.Some? && now - body.doc.date.instant.value <= Window(c, origin)
  }

  function SourceOf(origin: Origin): Source { if origin == Upstream then FromUpstream else FromCache }

  /** Orchestrator.cachedOutcome. */
  function CachedOutcome(body: Body, origin: Origin): Answer {
    match body
    case Malformed(_) => Err(Unparseable)
    case Json(doc) => Ok(Ready(ProvenanceFrom(doc, SourceOf(origin)), body))
  }

  /** GetWithOrigin: an attribute read that fails reports the object as local. */
  function Reported(stored: Origin, attributesRead: bool): Origin { if attributesRead then stored else Local }

  datatype Response = Http200(body: Body) | Http404 | Unusable

  /** fallback.Client.Fetch: the result the upstream offers, if it is young enough. */
  function Fetched(c: Config, response: Response, now: int): Option<Doc> {
    match response
    case Http200(Json(doc)) =>
      if doc.date.instant.Some? && !(now - doc.date.instant.value > c.clientMaxAge) then Some(doc) else None
    case _ => None
  }

  datatype Mode = FetchFirst | SafetyNet | OtherMode

  // ---- State ----

  /** What a request asks for; StoreKeys.KeyInjective says its keys are as distinct. */
  datatype Slot = Slot(ref: RepoRef, commit: string)

  /** A slot as request parsing lets it through. */
  predicate ValidSlot(slot: Slot) { ValidRef(slot.ref) && (slot.commit == "" || IsHash(slot.commit)) }

  /** The bucket, by object key. */
  type Store = map<string, Object>

  function Latest(ref: RepoRef): Slot { Slot(ref, "") }

  function KeyOf(slot: Slot): string { Key(slot.ref, slot.commit) }

  /** Where one scanAndStore stands. */
  datatype Phase =
    | Queued                     // waiting for a pool slot
    | Scanning                   // holding one
    | WritingPinned(doc: Doc)
    | WritingLatest(doc: Doc)
    | Returning(answer: Answer)
    | Delivered(answer: Answer)  // sent to every joined waiter and forgotten by the group

  datatype Flight = Flight(slot: Slot, phase: Phase)

  /** How a request was answered: from the store (the object's own origin, whether its attributes
      were read, and when), by a fetch, by a flight, or not at all. */
  datatype Via = ViaStore(stored: Origin, attributesRead: bool, at: int) | ViaFetch | ViaFlight(flight: nat) | ViaNothing

  datatype Pc =
    | Looking
    | Deciding
    | Fetching(failed: Option<Error>)  // first, or after this scan error under safety-net
    | FillingPinned(doc: Doc)
    | FillingLatest(doc: Doc)
    | Joining(net: bool)
    | Waiting(flight: nat, net: bool)
    | Done(answer: Answer, via: Via)

  datatype Request = Request(slot: Slot, pc: Pc)

  /** `group` is the single-flight group; `scanned` and `fetched` record every result ever produced. */
  datatype Core = Core(
    now: int, store: Store, flights: seq<Flight>, group: map<Slot, nat>, taken: int,
    scanned: set<Doc>, fetched: set<Doc>)

  datatype State = State(core: Core, requests: map<nat, Request>)

  function Init(now: int): State { State(Core(now, map[], [], map[], 0, {}, {}), map[]) }

  datatype FlightEvent =
    | Acquire
    | QueueTimesOut
    | ScanReturns(result: Option<Doc>)
    | PersistPinned(w: WriteResult)
    | PersistLatest(w: WriteResult)
    | Deliver

  datatype RequestEvent =
    | Lookup(ok: bool, attributesRead: bool)
    | Decide(enabled: bool, mode: Mode)
    | Fetch(response: Response)
    | FillPinned(w: WriteResult)
    | FillLatest(w: WriteResult)
    | Join
    | Receive
    | TimeOut
    | Cancel

  datatype Event =
    | Tick(elapsed: nat)
    | Arrive(id: nat, ref: RepoRef, commit: string)
    | OfFlight(flight: nat, fe: FlightEvent)
    | OfRequest(id: nat, re: RequestEvent)

  // ---- Flights ----

  predicate FlightEnabled(c: Config, core: Core, f: nat, e: FlightEvent) {
    f < |core.flights| &&
    var phase := core.flights[f].phase;
    match e
    case Acquire => phase.Queued? && core.taken < Capacity(c)
    case QueueTimesOut => phase.Queued?
    case ScanReturns(_) => phase.Scanning?
    case PersistPinned(_) => phase.WritingPinned?
    case PersistLatest(_) => phase.WritingLatest?
    case Deliver => phase.Returning?
  }

  function LiveAnswer(doc: Doc): Answer { Ok(Ready(ProvenanceFrom(doc, FromScan), Json(doc))) }

  /** scanAndStore and persist: a latest scan writes the pinned object before the latest one, and
      stops at the first write that fails; whatever the writes do, the answer is the scan's. */
  function NextPhase(c: Config, core: Core, f: nat, e: FlightEvent): Phase
    requires FlightEnabled(c, core, f, e)
  {
    var Flight(slot, phase) := core.flights[f];
    match e
    case Acquire => Scanning
    case QueueTimesOut => Returning(Err(SlotWait))
    case ScanReturns(None) => Returning(Err(ScanFailed))
    case ScanReturns(Some(doc)) =>
      if slot.commit == "" && doc.commit == "" then Returning(LiveAnswer(doc)) else WritingPinned(doc)
    case PersistPinned(w) =>
      if w == Written && slot.commit == "" then WritingLatest(phase.doc) else Returning(LiveAnswer(phase.doc))
    case PersistLatest(w) => Returning(LiveAnswer(phase.doc))
    case Deliver => Delivered(phase.answer)
  }

  function PinnedKey(f: Flight): string
    requires f.phase.WritingPinned?
  {
    Key(f.slot.ref, if f.slot.commit == "" then f.phase.doc.commit else f.slot.commit)
  }

  function FlightStep(c: Config, core: Core, f: nat, e: FlightEvent): Core {
    if !FlightEnabled(c, core, f, e) then core
    else
      var flight := core.flights[f];
      core.(
        flights := core.flights[f := Flight(flight.slot, NextPhase(c, core, f, e))],
        taken := if e.Acquire? then core.taken + 1 else if e.ScanReturns? then core.taken - 1 else core.taken,
        scanned := if e.ScanReturns? && e.result.Some? then core.scanned + {e.result.value} else core.scanned,
        store := if e.PersistPinned? then AfterWrite(core.store, PinnedKey(flight), Object(Json(flight.phase.doc), Local), e.w)
                 else if e.PersistLatest? then
                   AfterWrite(core.store, Key(flight.slot.ref, ""), Object(Json(flight.phase.doc), Local), e.w)
                 else core.store,
        group := if e.Deliver? then core.group - {flight.slot} else core.group)
  }

  // ---- Requests ----

  predicate RequestEnabled(s: State, id: nat, e: RequestEvent) {
    id in s.requests &&
    var pc := s.requests[id].pc;
    match e
    case Lookup(_, _) => pc.Looking?
    case Decide(_, _) => pc.Deciding?
    case Fetch(_) => pc.Fetching?
    case FillPinned(_) => pc.FillingPinned?
    case FillLatest(_) => pc.FillingLatest?
    case Join => pc.Joining?
    case Receive => pc.Waiting? && pc.flight < |s.core.flights| && s.core.flights[pc.flight].phase.Delivered?
    case TimeOut => pc.Waiting?
    case Cancel => pc.Waiting?
  }

  /** GetOrProduce's first read: serve a pinned object, or a latest one that is fresh. */
  function AfterLookup(c: Config, core: Core, slot: Slot, ok: bool, attributesRead: bool): Pc {
    if !ok then Done(Err(StoreLookup), ViaNothing)
    else if KeyOf(slot) !in core.store then Deciding
    else
      var o := core.store[KeyOf(slot)];
      var origin := Reported(o.origin, attributesRead);
      if slot.commit != "" || Fresh(c, o.body, origin, core.now)
      then Done(CachedOutcome(o.body, origin), ViaStore(o.origin, attributesRead, core.now))
      else Deciding
  }

  function UpstreamAnswer(doc: Doc): Answer { Ok(Ready(ProvenanceFrom(doc, FromUpstream), Json(doc))) }

  /** Where a failed scan leaves a request: at the upstream under safety-net, else answered. */
  function AfterError(net: bool, error: Error, via: Via): Pc {
    if net then Fetching(Some(error)) else Done(Err(error), via)
  }

  /** DoChan joins the flight of the key if there is one, and starts the next one otherwise. */
  function FlightFor(core: Core, slot: Slot): nat { if slot in core.group then core.group[slot] else |core.flights| }

  function NextPc(c: Config, s: State, id: nat, e: RequestEvent): Pc
    requires RequestEnabled(s, id, e)
  {
    var Request(slot, pc) := s.requests[id];
    match e
    case Lookup(ok, attributesRead) => AfterLookup(c, s.core, slot, ok, attributesRead)
    case Decide(enabled, mode) =>
      var active := c.fallback && slot.commit == "" && enabled;
      if active && mode == FetchFirst then Fetching(None) else Joining(active && mode == SafetyNet)
    case Fetch(response) =>
      (match Fetched(c, response, s.core.now)
       case Some(doc) => if doc.commit == "" then FillingLatest(doc) else FillingPinned(doc)
       case None => if pc.failed.Some? then Done(Err(pc.failed.value), ViaNothing) else Joining(false))
    case FillPinned(w) => if w == Written then FillingLatest(pc.doc) else Done(UpstreamAnswer(pc.doc), ViaFetch)
    case FillLatest(w) => Done(UpstreamAnswer(pc.doc), ViaFetch)
    case Join => Waiting(FlightFor(s.core, slot), pc.net)
    case Receive =>
      var answer := s.core.flights[pc.flight].phase.answer;
      if answer.Ok? then Done(answer, ViaFlight(pc.flight))
      else AfterError(pc.net, answer.error, ViaFlight(pc.flight))
    case TimeOut => Done(Ok(NotReady), ViaNothing)
    case Cancel => AfterError(pc.net, Cancelled, ViaNothing)
  }

  /** What a request's step does to the shared state. */
  function RequestEffect(c: Config, s: State, id: nat, e: RequestEvent): Core
    requires RequestEnabled(s, id, e)
  {
    var core := s.core;
    var Request(slot, pc) := s.requests[id];
    match e
    case Fetch(response) =>
      (match Fetched(c, response, core.now)
       case Some(doc) => core.(fetched := core.fetched + {doc})
       case None => core)
    case FillPinned(w) =>
      core.(store := AfterWrite(core.store, Key(slot.ref, pc.doc.commit), Object(Json(pc.doc), Upstream), w))
    case FillLatest(w) => core.(store := AfterWrite(core.store, Key(slot.ref, ""), Object(Json(pc.doc), Upstream), w))
    case Join =>
      if slot in core.group then core
      else core.(flights := core.flights + [Flight(slot, Queued)], group := core.group[slot := |core.flights|])
    case _ => core
  }

  function RequestStep(c: Config, s: State, id: nat, e: RequestEvent): State {
    if !RequestEnabled(s, id, e) then s
    else State(RequestEffect(c, s, id, e), s.requests[id := s.requests[id].(pc := NextPc(c, s, id, e))])
  }

  // ---- Runs ----

  function Step(c: Config, s: State, e: Event): State {
    match e
    case Tick(elapsed) => s.(core := s.core.(now := s.core.now + elapsed))
    case Arrive(id, ref, commit) =>
      if id in s.requests || !ValidSlot(Slot(ref, commit)) then s
      else s.(requests := s.requests[id := Request(Slot(ref, commit), Looking)])
    case OfFlight(f, fe) => s.(core := FlightStep(c, s.core, f, fe))
    case OfRequest(id, re) => RequestStep(c, s, id, re)
  }

  function Exec(c: Config, s: State, events: seq<Event>): State
    decreases |events|
  {
    if events == [] then s else Exec(c, Step(c, s, events[0]), events[1..])
  }
}
