/** What the read-through cache guarantees in every interleaving. */
module ReadThroughSafety {
  import opened Wrappers
  import opened StoreKeys
  import opened ReadThrough

  // ---- Invariant ----

  predicate Live(f: Flight) { !f.phase.Delivered? }

  ghost predicate GroupOk(core: Core) {
    && (forall slot :: slot in core.group ==>
          core.group[slot] < |core.flights| && core.flights[core.group[slot]].slot == slot
          && Live(core.flights[core.group[slot]]))
    && (forall f: nat :: f < |core.flights| && Live(core.flights[f]) ==>
          core.flights[f].slot in core.group && core.group[core.flights[f].slot] == f)
  }

  ghost function Holders(core: Core): set<nat> {
    set f: nat | f < |core.flights| && core.flights[f].phase == Scanning
  }

  ghost predicate PoolOk(c: Config, core: Core) {
    core.taken == |Holders(core)| && core.taken <= Capacity(c)
  }

  /** Whatever commit the latest object of a repository names, its pinned object is there too. */
  predicate PairOk(store: Store, ref: RepoRef) {
    var latest := Key(ref, "");
    latest in store && store[latest].body.Json? && store[latest].body.doc.commit != "" ==>
      Key(ref, store[latest].body.doc.commit) in store
  }

  ghost predicate PairsOk(store: Store) { forall ref :: ValidRef(ref) ==> PairOk(store, ref) }

  predicate TagOk(core: Core, o: Object) {
    o.body.Json? && if o.origin == Local then o.body.doc in core.scanned else o.body.doc in core.fetched
  }

  ghost predicate TagsOk(core: Core) { forall key :: key in core.store ==> TagOk(core, core.store[key]) }

  /** An answer made from one document, with its own source and provenance. */
  predicate AnswerOf(answer: Answer, doc: Doc, source: Source) {
    answer == Ok(Ready(ProvenanceFrom(doc, source), Json(doc)))
  }

  predicate ScanAnswerOk(core: Core, answer: Answer) {
    answer.Ok? ==> answer.value.Ready? && answer.value.body.Json?
                   && answer.value.body.doc in core.scanned && AnswerOf(answer, answer.value.body.doc, FromScan)
  }

  predicate FlightOk(core: Core, f: Flight) {
    ValidSlot(f.slot) &&
    match f.phase
    case WritingPinned(doc) => doc in core.scanned && (f.slot.commit == "" ==> doc.commit != "")
    case WritingLatest(doc) =>
      doc in core.scanned && f.slot.commit == "" && Key(f.slot.ref, doc.commit) in core.store
    case Returning(answer) => ScanAnswerOk(core, answer)
    case Delivered(answer) => ScanAnswerOk(core, answer)
    case _ => true
  }

  ghost predicate FlightsOk(core: Core) { forall f :: f in core.flights ==> FlightOk(core, f) }

  /** An answer from the store shows the stored body, as the origin that was read. */
  predicate StoreAnswerOk(core: Core, answer: Answer, stored: Origin, attributesRead: bool) {
    && answer.Ok? && answer.value.Ready? && TagOk(core, Object(answer.value.body, stored))
    && AnswerOf(answer, answer.value.body.doc, SourceOf(Reported(stored, attributesRead)))
  }

  predicate YoungAt(c: Config, answer: Answer, origin: Origin, at: int) {
    answer.Ok? && answer.value.Ready? && Fresh(c, answer.value.body, origin, at)
  }

  predicate RequestOk(c: Config, core: Core, r: Request) {
    ValidSlot(r.slot) &&
    match r.pc
    case Fetching(_) => r.slot.commit == ""
    case FillingPinned(doc) => r.slot.commit == "" && doc in core.fetched && doc.commit != ""
    case FillingLatest(doc) =>
      r.slot.commit == "" && doc in core.fetched && (doc.commit != "" ==> Key(r.slot.ref, doc.commit) in core.store)
    case Joining(net) => net ==> r.slot.commit == ""
    case Waiting(f, net) => (net ==> r.slot.commit == "") && f < |core.flights| && core.flights[f].slot == r.slot
    case Done(answer, ViaStore(stored, attributesRead, at)) =>
      && StoreAnswerOk(core, answer, stored, attributesRead)
      && at <= core.now && (r.slot.commit == "" ==> YoungAt(c, answer, Reported(stored, attributesRead), at))
    case Done(answer, ViaFetch) =>
      && r.slot.commit == "" && answer.Ok? && answer.value.Ready? && answer.value.body.Json?
      && answer.value.body.doc in core.fetched && AnswerOf(answer, answer.value.body.doc, FromUpstream)
    case Done(answer, ViaFlight(f)) =>
      && f < |core.flights| && core.flights[f].slot == r.slot && core.flights[f].phase == Delivered(answer)
      && ScanAnswerOk(core, answer)
    case Done(answer, ViaNothing) => answer.Ok? ==> answer.value.NotReady?
    case _ => true
  }

  ghost predicate RequestsOk(c: Config, s: State) {
    forall id :: id in s.requests ==> RequestOk(c, s.core, s.requests[id])
  }

  ghost predicate CoreOk(c: Config, core: Core) {
    GroupOk(core) && PoolOk(c, core) && PairsOk(core.store) && TagsOk(core) && FlightsOk(core)
  }

  ghost predicate Inv(c: Config, s: State) { CoreOk(c, s.core) && RequestsOk(c, s) }

  // ---- The shared state only grows ----

  predicate Extends(a: Core, b: Core) {
    && a.now <= b.now && a.store.Keys <= b.store.Keys && a.scanned <= b.scanned && a.fetched <= b.fetched
    && |a.flights| <= |b.flights|
    && forall f: nat :: f < |a.flights| ==>
         b.flights[f].slot == a.flights[f].slot && (a.flights[f].phase.Delivered? ==> b.flights[f] == a.flights[f])
  }

  lemma RequestStays(c: Config, a: Core, b: Core, r: Request)
    requires Extends(a, b) && RequestOk(c, a, r)
    ensures RequestOk(c, b, r)
  {
  }

  lemma RequestsStay(c: Config, s: State, t: State)
    requires RequestsOk(c, s) && Extends(s.core, t.core) && t.requests == s.requests
    ensures RequestsOk(c, t)
  {
    forall id | id in t.requests ensures RequestOk(c, t.core, t.requests[id]) {
      RequestStays(c, s.core, t.core, s.requests[id]);
    }
  }

  lemma FlightStays(a: Core, b: Core, f: Flight)
    requires Extends(a, b) && FlightOk(a, f)
    ensures FlightOk(b, f)
  {
  }

  lemma FlightsStay(a: Core, b: Core, started: seq<Flight>)
    requires Extends(a, b) && FlightsOk(a) && b.flights == a.flights + started
    requires forall f :: f in started ==> FlightOk(b, f)
    ensures FlightsOk(b)
  {
    forall f | f in b.flights ensures FlightOk(b, f) {
      if f in a.flights { FlightStays(a, b, f); }
    }
  }

  /** A write of a document under the key of the commit it names, or under the key of a pinned
      request, or under a latest key once the pinned object is there. */
  predicate PairSafe(store: Store, slot: Slot, key: string, doc: Doc) {
    && ValidSlot(slot)
    && (|| (doc.commit != "" && key == Key(slot.ref, doc.commit))
        || (slot.commit != "" && key == KeyOf(slot))
        || (key == Key(slot.ref, "") && (doc.commit != "" ==> Key(slot.ref, doc.commit) in store)))
  }

  lemma WriteKeepsPair(store: Store, slot: Slot, key: string, doc: Doc, o: Object, ref: RepoRef)
    requires ValidRef(ref) && PairOk(store, ref) && PairSafe(store, slot, key, doc) && o.body == Json(doc)
    ensures PairOk(store[key := o], ref)
  {
    if key == Key(ref, "") && doc.commit != "" {
      KeyInjective(slot.ref, "", ref, "");
      if key == Key(slot.ref, doc.commit) {
        CollisionIsOwn(slot.ref, ref, doc.commit);
      } else if slot.commit != "" && key == KeyOf(slot) {
        KeyInjective(slot.ref, slot.commit, ref, "");
      }
    }
  }

  /** Writing a tagged object keeps the tags, and keeps the pairs when it is pair-safe. */
  lemma WriteKeeps(a: Core, b: Core, slot: Slot, key: string, o: Object, w: WriteResult)
    requires Extends(a, b) && TagsOk(a) && PairsOk(a.store)
    requires b.store == AfterWrite(a.store, key, o, w) && TagOk(b, o) && PairSafe(a.store, slot, key, o.body.doc)
    ensures TagsOk(b) && PairsOk(b.store)
  {
    forall ref | ValidRef(ref) ensures PairOk(b.store, ref) {
      if !w.Lost? { WriteKeepsPair(a.store, slot, key, o.body.doc, o, ref); }
    }
  }

  lemma NoWriteKeeps(a: Core, b: Core)
    requires Extends(a, b) && TagsOk(a) && PairsOk(a.store) && b.store == a.store
    ensures TagsOk(b) && PairsOk(b.store)
  {
  }

  // ---- Flights keep the invariant ----

  lemma FlightExtends(c: Config, core: Core, f: nat, e: FlightEvent)
    ensures Extends(core, FlightStep(c, core, f, e))
  {
  }

  lemma FlightGroup(c: Config, core: Core, f: nat, e: FlightEvent)
    requires GroupOk(core)
    ensures GroupOk(FlightStep(c, core, f, e))
  {
  }

  lemma FlightHolders(c: Config, core: Core, f: nat, e: FlightEvent)
    requires FlightEnabled(c, core, f, e)
    ensures Holders(FlightStep(c, core, f, e)) ==
            if e.Acquire? then Holders(core) + {f} else if e.ScanReturns? then Holders(core) - {f} else Holders(core)
    ensures f in Holders(core) <==> e.ScanReturns?
  {
  }

  lemma FlightPool(c: Config, core: Core, f: nat, e: FlightEvent)
    requires PoolOk(c, core)
    ensures PoolOk(c, FlightStep(c, core, f, e))
  {
    if FlightEnabled(c, core, f, e) { FlightHolders(c, core, f, e); }
  }

  lemma FlightItself(c: Config, core: Core, f: nat, e: FlightEvent)
    requires FlightEnabled(c, core, f, e) && FlightOk(core, core.flights[f])
    ensures FlightOk(FlightStep(c, core, f, e), FlightStep(c, core, f, e).flights[f])
  {
  }

  lemma FlightStores(c: Config, core: Core, f: nat, e: FlightEvent)
    requires CoreOk(c, core)
    ensures TagsOk(FlightStep(c, core, f, e)) && PairsOk(FlightStep(c, core, f, e).store)
  {
    var after := FlightStep(c, core, f, e);
    FlightExtends(c, core, f, e);
    if FlightEnabled(c, core, f, e) && (e.PersistPinned? || e.PersistLatest?) {
      var flight := core.flights[f];
      assert FlightOk(core, flight);
      var key := if e.PersistPinned? then PinnedKey(flight) else Key(flight.slot.ref, "");
      WriteKeeps(core, after, flight.slot, key, Object(Json(flight.phase.doc), Local), e.w);
    } else {
      NoWriteKeeps(core, after);
    }
  }

  lemma FlightKeeps(c: Config, s: State, f: nat, e: FlightEvent)
    requires Inv(c, s)
    ensures Inv(c, Step(c, s, OfFlight(f, e)))
  {
    var after := FlightStep(c, s.core, f, e);
    FlightExtends(c, s.core, f, e);
    FlightGroup(c, s.core, f, e);
    FlightPool(c, s.core, f, e);
    FlightStores(c, s.core, f, e);
    forall g | g in after.flights ensures FlightOk(after, g) {
      var i :| 0 <= i < |after.flights| && after.flights[i] == g;
      assert FlightOk(s.core, s.core.flights[i]);
      if i == f && FlightEnabled(c, s.core, f, e) { FlightItself(c, s.core, f, e); }
      else { FlightStays(s.core, after, g); }
    }
    RequestsStay(c, s, Step(c, s, OfFlight(f, e)));
  }

  // ---- Requests keep the invariant ----

  lemma RequestExtends(c: Config, s: State, id: nat, e: RequestEvent)
    requires RequestEnabled(s, id, e)
    ensures Extends(s.core, RequestEffect(c, s, id, e))
  {
  }

  lemma RequestGroup(c: Config, s: State, id: nat, e: RequestEvent)
    requires RequestEnabled(s, id, e) && GroupOk(s.core) && PoolOk(c, s.core)
    ensures GroupOk(RequestEffect(c, s, id, e)) && PoolOk(c, RequestEffect(c, s, id, e))
  {
    assert Holders(RequestEffect(c, s, id, e)) == Holders(s.core);
  }

  lemma RequestStores(c: Config, s: State, id: nat, e: RequestEvent)
    requires RequestEnabled(s, id, e) && Inv(c, s)
    ensures TagsOk(RequestEffect(c, s, id, e)) && PairsOk(RequestEffect(c, s, id, e).store)
  {
    var core, after, r := s.core, RequestEffect(c, s, id, e), s.requests[id];
    RequestExtends(c, s, id, e);
    assert RequestOk(c, core, r);
    if e.FillPinned? {
      WriteKeeps(core, after, r.slot, Key(r.slot.ref, r.pc.doc.commit), Object(Json(r.pc.doc), Upstream), e.w);
    } else if e.FillLatest? {
      WriteKeeps(core, after, r.slot, Key(r.slot.ref, ""), Object(Json(r.pc.doc), Upstream), e.w);
    } else {
      NoWriteKeeps(core, after);
    }
  }

  lemma LookupOk(c: Config, core: Core, slot: Slot, ok: bool, attributesRead: bool)
    requires TagsOk(core) && ValidSlot(slot)
    ensures RequestOk(c, core, Request(slot, AfterLookup(c, core, slot, ok, attributesRead)))
  {
  }

  /** A fill has made its own pinned object present before the latest one is written. */
  lemma FillOk(c: Config, s: State, id: nat, e: RequestEvent)
    requires RequestEnabled(s, id, e) && RequestOk(c, s.core, s.requests[id]) && (e.FillPinned? || e.FillLatest?)
    ensures RequestOk(c, RequestEffect(c, s, id, e), Request(s.requests[id].slot, NextPc(c, s, id, e)))
  {
  }

  lemma FetchOk(c: Config, s: State, id: nat, e: RequestEvent)
    requires RequestEnabled(s, id, e) && RequestOk(c, s.core, s.requests[id]) && e.Fetch?
    ensures RequestOk(c, RequestEffect(c, s, id, e), Request(s.requests[id].slot, NextPc(c, s, id, e)))
  {
  }

  lemma JoinOk(c: Config, s: State, id: nat, e: RequestEvent)
    requires RequestEnabled(s, id, e) && RequestOk(c, s.core, s.requests[id]) && GroupOk(s.core)
    requires e.Join? || e.TimeOut? || e.Cancel? || e.Decide?
    ensures RequestOk(c, RequestEffect(c, s, id, e), Request(s.requests[id].slot, NextPc(c, s, id, e)))
  {
  }

  lemma ReceiveOk(c: Config, s: State, id: nat, e: RequestEvent)
    requires RequestEnabled(s, id, e) && RequestOk(c, s.core, s.requests[id]) && FlightsOk(s.core) && e.Receive?
    ensures RequestOk(c, RequestEffect(c, s, id, e), Request(s.requests[id].slot, NextPc(c, s, id, e)))
  {
    assert FlightOk(s.core, s.core.flights[s.requests[id].pc.flight]);
  }

  lemma RequestItself(c: Config, s: State, id: nat, e: RequestEvent)
    requires RequestEnabled(s, id, e) && Inv(c, s)
    ensures RequestOk(c, RequestEffect(c, s, id, e), Request(s.requests[id].slot, NextPc(c, s, id, e)))
  {
    assert RequestOk(c, s.core, s.requests[id]);
    match e {
      case Lookup(ok, attributesRead) => LookupOk(c, s.core, s.requests[id].slot, ok, attributesRead);
      case Receive => ReceiveOk(c, s, id, e);
      case Fetch(_) => FetchOk(c, s, id, e);
      case FillPinned(_) => FillOk(c, s, id, e);
      case FillLatest(_) => FillOk(c, s, id, e);
      case _ => JoinOk(c, s, id, e);
    }
  }

  lemma RequestFlights(c: Config, s: State, id: nat, e: RequestEvent)
    requires RequestEnabled(s, id, e) && Inv(c, s)
    ensures FlightsOk(RequestEffect(c, s, id, e))
  {
    var after := RequestEffect(c, s, id, e);
    RequestExtends(c, s, id, e);
    assert RequestOk(c, s.core, s.requests[id]);
    FlightsStay(s.core, after, if after.flights == s.core.flights then [] else [Flight(s.requests[id].slot, Queued)]);
  }

  lemma RequestKeeps(c: Config, s: State, id: nat, e: RequestEvent)
    requires Inv(c, s)
    ensures Inv(c, RequestStep(c, s, id, e))
  {
    if RequestEnabled(s, id, e) {
      var after := RequestStep(c, s, id, e);
      RequestExtends(c, s, id, e);
      RequestGroup(c, s, id, e);
      RequestStores(c, s, id, e);
      RequestFlights(c, s, id, e);
      RequestItself(c, s, id, e);
      forall k | k in after.requests ensures RequestOk(c, after.core, after.requests[k]) {
        if k != id { RequestStays(c, s.core, after.core, s.requests[k]); }
      }
    }
  }

  // ---- Every run ----

  lemma TickKeeps(c: Config, s: State, elapsed: nat)
    requires Inv(c, s)
    ensures Inv(c, Step(c, s, Tick(elapsed)))
  {
    LaterCore(c, s.core, Step(c, s, Tick(elapsed)).core);
    RequestsStay(c, s, Step(c, s, Tick(elapsed)));
  }

  lemma LaterCore(c: Config, a: Core, b: Core)
    requires CoreOk(c, a) && b == a.(now := b.now) && a.now <= b.now
    ensures CoreOk(c, b)
  {
    SamePool(c, a, b);
    NoWriteKeeps(a, b);
    assert b.flights == a.flights + [];
    FlightsStay(a, b, []);
  }

  lemma SamePool(c: Config, a: Core, b: Core)
    requires GroupOk(a) && PoolOk(c, a) && b.flights == a.flights && b.group == a.group && b.taken == a.taken
    ensures GroupOk(b) && PoolOk(c, b)
  {
    assert Holders(b) == Holders(a);
  }

  lemma StepKeeps(c: Config, s: State, e: Event)
    requires Inv(c, s)
    ensures Inv(c, Step(c, s, e))
  {
    match e {
      case Tick(elapsed) => TickKeeps(c, s, elapsed);
      case Arrive(_, _, _) =>
      case OfFlight(f, fe) => FlightKeeps(c, s, f, fe);
      case OfRequest(id, re) => RequestKeeps(c, s, id, re);
    }
  }

  lemma {:induction false} RunKeeps(c: Config, s: State, events: seq<Event>)
    requires Inv(c, s)
    ensures Inv(c, Exec(c, s, events))
    decreases |events|
  {
    if events != [] {
      StepKeeps(c, s, events[0]);
      RunKeeps(c, Step(c, s, events[0]), events[1..]);
    }
  }

  lemma InitOk(c: Config, now: int)
    ensures Inv(c, Init(now))
  {
  }
}
