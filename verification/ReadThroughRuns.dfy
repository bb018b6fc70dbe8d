/** Runs of the read-through cache in which something its documentation says does not happen, and
    exactly when it does not. */
module ReadThroughRuns {
  import opened Wrappers
  import opened Text
  import opened StoreKeys
  import opened ReadThrough
  import opened ReadThroughResults

  // ---- The window of a stored result ----

  ghost predicate AlwaysInWindow(c: Config) {
    forall now: int, events: seq<Event>, id: nat ::
      id in Run(c, now, events).requests ==> InWindow(c, Run(c, now, events).requests[id])
  }

  /** In every run every latest answer from the store is within the window of its own origin,
      exactly when no fallback is configured or the time-to-live is at most the fallback age. */
  lemma AlwaysInWindowIff(c: Config)
    ensures AlwaysInWindow(c) <==> !c.fallback || c.ttl <= MaxAge(c)
  {
    if !c.fallback || c.ttl <= MaxAge(c) {
      forall now: int, events: seq<Event>, id: nat | id in Run(c, now, events).requests
        ensures InWindow(c, Run(c, now, events).requests[id])
      {
        ServedWithinWindow(c, now, events, id);
        if !c.fallback {
          NoUpstreamRun(c, Init(now), events);
          ReadyMatchesBody(c, now, events, id);
        }
      }
    } else {
      var events := LostTagOverstays(c, RepoRef(HOST_GITHUB, "o", "r"));
      assert 1 in Run(c, 0, events).requests;
    }
  }

  /** Whatever latest object is within the window of its own origin is served, when its body is read. */
  ghost predicate AlwaysServes(c: Config) {
    forall now: int, events: seq<Event>, ref: RepoRef, attributesRead: bool :: ValidRef(ref) ==>
      var core := Run(c, now, events).core;
      StoredFresh(c, core, ref) ==> AfterLookup(c, core, Latest(ref), true, attributesRead).Done?
  }

  predicate StoredFresh(c: Config, core: Core, ref: RepoRef) {
    && KeyOf(Latest(ref)) in core.store
    && var o := core.store[KeyOf(Latest(ref))]; Fresh(c, o.body, o.origin, core.now)
  }

  /** In every run every latest object within the window of its own origin is served, exactly when no
      fallback is configured or the fallback age is at most the time-to-live. */
  lemma AlwaysServesIff(c: Config)
    ensures AlwaysServes(c) <==> !c.fallback || MaxAge(c) <= c.ttl
  {
    if !c.fallback || MaxAge(c) <= c.ttl {
      forall now: int, events: seq<Event>, ref: RepoRef, attributesRead: bool | ValidRef(ref)
        ensures var core := Run(c, now, events).core;
          StoredFresh(c, core, ref) ==> AfterLookup(c, core, Latest(ref), true, attributesRead).Done?
      {
        OriginTagsTrue(c, now, events, KeyOf(Latest(ref)));
        if !c.fallback { NoUpstreamRun(c, Init(now), events); }
      }
    } else {
      var ref := RepoRef(HOST_GITHUB, "o", "r");
      var events := LostTagRefuses(c, ref);
      assert StoredFresh(c, Run(c, 0, events).core, ref);
    }
  }

  // ---- Runs in which an attribute read fails ----

  function DatedDoc(instant: int): Doc { Doc(Date("", Some(instant)), "", "", []) }

  /** The state after a request has fetched and stored an upstream result. */
  function FilledState(ref: RepoRef, doc: Doc): State {
    var at := Latest(ref);
    State(Core(0, map[KeyOf(at) := Object(Json(doc), Upstream)], [], map[], 0, {}, {doc}),
          map[0 := Request(at, Done(UpstreamAnswer(doc), ViaFetch))])
  }

  lemma UpstreamFetched(c: Config, ref: RepoRef, doc: Doc) returns (events: seq<Event>)
    requires ValidRef(ref) && c.fallback && doc.commit == ""
    requires doc.date.instant.Some? && -doc.date.instant.value <= c.clientMaxAge
    ensures Run(c, 0, events) ==
            State(Init(0).core.(fetched := {doc}), map[0 := Request(Latest(ref), FillingLatest(doc))])
    ensures events == [Arrive(0, ref, ""), OfRequest(0, Lookup(true, true)), OfRequest(0, Decide(true, FetchFirst)),
                       OfRequest(0, Fetch(Http200(Json(doc))))]
  {
    var at, s := Latest(ref), Init(0);
    events := Then(c, 0, [], s, Arrive(0, ref, ""));
    events := Then(c, 0, events, s.(requests := map[0 := Request(at, Looking)]), OfRequest(0, Lookup(true, true)));
    events := Then(c, 0, events, s.(requests := map[0 := Request(at, Deciding)]), OfRequest(0, Decide(true, FetchFirst)));
    events := Then(c, 0, events, s.(requests := map[0 := Request(at, Fetching(None))]),
                   OfRequest(0, Fetch(Http200(Json(doc)))));
  }

  lemma UpstreamFilled(c: Config, ref: RepoRef, doc: Doc) returns (events: seq<Event>)
    requires ValidRef(ref) && c.fallback && doc.commit == ""
    requires doc.date.instant.Some? && -doc.date.instant.value <= c.clientMaxAge
    ensures Run(c, 0, events) == FilledState(ref, doc)
  {
    events := UpstreamFetched(c, ref, doc);
    var s := State(Init(0).core.(fetched := {doc}), map[0 := Request(Latest(ref), FillingLatest(doc))]);
    events := Then(c, 0, events, s, OfRequest(0, FillLatest(Written)));
  }

  /** A run in which a failed attribute read serves an upstream result as a cached local one. */
  lemma LostTagMislabels(c: Config, ref: RepoRef, doc: Doc) returns (events: seq<Event>)
    requires ValidRef(ref) && c.fallback && doc.commit == "" && doc.date.instant == Some(0)
    requires c.ttl >= 0 && c.clientMaxAge >= 0
    ensures var s := Run(c, 0, events);
      && 1 in s.requests && s.core.scanned == {}
      && s.requests[1].pc == Done(Ok(Ready(ProvenanceFrom(doc, FromCache), Json(doc))), ViaStore(Upstream, false, 0))
  {
    events := UpstreamFilled(c, ref, doc);
    var s := FilledState(ref, doc);
    events := Then(c, 0, events, s, Arrive(1, ref, ""));
    s := s.(requests := s.requests[1 := Request(Latest(ref), Looking)]);
    events := Then(c, 0, events, s, OfRequest(1, Lookup(true, false)));
  }

  /** A run in which such a read serves an upstream result past its own window, by the longer local one. */
  lemma LostTagOverstays(c: Config, ref: RepoRef) returns (events: seq<Event>)
    requires ValidRef(ref) && c.fallback && c.ttl > MaxAge(c)
    ensures 1 in Run(c, 0, events).requests && !InWindow(c, Run(c, 0, events).requests[1])
  {
    var age := if c.clientMaxAge < c.ttl then c.clientMaxAge else c.ttl;
    var doc := DatedDoc(-age);
    events := UpstreamFilled(c, ref, doc);
    var s := FilledState(ref, doc);
    events := Then(c, 0, events, s, Tick(c.ttl - age));
    s := s.(core := s.core.(now := c.ttl - age));
    events := Then(c, 0, events, s, Arrive(1, ref, ""));
    s := s.(requests := s.requests[1 := Request(Latest(ref), Looking)]);
    events := Then(c, 0, events, s, OfRequest(1, Lookup(true, false)));
  }

  /** Such a run at one input: a local window of 100, an upstream one of 1, a result 50 old. */
  lemma Overstays(ref: RepoRef) returns (events: seq<Event>)
    requires ValidRef(ref)
    ensures var c := Config(100, 1, 1, 1, true);
      var s := Run(c, 0, events);
      && 1 in s.requests && s.requests[1].pc.Done? && s.requests[1].pc.via == ViaStore(Upstream, false, 50)
      && s.requests[1].pc.answer == CachedOutcome(Json(DatedDoc(0)), Local)
      && !Fresh(c, Json(DatedDoc(0)), Upstream, 50)
  {
    var c := Config(100, 1, 1, 1, true);
    var doc := DatedDoc(0);
    events := UpstreamFilled(c, ref, doc);
    var s := FilledState(ref, doc);
    events := Then(c, 0, events, s, Tick(50));
    s := s.(core := s.core.(now := 50));
    events := Then(c, 0, events, s, Arrive(1, ref, ""));
    s := s.(requests := s.requests[1 := Request(Latest(ref), Looking)]);
    events := Then(c, 0, events, s, OfRequest(1, Lookup(true, false)));
  }

  /** A run in which such a read refuses an upstream result within its own window, by the shorter local one. */
  lemma LostTagRefuses(c: Config, ref: RepoRef) returns (events: seq<Event>)
    requires ValidRef(ref) && c.fallback && MaxAge(c) > c.ttl
    ensures var core := Run(c, 0, events).core;
      StoredFresh(c, core, ref) && AfterLookup(c, core, Latest(ref), true, false) == Deciding
  {
    var age := if c.clientMaxAge < MaxAge(c) then c.clientMaxAge else MaxAge(c);
    var doc := DatedDoc(-age);
    events := UpstreamFilled(c, ref, doc);
    events := Then(c, 0, events, FilledState(ref, doc), Tick(MaxAge(c) - age));
  }

  const ONE_DAY: int := 24 * 3600 * 1_000_000_000

  /** The configuration's defaults, with a fallback. */
  const DEFAULTS := Config(ONE_DAY, SEVEN_DAYS, SEVEN_DAYS, 4, true)

  /** Such a run with the default settings: two days after it was stored, a result fresh for five more is
      fetched again. */
  lemma DefaultsRefetch(ref: RepoRef) returns (events: seq<Event>)
    requires ValidRef(ref)
    ensures var s := Run(DEFAULTS, 0, events);
      && StoredFresh(DEFAULTS, s.core, ref) && s.core.now == 2 * ONE_DAY
      && 1 in s.requests && s.requests[1] == Request(Latest(ref), Fetching(None))
  {
    var doc := DatedDoc(0);
    events := UpstreamFilled(DEFAULTS, ref, doc);
    var s := FilledState(ref, doc);
    events := Then(DEFAULTS, 0, events, s, Tick(2 * ONE_DAY));
    s := s.(core := s.core.(now := 2 * ONE_DAY));
    events := Then(DEFAULTS, 0, events, s, Arrive(1, ref, ""));
    s := s.(requests := s.requests[1 := Request(Latest(ref), Looking)]);
    events := Then(DEFAULTS, 0, events, s, OfRequest(1, Lookup(true, false)));
    s := s.(requests := s.requests[1 := Request(Latest(ref), Deciding)]);
    events := Then(DEFAULTS, 0, events, s, OfRequest(1, Decide(true, FetchFirst)));
  }

  // ---- Runs of two requests for the latest result ----

  /** Both missed the store before the first one's scan, which has delivered and stored its result;
      the second has still to join. */
  function ScannedState(now: int, ref: RepoRef, doc: Doc): State {
    var at, o := Latest(ref), Object(Json(doc), Local);
    State(Core(now, map[Key(ref, doc.commit) := o][KeyOf(at) := o], [Flight(at, Delivered(LiveAnswer(doc)))],
               map[], 0, {doc}, {}),
          map[0 := Request(at, Waiting(0, false)), 1 := Request(at, Joining(false))])
  }

  function Both(at: Slot, p: Pc, q: Pc): map<nat, Request> { map[0 := Request(at, p), 1 := Request(at, q)] }

  function BothLooking(ref: RepoRef): seq<Event> {
    [Arrive(0, ref, ""), Arrive(1, ref, ""), OfRequest(0, Lookup(true, true)), OfRequest(1, Lookup(true, true))]
  }

  lemma BothLookUp(c: Config, now: int, ref: RepoRef)
    requires ValidRef(ref)
    ensures Run(c, now, BothLooking(ref)) == Init(now).(requests := Both(Latest(ref), Deciding, Deciding))
  {
    var at, s := Latest(ref), Init(now);
    var events := Then(c, now, [], s, Arrive(0, ref, ""));
    events := Then(c, now, events, s.(requests := map[0 := Request(at, Looking)]), Arrive(1, ref, ""));
    events := Then(c, now, events, s.(requests := Both(at, Looking, Looking)), OfRequest(0, Lookup(true, true)));
    events := Then(c, now, events, s.(requests := Both(at, Deciding, Looking)), OfRequest(1, Lookup(true, true)));
    assert events == BothLooking(ref);
  }

  lemma BothMiss(c: Config, now: int, ref: RepoRef) returns (events: seq<Event>)
    requires ValidRef(ref)
    ensures BothLooking(ref) <= events
    ensures Run(c, now, events) == Init(now).(requests := Both(Latest(ref), Joining(false), Joining(false)))
  {
    var at, s := Latest(ref), Init(now);
    BothLookUp(c, now, ref);
    events := Then(c, now, BothLooking(ref), s.(requests := Both(at, Deciding, Deciding)),
                   OfRequest(0, Decide(false, OtherMode)));
    events := Then(c, now, events, s.(requests := Both(at, Joining(false), Deciding)), OfRequest(1, Decide(false, OtherMode)));
  }

  /** The first one's flight, with its result about to be stored. */
  lemma FirstReturns(c: Config, now: int, ref: RepoRef, doc: Doc) returns (events: seq<Event>)
    requires ValidRef(ref) && doc.commit != ""
    ensures BothLooking(ref) <= events
    ensures Run(c, now, events) ==
            State(Core(now, map[], [Flight(Latest(ref), WritingPinned(doc))], map[Latest(ref) := 0], 0, {doc}, {}),
                  Both(Latest(ref), Waiting(0, false), Joining(false)))
  {
    events := BothMiss(c, now, ref);
    var at := Latest(ref);
    var s := Init(now).(requests := Both(at, Joining(false), Joining(false)));
    events := Then(c, now, events, s, OfRequest(0, Join));
    s := State(Core(now, map[], [Flight(at, Queued)], map[at := 0], 0, {}, {}), Both(at, Waiting(0, false), Joining(false)));
    events := Then(c, now, events, s, OfFlight(0, Acquire));
    s := s.(core := Core(now, map[], [Flight(at, Scanning)], map[at := 0], 1, {}, {}));
    events := Then(c, now, events, s, OfFlight(0, ScanReturns(Some(doc))));
  }

  lemma FirstScans(c: Config, now: int, ref: RepoRef, doc: Doc) returns (events: seq<Event>)
    requires ValidRef(ref) && doc.commit != ""
    ensures BothLooking(ref) <= events && Run(c, now, events) == ScannedState(now, ref, doc)
  {
    events := FirstReturns(c, now, ref, doc);
    var at, o := Latest(ref), Object(Json(doc), Local);
    var s := State(Core(now, map[], [Flight(at, WritingPinned(doc))], map[at := 0], 0, {doc}, {}),
                   Both(at, Waiting(0, false), Joining(false)));
    events := Then(c, now, events, s, OfFlight(0, PersistPinned(Written)));
    s := s.(core := s.core.(store := map[Key(ref, doc.commit) := o], flights := [Flight(at, WritingLatest(doc))]));
    events := Then(c, now, events, s, OfFlight(0, PersistLatest(Written)));
    s := s.(core := s.core.(store := s.core.store[KeyOf(at) := o], flights := [Flight(at, Returning(LiveAnswer(doc)))]));
    events := Then(c, now, events, s, OfFlight(0, Deliver));
  }

  /** A burst of two requests can lead to two scans: both look up first, the second joins after the
      first scan is done and stored, and starts another. */
  lemma BurstScansTwice(c: Config, now: int, ref: RepoRef, doc: Doc) returns (events: seq<Event>)
    requires ValidRef(ref) && doc.commit != ""
    ensures BothLooking(ref) <= events
    ensures var core := Run(c, now, events).core;
      && core.flights == [Flight(Latest(ref), Delivered(LiveAnswer(doc))), Flight(Latest(ref), Queued)]
      && Key(ref, "") in core.store && core.store[Key(ref, "")] == Object(Json(doc), Local)
  {
    events := FirstScans(c, now, ref, doc);
    events := Then(c, now, events, ScannedState(now, ref, doc), OfRequest(1, Join));
  }

  /** A later scan of the same commit with another result changes the pinned object. */
  lemma PinnedRewritten(c: Config, now: int, ref: RepoRef, doc: Doc, again: Doc)
    returns (events: seq<Event>, later: seq<Event>)
    requires ValidRef(ref) && IsHash(doc.commit) && again.commit == doc.commit && again != doc
    ensures var pinned := Key(ref, doc.commit);
      var before, after := Run(c, now, events).core.store, Run(c, now, events + later).core.store;
      && pinned in before && before[pinned] == Object(Json(doc), Local)
      && pinned in after && after[pinned] == Object(Json(again), Local)
  {
    var at, more, s := Latest(ref), [], ScannedState(now, ref, doc);
    events := FirstScans(c, now, ref, doc);
    SameKey(at, Slot(ref, doc.commit));
    more := Then(c, now, events, s, OfRequest(1, Join));
    s := State(s.core.(flights := s.core.flights + [Flight(at, Queued)], group := map[at := 1]),
               s.requests[1 := Request(at, Waiting(1, false))]);
    more := Then(c, now, more, s, OfFlight(1, Acquire));
    s := s.(core := s.core.(flights := s.core.flights[1 := Flight(at, Scanning)], taken := 1));
    more := Then(c, now, more, s, OfFlight(1, ScanReturns(Some(again))));
    s := s.(core := s.core.(flights := s.core.flights[1 := Flight(at, WritingPinned(again))], taken := 0,
                            scanned := {doc, again}));
    more := Then(c, now, more, s, OfFlight(1, PersistPinned(Written)));
    later := more[|events|..];
    assert events + later == more;
  }

  // ---- A time-to-live of zero ----

  /** With a time-to-live of 0 a local result is fresh exactly when it is not dated before now. */
  lemma ZeroTtlIff(c: Config, body: Body, now: int)
    requires c.ttl == 0
    ensures Fresh(c, body, Local, now) <==> body.Json? && body.doc.date.instant.Some? && now <= body.doc.date.instant.value
  {
  }

  /** No local result dated up to now is fresh: the latest result is always refreshed. */
  ghost predicate AlwaysRefreshes(c: Config) {
    forall doc: Doc, now: int ::
      doc.date.instant.Some? && doc.date.instant.value <= now ==> !Fresh(c, Json(doc), Local, now)
  }

  /** Latest results are always refreshed exactly for a negative time-to-live. */
  lemma AlwaysRefreshesIff(c: Config)
    ensures AlwaysRefreshes(c) <==> c.ttl < 0
  {
    assert c.ttl >= 0 ==> Fresh(c, Json(DatedDoc(0)), Local, 0);
  }

  /** A run in which a time-to-live of 0 serves a stored result without a scan. */
  lemma ZeroTtlServes(c: Config, now: int, ref: RepoRef, doc: Doc) returns (events: seq<Event>)
    requires ValidRef(ref) && doc.commit != "" && c.ttl == 0 && doc.date.instant == Some(now)
    ensures var s := Run(c, now, events);
      && 2 in s.requests && s.requests[2].pc == Done(CachedOutcome(Json(doc), Local), ViaStore(Local, true, now))
      && |s.core.flights| == 1
  {
    events := FirstScans(c, now, ref, doc);
    var s := ScannedState(now, ref, doc);
    events := Then(c, now, events, s, Arrive(2, ref, ""));
    s := s.(requests := s.requests[2 := Request(Latest(ref), Looking)]);
    events := Then(c, now, events, s, OfRequest(2, Lookup(true, true)));
  }
}
