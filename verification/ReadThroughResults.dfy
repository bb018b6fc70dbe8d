/** The read-through cache's guarantees, for every run. */
module ReadThroughResults {
  import opened Wrappers
  import opened Text
  import opened StoreKeys
  import opened ReadThrough
  import Safety = ReadThroughSafety

  function Run(c: Config, now: int, events: seq<Event>): State { Exec(c, Init(now), events) }

  lemma RunOk(c: Config, now: int, events: seq<Event>)
    ensures Safety.Inv(c, Run(c, now, events))
  {
    Safety.InitOk(c, now);
    Safety.RunKeeps(c, Init(now), events);
  }

  lemma {:induction false} ExecAppend(c: Config, s: State, xs: seq<Event>, ys: seq<Event>)
    ensures Exec(c, s, xs + ys) == Exec(c, Exec(c, s, xs), ys)
    decreases |xs|
  {
    if xs == [] {
      assert xs + ys == ys;
    } else {
      assert (xs + ys)[1..] == xs[1..] + ys;
      ExecAppend(c, Step(c, s, xs[0]), xs[1..], ys);
    }
  }

  /** One event more. */
  lemma Then(c: Config, now: int, events: seq<Event>, s: State, e: Event) returns (more: seq<Event>)
    requires Run(c, now, events) == s
    ensures more == events + [e] && Run(c, now, more) == Step(c, s, e)
  {
    more := events + [e];
    ExecAppend(c, Init(now), events, [e]);
    assert Exec(c, s, [e]) == Exec(c, Step(c, s, e), []);
  }

  // ---- Single flight and the pool ----

  /** At most one scan is in flight per key; the slots taken are those of the scans that hold one,
      never more than the pool has. */
  lemma OneFlightPerKey(c: Config, now: int, events: seq<Event>)
    ensures var core := Run(c, now, events).core;
      && (forall f: nat, g: nat ::
            f < g < |core.flights| && KeyOf(core.flights[f].slot) == KeyOf(core.flights[g].slot) ==>
              core.flights[f].phase.Delivered? || core.flights[g].phase.Delivered?)
      && core.taken == |Safety.Holders(core)| && core.taken <= Capacity(c)
  {
    RunOk(c, now, events);
    var core := Run(c, now, events).core;
    forall f: nat, g: nat | f < g < |core.flights| && KeyOf(core.flights[f].slot) == KeyOf(core.flights[g].slot)
      ensures core.flights[f].phase.Delivered? || core.flights[g].phase.Delivered?
    {
      assert Safety.FlightOk(core, core.flights[f]) && Safety.FlightOk(core, core.flights[g]);
      SameKey(core.flights[f].slot, core.flights[g].slot);
    }
  }

  lemma SameKey(a: Slot, b: Slot)
    requires ValidSlot(a) && ValidSlot(b)
    ensures KeyOf(a) == KeyOf(b) <==> a == b
  {
    KeyInjective(a.ref, a.commit, b.ref, b.commit);
  }

  /** A flight of this key is under way. */
  ghost predicate UnderWay(core: Core, slot: Slot) {
    exists f: nat :: f < |core.flights| && Safety.Live(core.flights[f]) && KeyOf(core.flights[f].slot) == KeyOf(slot)
  }

  /** Joining starts a scan of its own exactly when none of the key is under way at that moment. */
  lemma JoinStartsIff(c: Config, now: int, events: seq<Event>, id: nat)
    requires RequestEnabled(Run(c, now, events), id, Join)
    ensures var s := Run(c, now, events);
      |Step(c, s, OfRequest(id, Join)).core.flights| > |s.core.flights| <==> !UnderWay(s.core, s.requests[id].slot)
  {
    RunOk(c, now, events);
    var s := Run(c, now, events);
    var core, slot := s.core, s.requests[id].slot;
    assert Safety.RequestOk(c, core, s.requests[id]);
    if slot in core.group {
      assert Safety.Live(core.flights[core.group[slot]]) && core.flights[core.group[slot]].slot == slot;
    }
    if UnderWay(core, slot) {
      var f: nat :| f < |core.flights| && Safety.Live(core.flights[f]) && KeyOf(core.flights[f].slot) == KeyOf(slot);
      assert Safety.FlightOk(core, core.flights[f]);
      SameKey(core.flights[f].slot, slot);
    }
  }

  /** All requests a flight answers get its one answer, the flight is of their own key, and an
      answer that is not an error is a scan's, with its provenance taken from its body. */
  lemma JoinedShareOutcome(c: Config, now: int, events: seq<Event>, i: nat, j: nat)
    ensures var s := Run(c, now, events);
      i in s.requests && j in s.requests && s.requests[i].pc.Done? && s.requests[j].pc.Done?
      && s.requests[i].pc.via.ViaFlight? && s.requests[i].pc.via == s.requests[j].pc.via ==>
        && s.requests[i].pc.answer == s.requests[j].pc.answer
        && s.requests[i].slot == s.requests[j].slot
        && Safety.ScanAnswerOk(s.core, s.requests[i].pc.answer)
  {
    RunOk(c, now, events);
    var s := Run(c, now, events);
    if i in s.requests && j in s.requests {
      assert Safety.RequestOk(c, s.core, s.requests[i]) && Safety.RequestOk(c, s.core, s.requests[j]);
    }
  }

  /** No event is a step of this request. */
  predicate NotOf(id: nat, events: seq<Event>) {
    forall i :: 0 <= i < |events| ==> !(events[i].OfRequest? && events[i].id == id)
  }

  /** The two states are the same but for where this request stands. */
  ghost predicate SameBut(id: nat, s: State, t: State) {
    && s.core == t.core && id in s.requests && id in t.requests
    && forall k :: k != id ==> (k in s.requests <==> k in t.requests) && (k in s.requests ==> s.requests[k] == t.requests[k])
  }

  lemma StepSameBut(c: Config, id: nat, s: State, t: State, e: Event)
    requires SameBut(id, s, t) && !(e.OfRequest? && e.id == id)
    ensures SameBut(id, Step(c, s, e), Step(c, t, e))
  {
  }

  lemma {:induction false} RunSameBut(c: Config, id: nat, s: State, t: State, events: seq<Event>)
    requires SameBut(id, s, t) && NotOf(id, events)
    ensures SameBut(id, Exec(c, s, events), Exec(c, t, events))
    decreases |events|
  {
    if events != [] {
      StepSameBut(c, id, s, t, events[0]);
      assert NotOf(id, events[1..]);
      RunSameBut(c, id, Step(c, s, events[0]), Step(c, t, events[0]), events[1..]);
    }
  }

  /** A request that times out or is cancelled neither cancels the scan nor stops its write-back:
      whatever the scans and all other requests do from there on, they do, store and answer exactly
      what they would have. */
  lemma LeavingKeepsTheScan(c: Config, s: State, id: nat, e: RequestEvent, later: seq<Event>)
    requires (e.TimeOut? || e.Cancel?) && RequestEnabled(s, id, e) && NotOf(id, later)
    ensures SameBut(id, Exec(c, Step(c, s, OfRequest(id, e)), later), Exec(c, s, later))
  {
    RunSameBut(c, id, Step(c, s, OfRequest(id, e)), s, later);
  }

  // ---- The store ----

  /** Whatever writes fail or interleave, a latest object that names a commit has its pinned object,
      whatever string the commit is. */
  lemma LatestImpliesPinned(c: Config, now: int, events: seq<Event>, ref: RepoRef)
    requires ValidRef(ref)
    ensures var store := Run(c, now, events).core.store;
      Key(ref, "") in store && store[Key(ref, "")].body.Json? && store[Key(ref, "")].body.doc.commit != "" ==>
        Key(ref, store[Key(ref, "")].body.doc.commit) in store
  {
    RunOk(c, now, events);
    assert Safety.PairOk(Run(c, now, events).core.store, ref);
  }

  /** Every stored object holds a result that was produced the way its origin tag says. */
  lemma OriginTagsTrue(c: Config, now: int, events: seq<Event>, key: string)
    ensures var core := Run(c, now, events).core;
      key in core.store ==>
        && core.store[key].body.Json?
        && (core.store[key].origin == Local ==> core.store[key].body.doc in core.scanned)
        && (core.store[key].origin == Upstream ==> core.store[key].body.doc in core.fetched)
  {
    RunOk(c, now, events);
    var core := Run(c, now, events).core;
    if key in core.store { assert Safety.TagOk(core, core.store[key]); }
  }

  datatype Landing = Landing(key: string, o: Object)

  predicate OfPinned(e: Event) { (e.OfFlight? && e.fe.PersistPinned?) || (e.OfRequest? && e.re.FillPinned?) }

  /** The write an event lands, if any. */
  function Landed(c: Config, s: State, e: Event): Option<Landing> {
    match e
    case OfFlight(f, fe) =>
      if !FlightEnabled(c, s.core, f, fe) then None
      else
        var flight := s.core.flights[f];
        (match fe
         case PersistPinned(w) =>
           if w.Lost? then None else Some(Landing(PinnedKey(flight), Object(Json(flight.phase.doc), Local)))
         case PersistLatest(w) =>
           if w.Lost? then None else Some(Landing(Key(flight.slot.ref, ""), Object(Json(flight.phase.doc), Local)))
         case _ => None)
    case OfRequest(id, re) =>
      if !RequestEnabled(s, id, re) then None
      else
        var r := s.requests[id];
        (match re
         case FillPinned(w) =>
           if w.Lost? then None else Some(Landing(Key(r.slot.ref, r.pc.doc.commit), Object(Json(r.pc.doc), Upstream)))
         case FillLatest(w) =>
           if w.Lost? then None else Some(Landing(Key(r.slot.ref, ""), Object(Json(r.pc.doc), Upstream)))
         case _ => None)
    case _ => None
  }

  function WithLanding(store: Store, l: Option<Landing>): Store {
    match l
    case None => store
    case Some(Landing(key, o)) => store[key := o]
  }

  lemma StoreStep(c: Config, s: State, e: Event)
    ensures Step(c, s, e).core.store == WithLanding(s.core.store, Landed(c, s, e))
  {
  }

  /** An object changes in a step exactly when the step lands another one under its key; under a
      pinned key only a pinned write does. */
  lemma PinnedChangesIff(c: Config, now: int, events: seq<Event>, e: Event, slot: Slot)
    requires ValidSlot(slot) && slot.commit != "" && KeyOf(slot) in Run(c, now, events).core.store
    ensures var s := Run(c, now, events);
      var landed := Landed(c, s, e);
      && (Step(c, s, e).core.store[KeyOf(slot)] != s.core.store[KeyOf(slot)] <==>
            landed.Some? && landed.value.key == KeyOf(slot) && landed.value.o != s.core.store[KeyOf(slot)])
      && (landed.Some? && landed.value.key == KeyOf(slot) ==> OfPinned(e))
  {
    var s := Run(c, now, events);
    RunOk(c, now, events);
    StoreStep(c, s, e);
    match e {
      case OfFlight(f, PersistLatest(_)) =>
        if FlightEnabled(c, s.core, f, e.fe) {
          assert Safety.FlightOk(s.core, s.core.flights[f]);
          SameKey(Latest(s.core.flights[f].slot.ref), slot);
        }
      case OfRequest(id, FillLatest(_)) =>
        if RequestEnabled(s, id, e.re) {
          assert Safety.RequestOk(c, s.core, s.requests[id]);
          SameKey(Latest(s.requests[id].slot.ref), slot);
        }
      case _ =>
    }
  }

  /** The event is a pinned write that lands another object under this key. */
  predicate WritesAnother(c: Config, s: State, key: string, e: Event) {
    var landed := Landed(c, s, e);
    OfPinned(e) && landed.Some? && landed.value.key == key && key in s.core.store && landed.value.o != s.core.store[key]
  }

  /** Where the run stands before its i-th event. */
  function Before(c: Config, s: State, events: seq<Event>, i: nat): State
    requires i <= |events|
  {
    Exec(c, s, events[..i])
  }

  predicate Holds(s: State, key: string, o: Object) { key in s.core.store && s.core.store[key] == o }

  /** From before to after the i-th event. */
  lemma PinnedStep(c: Config, now: int, before: seq<Event>, events: seq<Event>, i: nat, slot: Slot)
    requires ValidSlot(slot) && slot.commit != "" && i < |events|
    requires KeyOf(slot) in Before(c, Run(c, now, before), events, i).core.store
    ensures var s := Run(c, now, before);
      var t, u := Before(c, s, events, i), Before(c, s, events, i + 1);
      Holds(u, KeyOf(slot), t.core.store[KeyOf(slot)]) <==> !WritesAnother(c, t, KeyOf(slot), events[i])
  {
    var s := Run(c, now, before);
    ExecAppend(c, Init(now), before, events[..i]);
    ExecAppend(c, s, events[..i], [events[i]]);
    assert events[..i + 1] == events[..i] + [events[i]];
    var t := Before(c, s, events, i);
    assert Exec(c, t, [events[i]]) == Exec(c, Step(c, t, events[i]), []);
    PinnedChangesIff(c, now, before + events[..i], events[i], slot);
    StoreStep(c, t, events[i]);
  }

  lemma {:induction false} PinnedStands(c: Config, now: int, before: seq<Event>, events: seq<Event>, i: nat, slot: Slot)
    requires ValidSlot(slot) && slot.commit != "" && i <= |events| && KeyOf(slot) in Run(c, now, before).core.store
    requires var s := Run(c, now, before);
      forall j: nat :: j < i ==> !WritesAnother(c, Before(c, s, events, j), KeyOf(slot), events[j])
    ensures var s := Run(c, now, before); Holds(Before(c, s, events, i), KeyOf(slot), s.core.store[KeyOf(slot)])
  {
    if i > 0 {
      PinnedStands(c, now, before, events, i - 1, slot);
      PinnedStep(c, now, before, events, i - 1, slot);
    }
  }

  /** From any reachable state on, a pinned object stays as it is throughout a run exactly when no
      pinned write in it lands another object under its key. */
  lemma PinnedStandsIff(c: Config, now: int, before: seq<Event>, events: seq<Event>, slot: Slot)
    requires ValidSlot(slot) && slot.commit != "" && KeyOf(slot) in Run(c, now, before).core.store
    ensures var s, key := Run(c, now, before), KeyOf(slot);
      (forall i: nat :: i <= |events| ==> Holds(Before(c, s, events, i), key, s.core.store[key])) <==>
      (forall i: nat :: i < |events| ==> !WritesAnother(c, Before(c, s, events, i), key, events[i]))
  {
    var s, key := Run(c, now, before), KeyOf(slot);
    if forall i: nat :: i < |events| ==> !WritesAnother(c, Before(c, s, events, i), key, events[i]) {
      forall i: nat | i <= |events| ensures Holds(Before(c, s, events, i), key, s.core.store[key]) {
        PinnedStands(c, now, before, events, i, slot);
      }
    }
    if forall i: nat :: i <= |events| ==> Holds(Before(c, s, events, i), key, s.core.store[key]) {
      forall i: nat | i < |events| ensures !WritesAnother(c, Before(c, s, events, i), key, events[i]) {
        var next := i + 1;
        assert Holds(Before(c, s, events, next), key, s.core.store[key]);
        PinnedStep(c, now, before, events, i, slot);
      }
    }
  }

  // ---- Ready answers ----

  /** The source shown for a stored object is that of its own origin exactly when the attributes
      could be read or the object is local. */
  lemma SourceShownIff(c: Config, core: Core, slot: Slot, attributesRead: bool)
    ensures var pc := AfterLookup(c, core, slot, true, attributesRead);
      pc.Done? && pc.answer.Ok? ==>
        && KeyOf(slot) in core.store && pc.answer.value.Ready?
        && var stored := core.store[KeyOf(slot)].origin;
           (pc.answer.value.provenance.source == SourceOf(stored) <==> attributesRead || stored == Local)
  {
  }

  /** The body was produced as this origin says: by a scan, or by the upstream. */
  predicate ProducedAs(core: Core, doc: Doc, origin: Origin) {
    if origin == Upstream then doc in core.fetched else doc in core.scanned
  }

  /** Every ready answer's provenance is that of its body. One from a flight or a fetch shows how its
      body was produced. One from the store holds a body produced as the object's tag says, and shows
      the source of that tag exactly when the attributes could be read or the tag is local. */
  lemma ReadyMatchesBody(c: Config, now: int, events: seq<Event>, id: nat)
    ensures var s := Run(c, now, events);
      id in s.requests && s.requests[id].pc.Done? && s.requests[id].pc.answer.Ok?
      && s.requests[id].pc.answer.value.Ready? ==>
        var Ready(p, body) := s.requests[id].pc.answer.value;
        && body.Json? && p == ProvenanceFrom(body.doc, p.source)
        && match s.requests[id].pc.via
           case ViaStore(stored, attributesRead, _) =>
             && ProducedAs(s.core, body.doc, stored)
             && (p.source == SourceOf(stored) <==> attributesRead || stored == Local)
           case ViaFetch => p.source == FromUpstream && ProducedAs(s.core, body.doc, Upstream)
           case ViaFlight(_) => p.source == FromScan && ProducedAs(s.core, body.doc, Local)
           case ViaNothing => false
  {
    RunOk(c, now, events);
    var s := Run(c, now, events);
    if id in s.requests { assert Safety.RequestOk(c, s.core, s.requests[id]); }
  }

  // ---- Freshness ----

  /** A latest answer from the store is within the window of the object's own origin. */
  predicate InWindow(c: Config, r: Request) {
    r.slot.commit == "" && r.pc.Done? && r.pc.via.ViaStore? ==>
      && r.pc.answer.Ok? && r.pc.answer.value.Ready?
      && Fresh(c, r.pc.answer.value.body, r.pc.via.stored, r.pc.via.at)
  }

  /** Within the window of the origin reported always, and of the object's own origin at least when
      the attributes could be read, the object is local, or no local window exceeds an upstream one. */
  lemma ServedWithinWindow(c: Config, now: int, events: seq<Event>, id: nat)
    requires id in Run(c, now, events).requests
    ensures var s := Run(c, now, events);
      var Request(slot, pc) := s.requests[id];
      slot.commit == "" && pc.Done? && pc.via.ViaStore? ==>
        && pc.via.at <= s.core.now && pc.answer.Ok? && pc.answer.value.Ready?
        && Fresh(c, pc.answer.value.body, Reported(pc.via.stored, pc.via.attributesRead), pc.via.at)
        && (pc.via.attributesRead || pc.via.stored == Local || c.ttl <= MaxAge(c) ==> InWindow(c, s.requests[id]))
  {
    RunOk(c, now, events);
    var s := Run(c, now, events);
    assert Safety.RequestOk(c, s.core, s.requests[id]);
  }

  /** Without a fallback nothing ever comes from the upstream. */
  ghost predicate NoUpstream(s: State) {
    && s.core.fetched == {}
    && forall id :: id in s.requests ==> !AtUpstream(s.requests[id].pc)
  }

  predicate AtUpstream(pc: Pc) {
    pc.Fetching? || pc.FillingPinned? || pc.FillingLatest? || ((pc.Joining? || pc.Waiting?) && pc.net)
  }

  lemma NoUpstreamStep(c: Config, s: State, e: Event)
    requires !c.fallback && NoUpstream(s)
    ensures NoUpstream(Step(c, s, e))
  {
  }

  lemma {:induction false} NoUpstreamRun(c: Config, s: State, events: seq<Event>)
    requires !c.fallback && NoUpstream(s)
    ensures NoUpstream(Exec(c, s, events))
    decreases |events|
  {
    if events != [] {
      NoUpstreamStep(c, s, events[0]);
      NoUpstreamRun(c, Step(c, s, events[0]), events[1..]);
    }
  }

  /** A pinned request never goes to the upstream, and one that finds its object is answered by
      it at once, with no flight started. */
  lemma PinnedServedFromStore(c: Config, now: int, events: seq<Event>, id: nat)
    ensures var s := Run(c, now, events);
      id in s.requests && s.requests[id].slot.commit != "" ==>
        var r := s.requests[id];
        && !r.pc.Fetching? && !r.pc.FillingPinned? && !r.pc.FillingLatest? && (r.pc.Done? ==> !r.pc.via.ViaFetch?)
        && (r.pc == Looking && KeyOf(r.slot) in s.core.store ==>
              forall attributesRead :: var t := Step(c, s, OfRequest(id, Lookup(true, attributesRead)));
                && t.core == s.core && t.requests[id].pc.Done?
                && var o := s.core.store[KeyOf(r.slot)];
                   t.requests[id].pc.answer == CachedOutcome(o.body, Reported(o.origin, attributesRead)))
  {
    RunOk(c, now, events);
    var s := Run(c, now, events);
    if id in s.requests { assert Safety.RequestOk(c, s.core, s.requests[id]); }
  }

  ghost predicate FetchImpliesFresh(c: Config) {
    forall doc: Doc, now: int :: Fetched(c, Http200(Json(doc)), now).Some? ==> Fresh(c, Json(doc), Upstream, now)
  }

  /** With equal age bounds the fallback client accepts a result exactly when the store would serve
      it; and everything the client accepts is servable exactly when its bound is no larger. */
  lemma FetchAgreesWithFresh(c: Config)
    ensures c.clientMaxAge == MaxAge(c) ==>
      forall doc: Doc, now: int :: Fetched(c, Http200(Json(doc)), now).Some? <==> Fresh(c, Json(doc), Upstream, now)
    ensures FetchImpliesFresh(c) <==> c.clientMaxAge <= MaxAge(c)
  {
    var edge := Doc(Date("", Some(-c.clientMaxAge)), "", "", []);
    assert Fetched(c, Http200(Json(edge)), 0).Some?;
    assert Fresh(c, Json(edge), Upstream, 0) <==> c.clientMaxAge <= MaxAge(c);
  }

  // ---- Backfilling ----

  /** No step of the run lands a write under this key. */
  ghost predicate Undisturbed(c: Config, s: State, key: string, events: seq<Event>)
    decreases |events|
  {
    events == [] ||
    (var landed := Landed(c, s, events[0]);
     !(landed.Some? && landed.value.key == key) && Undisturbed(c, Step(c, s, events[0]), key, events[1..]))
  }

  function Elapsed(events: seq<Event>): nat {
    if events == [] then 0 else (if events[0].Tick? then events[0].elapsed else 0) + Elapsed(events[1..])
  }

  lemma {:induction false} ClockRuns(c: Config, s: State, events: seq<Event>)
    ensures Exec(c, s, events).core.now == s.core.now + Elapsed(events)
    decreases |events|
  {
    if events != [] { ClockRuns(c, Step(c, s, events[0]), events[1..]); }
  }

  lemma {:induction false} ObjectStands(c: Config, s: State, key: string, events: seq<Event>)
    requires Undisturbed(c, s, key, events) && key in s.core.store
    ensures var t := Exec(c, s, events).core; key in t.store && t.store[key] == s.core.store[key]
    decreases |events|
  {
    if events != [] {
      StoreStep(c, s, events[0]);
      ObjectStands(c, Step(c, s, events[0]), key, events[1..]);
    }
  }

  lemma {:induction false} SlotStays(c: Config, s: State, id: nat, events: seq<Event>)
    requires id in s.requests
    ensures var t := Exec(c, s, events); id in t.requests && t.requests[id].slot == s.requests[id].slot
    decreases |events|
  {
    if events != [] { SlotStays(c, Step(c, s, events[0]), id, events[1..]); }
  }

  /** A validated commit never leads to a latest object. */
  lemma HashIsNotLatest(other: RepoRef, commit: string, ref: RepoRef)
    requires ValidRef(other) && ValidRef(ref) && Key(other, commit) == Key(ref, "")
    ensures !IsHash(commit)
  {
    if IsHash(commit) { SameKey(Slot(other, commit), Latest(ref)); }
  }

  /** A write under a latest key is one of that repository's latest object, or of a pinned one that a
      commit string no validation would let through leads there. */
  lemma LatestWrittenBy(c: Config, now: int, events: seq<Event>, e: Event, ref: RepoRef)
    requires ValidRef(ref)
    ensures var landed := Landed(c, Run(c, now, events), e);
      landed.Some? && landed.value.key == Key(ref, "") && OfPinned(e) ==>
        landed.value.o.body.Json? && !IsHash(landed.value.o.body.doc.commit)
  {
    var s := Run(c, now, events);
    RunOk(c, now, events);
    var landed := Landed(c, s, e);
    if landed.Some? && landed.value.key == Key(ref, "") && OfPinned(e) {
      if e.OfFlight? {
        var flight := s.core.flights[e.flight];
        assert Safety.FlightOk(s.core, flight);
        if flight.slot.commit != "" {
          SameKey(flight.slot, Latest(ref));
        } else {
          HashIsNotLatest(flight.slot.ref, flight.phase.doc.commit, ref);
        }
      } else {
        assert Safety.RequestOk(c, s.core, s.requests[e.id]);
        HashIsNotLatest(s.requests[e.id].slot.ref, s.requests[e.id].pc.doc.commit, ref);
      }
    }
  }

  /** The age a result has after these events. */
  function AgeAfter(s: State, events: seq<Event>, doc: Doc): int
    requires doc.date.instant.Some?
  {
    s.core.now + Elapsed(events) - doc.date.instant.value
  }

  function Upstream200(doc: Doc): RequestEvent { Fetch(Http200(Json(doc))) }

  /** The state in which a fetched result is about to be stored as the latest, after other events. */
  function Fetched200(c: Config, s: State, id: nat, doc: Doc, between: seq<Event>): State {
    Exec(c, Step(c, s, OfRequest(id, Upstream200(doc))), between)
  }

  function Filled(c: Config, s: State, id: nat, doc: Doc, between: seq<Event>, w: WriteResult): State {
    Step(c, Fetched200(c, s, id, doc, between), OfRequest(id, FillLatest(w)))
  }

  /** The request's fetch is accepted in s, and after `between` it stores the result as the latest,
      by a write that lands. */
  predicate Backfills(c: Config, s: State, id: nat, doc: Doc, between: seq<Event>, w: WriteResult) {
    && RequestEnabled(s, id, Upstream200(doc)) && Fetched(c, Http200(Json(doc)), s.core.now) == Some(doc)
    && var t := Fetched200(c, s, id, doc, between);
       RequestEnabled(t, id, FillLatest(w)) && t.requests[id].pc.doc == doc && !w.Lost?
  }

  lemma BackfillLands(c: Config, s: State, id: nat, doc: Doc, between: seq<Event>, w: WriteResult)
    requires Safety.Inv(c, s) && Backfills(c, s, id, doc, between, w)
    ensures var slot, t := s.requests[id].slot, Filled(c, s, id, doc, between, w);
      && slot == Latest(slot.ref) && ValidRef(slot.ref)
      && id in t.requests && t.requests[id] == Request(slot, Done(UpstreamAnswer(doc), ViaFetch))
      && Key(slot.ref, "") in t.core.store && t.core.store[Key(slot.ref, "")] == Object(Json(doc), Upstream)
      && t.core.now == s.core.now + Elapsed(between)
  {
    assert Safety.RequestOk(c, s.core, s.requests[id]);
    var begun := Step(c, s, OfRequest(id, Upstream200(doc)));
    SlotStays(c, begun, id, between);
    ClockRuns(c, begun, between);
  }

  /** An accepted fetch that is stored is what every later request for the latest result finds, for as
      long as nothing else is written under its key. It is answered by lookup alone, as the fetching one
      was, exactly while the result is within the window of the origin then reported: its own, the
      upstream's, if the attributes can be read, and the local one otherwise. It is within a window at
      least until the time that has passed exceeds what the fallback client's own bound leaves of it. */
  lemma BackfillAnswersLaterRequests(c: Config, now: int, before: seq<Event>, fetcher: nat, doc: Doc, between: seq<Event>,
                                     w: WriteResult, later: seq<Event>, id: nat, attributesRead: bool)
    requires Backfills(c, Run(c, now, before), fetcher, doc, between, w)
    requires var s := Run(c, now, before);
      var slot, filled := s.requests[fetcher].slot, Filled(c, s, fetcher, doc, between, w);
      var t := Exec(c, filled, later);
      Undisturbed(c, filled, KeyOf(slot), later) && (id in t.requests ==> t.requests[id] == Request(slot, Looking))
    ensures var s := Run(c, now, before);
      var slot, filled := s.requests[fetcher].slot, Filled(c, s, fetcher, doc, between, w);
      var t := Exec(c, filled, later);
      var u := Step(c, Step(c, t, Arrive(id, slot.ref, "")), OfRequest(id, Lookup(true, attributesRead)));
      var window := Window(c, Reported(Upstream, attributesRead));
      && fetcher in filled.requests && filled.requests[fetcher].pc == Done(UpstreamAnswer(doc), ViaFetch)
      && u.core == t.core && id in u.requests
      && u.requests[id].pc == (if AgeAfter(s, between + later, doc) <= window
                               then UpstreamFound(doc, attributesRead, t.core.now) else Deciding)
      && (c.clientMaxAge + Elapsed(between + later) <= window ==> AgeAfter(s, between + later, doc) <= window)
  {
    var s := Run(c, now, before);
    RunOk(c, now, before);
    var slot, filled := s.requests[fetcher].slot, Filled(c, s, fetcher, doc, between, w);
    BackfillLands(c, s, fetcher, doc, between, w);
    ObjectStands(c, filled, KeyOf(slot), later);
    ClockRuns(c, filled, later);
    ElapsedAppend(between, later);
    LookupOf(c, Exec(c, filled, later), id, slot.ref, doc, attributesRead);
  }

  lemma {:induction false} ElapsedAppend(xs: seq<Event>, ys: seq<Event>)
    ensures Elapsed(xs + ys) == Elapsed(xs) + Elapsed(ys)
  {
    if xs == [] {
      assert xs + ys == ys;
    } else {
      assert (xs + ys)[1..] == xs[1..] + ys;
      ElapsedAppend(xs[1..], ys);
    }
  }

  /** A request answered by the stored upstream result: as the fetching one was, if the attributes could
      be read, and otherwise as by a local one. */
  function UpstreamFound(doc: Doc, attributesRead: bool, at: int): Pc {
    Done(if attributesRead then UpstreamAnswer(doc) else Ok(Ready(ProvenanceFrom(doc, FromCache), Json(doc))),
         ViaStore(Upstream, attributesRead, at))
  }

  /** Looking up an upstream object. */
  lemma LookupOf(c: Config, t: State, id: nat, ref: RepoRef, doc: Doc, attributesRead: bool)
    requires ValidRef(ref) && doc.date.instant.Some?
    requires id in t.requests ==> t.requests[id] == Request(Latest(ref), Looking)
    requires Key(ref, "") in t.core.store && t.core.store[Key(ref, "")] == Object(Json(doc), Upstream)
    ensures var u := Step(c, Step(c, t, Arrive(id, ref, "")), OfRequest(id, Lookup(true, attributesRead)));
      && u.core == t.core && id in u.requests
      && u.requests[id].pc == (if t.core.now - doc.date.instant.value <= Window(c, Reported(Upstream, attributesRead))
                               then UpstreamFound(doc, attributesRead, t.core.now) else Deciding)
  {
    var v := Step(c, t, Arrive(id, ref, ""));
    assert v.requests[id] == Request(Latest(ref), Looking) && v.core == t.core;
  }
}
