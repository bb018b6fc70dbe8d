/** The result store and the code that reads and writes it. What its methods do to the bucket is what
    the steps of the read-through protocol do to theirs. */
module ResultStore {
  import opened Wrappers
  import opened StoreKeys
  import opened ReadThrough

  // ---- The store ----

  datatype StoreError = NotFound | ReadFailed | WriteFailed | EmptyCommit

  class ResultStore {
    var objects: Store
    var writes: nat
    /** How the n-th write ends. */
    const results: nat -> WriteResult

    constructor (results: nat -> WriteResult)
      ensures objects == map[] && writes == 0 && this.results == results
    {
      objects, writes, this.results := map[], 0, results;
    }

    method WriteObject(key: string, body: Body, origin: Origin) returns (error: Option<StoreError>)
      modifies this
      ensures writes == old(writes) + 1
      ensures objects == AfterWrite(old(objects), key, Object(body, origin), results(old(writes)))
      ensures error == if results(old(writes)) == Written then None else Some(WriteFailed)
    {
      var w := results(writes);
      writes := writes + 1;
      objects := if w.Lost? then objects else objects[key := Object(body, origin)];
      error := if w.Written? then None else Some(WriteFailed);
    }

    method PutWithOrigin(ref: RepoRef, commit: string, body: Body, origin: Origin) returns (error: Option<StoreError>)
      modifies this
      ensures writes == old(writes) + 1
      ensures objects == AfterWrite(old(objects), Key(ref, commit), Object(body, origin), results(old(writes)))
      ensures error == if results(old(writes)) == Written then None else Some(WriteFailed)
    {
      error := WriteObject(Key(ref, commit), body, origin);
    }

    /** The pinned object first; the latest one only after that write succeeded. So where the latest
        object changed, the pinned one holds the same. */
    method PutLatestAndCommitWithOrigin(ref: RepoRef, commit: string, body: Body, origin: Origin)
      returns (error: Option<StoreError>)
      modifies this
      ensures commit == "" ==> error == Some(EmptyCommit) && objects == old(objects) && writes == old(writes)
      ensures commit != "" && results(old(writes)) != Written ==>
        && error == Some(WriteFailed) && writes == old(writes) + 1
        && objects == AfterWrite(old(objects), Key(ref, commit), Object(body, origin), results(old(writes)))
      ensures commit != "" && results(old(writes)) == Written ==>
        && writes == old(writes) + 2
        && error == (if results(old(writes) + 1) == Written then None else Some(WriteFailed))
        && objects == AfterWrite(old(objects)[Key(ref, commit) := Object(body, origin)], Key(ref, ""),
                               Object(body, origin), results(old(writes) + 1))
      ensures Key(ref, "") in objects && !(Key(ref, "") in old(objects) && objects[Key(ref, "")] == old(objects)[Key(ref, "")])
              && Key(ref, commit) != Key(ref, "") ==>
        Key(ref, commit) in objects && objects[Key(ref, commit)] == objects[Key(ref, "")] == Object(body, origin)
    {
      if commit == "" { return Some(EmptyCommit); }
      error := WriteObject(Key(ref, commit), body, origin);
      if error.Some? { return; }
      error := WriteObject(Key(ref, ""), body, origin);
    }

    /** `read` and `attributesRead` are whether the two reads of the bucket succeed. */
    method GetWithOrigin(ref: RepoRef, commit: string, read: bool, attributesRead: bool)
      returns (r: Result<Object, StoreError>)
      ensures r.Ok? <==> read && Key(ref, commit) in objects
      ensures r.Ok? ==> var o := objects[Key(ref, commit)]; r.value == Object(o.body, Reported(o.origin, attributesRead))
      ensures r.Err? ==> r.error == if read then NotFound else ReadFailed
    {
      var key := Key(ref, commit);
      if !read { return Err(ReadFailed); }
      if key !in objects { return Err(NotFound); }
      var origin := Local;
      if attributesRead { origin := objects[key].origin; }
      r := Ok(Object(objects[key].body, origin));
    }
  }

  // ---- The orchestrator's use of it ----

  /** GetOrProduce up to producing: None when a result has to be produced. This is the lookup step. */
  method ServeCached(store: ResultStore, c: Config, ref: RepoRef, commit: string, now: int,
                     read: bool, attributesRead: bool, ghost core: Core)
    returns (answer: Option<Answer>)
    requires store.objects == core.store && core.now == now
    ensures match AfterLookup(c, core, Slot(ref, commit), read, attributesRead)
            case Done(a, _) => answer == Some(a)
            case Deciding => answer == None
            case _ => false
  {
    var r := store.GetWithOrigin(ref, commit, read, attributesRead);
    match r {
      case Ok(Object(body, origin)) =>
        if commit != "" || Fresh(c, body, origin, now) { return Some(CachedOutcome(body, origin)); }
        answer := None;
      case Err(NotFound) => answer := None;
      case Err(_) => answer := Some(Err(StoreLookup));
    }
  }

  ghost function FlightRun(c: Config, core: Core, f: nat, events: seq<FlightEvent>): Core
    decreases |events|
  {
    if events == [] then core else FlightRun(c, FlightStep(c, core, f, events[0]), f, events[1..])
  }

  /** The write-back steps of a scan that returned this result, given how its writes end. */
  function WriteBack(commit: string, doc: Doc, w1: WriteResult, w2: WriteResult): seq<FlightEvent> {
    if commit == "" && doc.commit == "" then [ScanReturns(Some(doc))]
    else if commit == "" && w1 == Written then [ScanReturns(Some(doc)), PersistPinned(w1), PersistLatest(w2)]
    else [ScanReturns(Some(doc)), PersistPinned(w1)]
  }

  /** The bucket after persist, given how its writes end. */
  function Persisted(store: Store, ref: RepoRef, commit: string, doc: Doc, w1: WriteResult, w2: WriteResult): Store {
    var o := Object(Json(doc), Local);
    if commit != "" then AfterWrite(store, Key(ref, commit), o, w1)
    else if doc.commit == "" then store
    else
      var pinned := AfterWrite(store, Key(ref, doc.commit), o, w1);
      if w1 == Written then AfterWrite(pinned, Key(ref, ""), o, w2) else pinned
  }

  predicate Holds(core: Core, f: nat, slot: Slot, phase: Phase) {
    f < |core.flights| && core.flights[f] == Flight(slot, phase)
  }

  /** Writes a scan's result back; a failed write is not an error. */
  method Persist(store: ResultStore, ref: RepoRef, commit: string, doc: Doc)
    modifies store
    ensures store.objects == Persisted(old(store.objects), ref, commit, doc,
                                       store.results(old(store.writes)), store.results(old(store.writes) + 1))
  {
    if commit == "" {
      var _ := store.PutLatestAndCommitWithOrigin(ref, doc.commit, Json(doc), Local);
    } else {
      var _ := store.PutWithOrigin(ref, commit, Json(doc), Local);
    }
  }

  /** What persist does to the bucket is what the protocol's write-back steps do to it, and through
      them a returned scan comes to its answer whatever the writes do. */
  lemma PersistRefines(c: Config, core: Core, f: nat, slot: Slot, doc: Doc, w1: WriteResult, w2: WriteResult)
    requires Holds(core, f, slot, Scanning)
    ensures var after := FlightRun(c, core, f, WriteBack(slot.commit, doc, w1, w2));
      && after.store == Persisted(core.store, slot.ref, slot.commit, doc, w1, w2)
      && Holds(after, f, slot, Returning(LiveAnswer(doc)))
  {
    var events := WriteBack(slot.commit, doc, w1, w2);
    var s1 := FlightStep(c, core, f, events[0]);
    assert FlightRun(c, core, f, events) == FlightRun(c, s1, f, events[1..]);
    if |events| > 1 {
      assert Holds(s1, f, slot, WritingPinned(doc));
      var s2 := FlightStep(c, s1, f, events[1]);
      assert events[1..][0] == events[1] && events[1..][1..] == events[2..];
      assert FlightRun(c, s1, f, events[1..]) == FlightRun(c, s2, f, events[2..]);
      if |events| > 2 {
        assert Holds(s2, f, slot, WritingLatest(doc));
        assert events[2..][0] == events[2] && events[2..][1..] == [];
        assert FlightRun(c, s2, f, events[2..]) == FlightRun(c, FlightStep(c, s2, f, events[2]), f, []);
      }
    }
  }

  // ---- Backfilling ----

  ghost function RequestRun(c: Config, s: State, id: nat, events: seq<RequestEvent>): State
    decreases |events|
  {
    if events == [] then s else RequestRun(c, RequestStep(c, s, id, events[0]), id, events[1..])
  }

  /** The steps of backfill after an accepted fetch. */
  function FillBack(doc: Doc, w1: WriteResult, w2: WriteResult): seq<RequestEvent> {
    if doc.commit == "" then [FillLatest(w1)]
    else if w1 == Written then [FillPinned(w1), FillLatest(w2)]
    else [FillPinned(w1)]
  }

  predicate Accepted(s: State, id: nat, ref: RepoRef, doc: Doc) {
    id in s.requests
    && s.requests[id] == Request(Latest(ref), if doc.commit == "" then FillingLatest(doc) else FillingPinned(doc))
  }

  /** The bucket after backfill, given how its writes end. */
  function Backfilled(objects: Store, ref: RepoRef, doc: Doc, w1: WriteResult, w2: WriteResult)
    : Store
  {
    var o := Object(Json(doc), Upstream);
    if doc.commit == "" then AfterWrite(objects, Key(ref, ""), o, w1)
    else
      var pinned := AfterWrite(objects, Key(ref, doc.commit), o, w1);
      if w1 == Written then AfterWrite(pinned, Key(ref, ""), o, w2) else pinned
  }

  /** Writes an upstream result; a failed write is not an error. */
  method Backfill(store: ResultStore, ref: RepoRef, doc: Doc)
    modifies store
    ensures store.objects == Backfilled(old(store.objects), ref, doc,
                                        store.results(old(store.writes)), store.results(old(store.writes) + 1))
  {
    if doc.commit == "" {
      var _ := store.PutWithOrigin(ref, "", Json(doc), Upstream);
    } else {
      var _ := store.PutLatestAndCommitWithOrigin(ref, doc.commit, Json(doc), Upstream);
    }
  }

  /** What backfill does to the bucket is what the protocol's steps do to it after a fetch. */
  lemma BackfillRefines(c: Config, s: State, id: nat, ref: RepoRef, doc: Doc, w1: WriteResult, w2: WriteResult)
    requires Accepted(s, id, ref, doc)
    ensures var after := RequestRun(c, s, id, FillBack(doc, w1, w2));
      && after.core.store == Backfilled(s.core.store, ref, doc, w1, w2)
      && id in after.requests && after.requests[id] == Request(Latest(ref), Done(UpstreamAnswer(doc), ViaFetch))
  {
    var events := FillBack(doc, w1, w2);
    var s1 := RequestStep(c, s, id, events[0]);
    assert RequestRun(c, s, id, events) == RequestRun(c, s1, id, events[1..]);
    if |events| > 1 {
      assert s1.requests[id] == Request(Latest(ref), FillingLatest(doc));
      var s2 := RequestStep(c, s1, id, events[1]);
      assert events[1..][0] == events[1] && events[1..][1..] == [];
      assert RequestRun(c, s1, id, events[1..]) == RequestRun(c, s2, id, []);
    }
  }
}
