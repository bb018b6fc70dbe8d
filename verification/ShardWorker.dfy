/** The batch worker's processing of one request: scan its repositories, export each result, and
    write the raw and then the canonical shard file. */
module ShardWorker {
  import opened Calendar
  import opened BlobNames
  import opened Controller

  /** What scanning one repository gives. Skipped covers an address that is neither GitHub nor
      GitLab, an unreachable repository and one behind an IP allow list; Broken every error that
      fails the request, a runtime error of a check included unless such errors are ignored. */
  datatype Scan = Skipped | Broken | Scanned(uri: string, commit: string, json: string, raw: string)

  datatype Store = Api | RawResults | Canonical

  datatype Write = Write(store: Store, key: string, bytes: string)

  // ---- What a request should write ----

  const RESULTS_FILE := "results.json"
  const RAW_FILE := "raw.json"

  /** The exports of one scanned repository, in the order they are written. */
  function Exports(s: Scan): (w: seq<Write>)
    requires s.Scanned?
    ensures |w| == 4
  {
    [Write(Api, s.uri + "/" + RESULTS_FILE, s.json),
     Write(Api, s.uri + "/" + s.commit + "/" + RESULTS_FILE, s.json),
     Write(Api, s.uri + "/" + RAW_FILE, s.raw),
     Write(Api, s.uri + "/" + s.commit + "/" + RAW_FILE, s.raw)]
  }

  /** The contents of the two shard files: one entry per scanned repository, in request order. */
  function Results(scans: seq<Scan>): string {
    if scans == [] then ""
    else Results(scans[..|scans| - 1]) + if scans[|scans| - 1].Scanned? then scans[|scans| - 1].json else ""
  }

  function RawResultsOf(scans: seq<Scan>): string {
    if scans == [] then ""
    else RawResultsOf(scans[..|scans| - 1]) + if scans[|scans| - 1].Scanned? then scans[|scans| - 1].raw else ""
  }

  function AllExports(scans: seq<Scan>): seq<Write> {
    if scans == [] then []
    else
      var last := scans[|scans| - 1];
      AllExports(scans[..|scans| - 1]) + if last.Scanned? then Exports(last) else []
  }

  function ShardWrites(scans: seq<Scan>, filename: string): seq<Write> {
    [Write(RawResults, filename, RawResultsOf(scans)), Write(Canonical, filename, Results(scans))]
  }

  /** The repositories before the first one whose scan fails the request. */
  function Unbroken(scans: seq<Scan>): (n: nat)
    ensures n <= |scans|
    ensures forall i :: 0 <= i < n ==> !scans[i].Broken?
    ensures n < |scans| ==> scans[n].Broken?
  {
    if scans == [] || scans[0].Broken? then 0 else 1 + Unbroken(scans[1..])
  }

  /** Every write the request calls for, in order: the shard files only if no scan breaks. */
  function Plan(scans: seq<Scan>, filename: string): seq<Write> {
    var n := Unbroken(scans);
    AllExports(scans[..n]) + if n == |scans| then ShardWrites(scans, filename) else []
  }

  lemma {:induction false} ExportsAreApi(scans: seq<Scan>)
    ensures forall i :: 0 <= i < |AllExports(scans)| ==> AllExports(scans)[i].store == Api
  {
    if scans != [] { ExportsAreApi(scans[..|scans| - 1]); }
  }

  lemma {:induction false} ExportsGrow(scans: seq<Scan>, i: nat)
    requires i <= |scans|
    ensures AllExports(scans[..i]) <= AllExports(scans)
    decreases |scans|
  {
    if i < |scans| {
      assert scans[..|scans| - 1][..i] == scans[..i];
      ExportsGrow(scans[..|scans| - 1], i);
    } else {
      assert scans[..i] == scans;
    }
  }

  /** The canonical write comes last of all, right after the raw one. */
  lemma CanonicalLast(scans: seq<Scan>, filename: string)
    ensures var plan := Plan(scans, filename);
      && (forall i :: 0 <= i < |plan| && plan[i].store == Canonical ==> i == |plan| - 1)
      && (forall i :: 0 <= i < |plan| && plan[i].store == RawResults ==> i == |plan| - 2)
      && ((exists i :: 0 <= i < |plan| && plan[i].store == Canonical) <==> Unbroken(scans) == |scans|)
  {
    ExportsAreApi(scans[..Unbroken(scans)]);
    if Unbroken(scans) == |scans| {
      var plan := Plan(scans, filename);
      assert plan[|plan| - 1].store == Canonical;
    }
  }

  // ---- Writing ----

  /** The buckets, by the writes attempted on them; `succeeds(i)` is how attempt i ends. */
  class Buckets {
    var attempts: seq<Write>
    const succeeds: nat -> bool

    constructor (succeeds: nat -> bool)
      ensures attempts == [] && this.succeeds == succeeds
    {
      attempts, this.succeeds := [], succeeds;
    }

    method WriteToBlobStore(w: Write) returns (ok: bool)
      modifies this
      ensures attempts == old(attempts) + [w] && ok == succeeds(|old(attempts)|)
    {
      ok := succeeds(|attempts|);
      attempts := attempts + [w];
    }
  }

  /** Every attempt from `from` up to `to` succeeded. */
  predicate AllSucceed(b: Buckets, from: nat, to: int) {
    forall i: nat :: from <= i < to ==> b.succeeds(i)
  }

  /** The first n writes of the plan were attempted after `before`, and all but perhaps the last
      succeeded. */
  ghost predicate Followed(b: Buckets, before: seq<Write>, plan: seq<Write>, n: nat)
    reads b
  {
    n <= |plan| && b.attempts == before + plan[..n] && AllSucceed(b, |before|, |before| + n - 1)
  }

  /** Writes in order until one fails. */
  method WriteAll(b: Buckets, writes: seq<Write>) returns (ok: bool, ghost n: nat)
    modifies b
    ensures Followed(b, old(b.attempts), writes, n)
    ensures ok ==> n == |writes| && AllSucceed(b, |old(b.attempts)|, |b.attempts|)
    ensures !ok ==> n > 0 && !b.succeeds(|b.attempts| - 1)
  {
    ghost var before := b.attempts;
    var i := 0;
    while i < |writes|
      invariant 0 <= i <= |writes|
      invariant b.attempts == before + writes[..i]
      invariant AllSucceed(b, |before|, |b.attempts|)
    {
      ok := b.WriteToBlobStore(writes[i]);
      assert writes[..i + 1] == writes[..i] + [writes[i]];
      if !ok { return false, i + 1; }
      i := i + 1;
    }
    ok, n := true, i;
  }

  /** The request failed: at a broken scan, with the whole plan written, or at a failed write. */
  ghost predicate Stopped(b: Buckets, before: seq<Write>, scans: seq<Scan>, filename: string, n: nat)
    reads b
  {
    var plan := Plan(scans, filename);
    && Followed(b, before, plan, n)
    && if n > 0 && !b.succeeds(|before| + n - 1) then true
       else n == |plan| && Unbroken(scans) < |scans| && AllSucceed(b, |before|, |before| + n)
  }

  lemma StoppedAtBroken(b: Buckets, before: seq<Write>, scans: seq<Scan>, i: nat, filename: string)
    requires i < |scans| && scans[i].Broken? && i <= Unbroken(scans)
    requires b.attempts == before + AllExports(scans[..i]) && AllSucceed(b, |before|, |b.attempts|)
    ensures Stopped(b, before, scans, filename, |Plan(scans, filename)|)
  {
  }

  /** Attempts that stop inside the exports of repository i are a prefix of the plan. */
  lemma StoppedInExports(b: Buckets, before: seq<Write>, scans: seq<Scan>, i: nat, filename: string, m: nat)
    requires i < Unbroken(scans) && scans[i].Scanned? && 0 < m <= 4
    requires b.attempts == before + AllExports(scans[..i]) + Exports(scans[i])[..m]
    requires AllSucceed(b, |before|, |b.attempts| - 1) && !b.succeeds(|b.attempts| - 1)
    ensures Stopped(b, before, scans, filename, |AllExports(scans[..i])| + m)
  {
    var n := |AllExports(scans[..i])| + m;
    PlanPrefix(scans, i, filename, m);
    assert b.attempts == before + Plan(scans, filename)[..n];
  }

  lemma PrefixSplits<T>(whole: seq<T>, xs: seq<T>, ys: seq<T>, m: nat)
    requires xs + ys <= whole && m <= |ys|
    ensures |xs| + m <= |whole| && whole[..|xs| + m] == xs + ys[..m]
  {
  }

  lemma ExportsOneMore(scans: seq<Scan>, i: nat)
    requires i < |scans| && scans[i].Scanned?
    ensures AllExports(scans[..i + 1]) == AllExports(scans[..i]) + Exports(scans[i])
  {
    assert scans[..i + 1][..i] == scans[..i];
  }

  lemma ExportsInPlan(scans: seq<Scan>, i: nat, filename: string)
    requires i <= Unbroken(scans)
    ensures AllExports(scans[..i]) <= Plan(scans, filename)
  {
    var k := Unbroken(scans);
    assert scans[..k][..i] == scans[..i];
    ExportsGrow(scans[..k], i);
  }

  lemma PlanPrefix(scans: seq<Scan>, i: nat, filename: string, m: nat)
    requires i < Unbroken(scans) && scans[i].Scanned? && m <= |Exports(scans[i])|
    ensures var n := |AllExports(scans[..i])| + m;
            n <= |Plan(scans, filename)| && Plan(scans, filename)[..n] == AllExports(scans[..i]) + Exports(scans[i])[..m]
  {
    ExportsOneMore(scans, i);
    ExportsInPlan(scans, i + 1, filename);
    PrefixSplits(Plan(scans, filename), AllExports(scans[..i]), Exports(scans[i]), m);
  }

  /** The repositories before i are exported, and nothing failed. */
  ghost predicate Exported(b: Buckets, before: seq<Write>, scans: seq<Scan>, i: nat)
    reads b
  {
    i <= Unbroken(scans) && b.attempts == before + AllExports(scans[..i]) && AllSucceed(b, |before|, |b.attempts|)
  }

  /** Exports one repository's result. */
  method ExportResult(b: Buckets, result: Scan, ghost before: seq<Write>, ghost scans: seq<Scan>, ghost i: nat,
                      ghost filename: string)
    returns (ok: bool, ghost n: nat)
    requires Exported(b, before, scans, i) && i < |scans| && scans[i] == result && result.Scanned?
    modifies b
    ensures ok ==> Exported(b, before, scans, i + 1)
    ensures !ok ==> Stopped(b, before, scans, filename, n)
  {
    assert scans[..i + 1][..i] == scans[..i];
    ghost var m;
    ok, m := WriteAll(b, Exports(result));
    n := |AllExports(scans[..i])| + m;
    if ok {
      assert Exports(result)[..m] == Exports(result);
    } else {
      StoppedInExports(b, before, scans, i, filename, m);
    }
  }

  /** The loop over the repositories: exports each result and collects the shard files' contents. */
  method ExportAll(b: Buckets, requests: seq<RepoRequest>, scan: RepoRequest -> Scan, ghost filename: string)
    returns (ok: bool, buffer2: string, rawBuffer: string, ghost n: nat)
    modifies b
    ensures var scans := Scans(requests, scan);
      ok ==> Unbroken(scans) == |scans| && Exported(b, old(b.attempts), scans, |scans|)
             && buffer2 == Results(scans) && rawBuffer == RawResultsOf(scans)
    ensures !ok ==> Stopped(b, old(b.attempts), Scans(requests, scan), filename, n)
  {
    ghost var scans := Scans(requests, scan);
    buffer2, rawBuffer, n := "", "", 0;
    var i := 0;
    while i < |requests|
      invariant 0 <= i <= |scans| && Exported(b, old(b.attempts), scans, i)
      invariant buffer2 == Results(scans[..i]) && rawBuffer == RawResultsOf(scans[..i])
    {
      var result := scan(requests[i]);
      assert scans[..i + 1][..i] == scans[..i];
      match result {
        case Skipped =>
        case Broken =>
          StoppedAtBroken(b, old(b.attempts), scans, i, filename);
          return false, buffer2, rawBuffer, |Plan(scans, filename)|;
        case Scanned(uri, commit, json, raw) =>
          buffer2 := buffer2 + json;
          rawBuffer := rawBuffer + raw;
          ok, n := ExportResult(b, result, old(b.attempts), scans, i, filename);
          if !ok { return; }
      }
      i := i + 1;
    }
    assert scans[..i] == scans;
    ok := true;
  }

  /** Writes the raw shard file, then the canonical one: the canonical bucket comes last, for the
      presence of the file there says the request is done. */
  method WriteShardFiles(b: Buckets, filename: string, raw: string, canonical: string)
    returns (ok: bool, ghost n: nat)
    modifies b
    ensures Followed(b, old(b.attempts), [Write(RawResults, filename, raw), Write(Canonical, filename, canonical)], n)
    ensures ok ==> n == 2 && AllSucceed(b, |old(b.attempts)|, |b.attempts|)
    ensures !ok ==> n > 0 && !b.succeeds(|b.attempts| - 1)
  {
    ok := b.WriteToBlobStore(Write(RawResults, filename, raw));
    n := 1;
    if !ok { return; }
    ok := b.WriteToBlobStore(Write(Canonical, filename, canonical));
    n := 2;
  }

  /** Attempts that stop at a shard file are a prefix of the plan; that of both files is the plan. */
  lemma ShardFilesFollow(b: Buckets, before: seq<Write>, scans: seq<Scan>, filename: string, m: nat)
    requires Unbroken(scans) == |scans| && AllSucceed(b, |before|, |before| + |AllExports(scans)|)
    requires Followed(b, before + AllExports(scans), ShardWrites(scans, filename), m)
    ensures var n := |AllExports(scans)| + m; Followed(b, before, Plan(scans, filename), n)
    ensures m == 2 ==> b.attempts == before + Plan(scans, filename)
  {
    assert scans[..|scans|] == scans;
    var plan, n := Plan(scans, filename), |AllExports(scans)| + m;
    assert plan[..n] == AllExports(scans) + ShardWrites(scans, filename)[..m];
    assert plan[..|plan|] == plan;
  }

  /** The attempts are a prefix of the plan that ends with it or at the first failing write; the
      request succeeds exactly when no scan breaks and the whole plan was written. */
  method ProcessRequest(b: Buckets, t: Time, shard: int, requests: seq<RepoRequest>, scan: RepoRequest -> Scan)
    returns (ok: bool, ghost n: nat)
    requires Valid(t.civil)
    modifies b
    ensures var scans := Scans(requests, scan);
      var plan := Plan(scans, ResultFilename(t, shard));
      && (ok ==> Unbroken(scans) == |scans| && b.attempts == old(b.attempts) + plan
                 && AllSucceed(b, |old(b.attempts)|, |b.attempts|))
      && (!ok ==> Stopped(b, old(b.attempts), scans, ResultFilename(t, shard), n))
  {
    var filename := ResultFilename(t, shard);
    ghost var scans := Scans(requests, scan);
    var buffer2, rawBuffer;
    ok, buffer2, rawBuffer, n := ExportAll(b, requests, scan, filename);
    if !ok { return; }
    assert scans[..|scans|] == scans;
    ok, n := WriteShardFiles(b, filename, rawBuffer, buffer2);
    ShardFilesFollow(b, old(b.attempts), scans, filename, n);
    n := |AllExports(scans)| + n;
  }

  function Scans(requests: seq<RepoRequest>, scan: RepoRequest -> Scan): (r: seq<Scan>)
    ensures |r| == |requests| && forall i :: 0 <= i < |requests| ==> r[i] == scan(requests[i])
  {
    seq(|requests|, i requires 0 <= i < |requests| => scan(requests[i]))
  }
}
