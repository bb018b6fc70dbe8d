/** The batch controller: cutting the inventory into numbered shards while one request object
    and one shard-number cell are reused throughout, and the publisher that snapshots them. */
module Controller {
  import opened Wrappers
  import opened Calendar
  import opened Iterators

  const HEAD_SHA := "HEAD"
  const TWO31: int := 0x8000_0000

  /** Go's int32 arithmetic. */
  function Wrap32(x: int): int {
    var r := x % 0x1_0000_0000;
    if r >= 0x8000_0000 then r - 0x1_0000_0000 else r
  }

  /** Numbers a multiple of 2^32 apart wrap to the same. */
  lemma WrapShift(x: int, k: int)
    ensures Wrap32(x + k * 0x1_0000_0000) == Wrap32(x)
  {
    var q, r := x / 0x1_0000_0000, x % 0x1_0000_0000;
    assert x + k * 0x1_0000_0000 == (q + k) * 0x1_0000_0000 + r;
  }

  lemma WrapNext(x: int)
    ensures Wrap32(Wrap32(x) + 1) == Wrap32(x + 1) && Wrap32(Wrap32(x) - 1) == Wrap32(x - 1)
  {
    var q := x / 0x1_0000_0000;
    var k := if Wrap32(x) < 0 then q + 1 else q;
    assert x == Wrap32(x) + k * 0x1_0000_0000;
    WrapShift(Wrap32(x) + 1, k);
    WrapShift(Wrap32(x) - 1, k);
  }

  datatype RepoRequest = RepoRequest(url: string, commit: string, metadata: seq<string>)

  /** A marshalled ScorecardBatchRequest. */
  datatype Batch = Batch(jobTime: Time, shardNum: int, repos: seq<RepoRequest>)

  function ToRequest(repo: RepoFormat): RepoRequest { RepoRequest(repo.repo, HEAD_SHA, repo.metadata) }

  function ToRequests(repos: seq<RepoFormat>): (r: seq<RepoRequest>)
    ensures |r| == |repos| && forall i :: 0 <= i < |repos| ==> r[i] == ToRequest(repos[i])
  {
    seq(|repos|, i requires 0 <= i < |repos| => ToRequest(repos[i]))
  }

  // ---- Cutting a sequence into shards ----

  function Size(shardSize: int): nat { if shardSize < 1 then 1 else shardSize }

  function Chunks(repos: seq<RepoRequest>, size: nat): seq<seq<RepoRequest>>
    requires size >= 1
  {
    if repos == [] then []
    else if |repos| <= size then [repos]
    else [repos[..size]] + Chunks(repos[size..], size)
  }

  function Flatten(chunks: seq<seq<RepoRequest>>): seq<RepoRequest> {
    if chunks == [] then [] else chunks[0] + Flatten(chunks[1..])
  }

  /** n is the quotient of a over b, rounded up. */
  predicate RoundsUp(n: int, a: int, b: int) { (n - 1) * b < a <= n * b }

  /** Concatenating the shards gives the input back in order; every shard but the last has exactly
      `size` repositories and the last is not empty; their number is the input's length over
      `size`, rounded up. */
  lemma {:induction false} ChunkFacts(repos: seq<RepoRequest>, size: nat)
    requires size >= 1
    ensures var chunks := Chunks(repos, size);
      && Flatten(chunks) == repos
      && (forall i :: 0 <= i < |chunks| - 1 ==> |chunks[i]| == size)
      && (chunks != [] ==> 1 <= |chunks[|chunks| - 1]| <= size)
      && RoundsUp(|chunks|, |repos|, size)
  {
    if repos == [] {
    } else if |repos| <= size {
      assert Flatten([repos]) == repos + Flatten([repos][1..]);
    } else {
      var rest := Chunks(repos[size..], size);
      ChunkFacts(repos[size..], size);
      assert Chunks(repos, size)[1..] == rest;
      assert repos == repos[..size] + repos[size..];
      OneMore(|rest|, |repos| - size, size);
    }
  }

  lemma OneMore(n: int, a: int, b: int)
    requires RoundsUp(n, a, b)
    ensures RoundsUp(n + 1, a + b, b)
  {
  }

  /** Cutting off full shards leaves the cut of the rest. */
  lemma {:induction false} ChunksOf(full: seq<seq<RepoRequest>>, rest: seq<RepoRequest>, size: nat)
    requires size >= 1 && forall i :: 0 <= i < |full| ==> |full[i]| == size
    ensures Chunks(Flatten(full) + rest, size) == full + Chunks(rest, size)
  {
    var all := Flatten(full) + rest;
    if full == [] {
      assert all == rest;
    } else {
      ChunksOf(full[1..], rest, size);
      assert all == full[0] + (Flatten(full[1..]) + rest);
      assert all[..size] == full[0] && all[size..] == Flatten(full[1..]) + rest;
      if |all| == size {
        assert all == full[0] && Chunks(all[size..], size) == [];
      }
    }
  }

  lemma {:induction false} FlattenAppend(chunks: seq<seq<RepoRequest>>, chunk: seq<RepoRequest>)
    ensures Flatten(chunks + [chunk]) == Flatten(chunks) + chunk
  {
    if chunks == [] {
      assert [chunk][1..] == [];
    } else {
      FlattenAppend(chunks[1..], chunk);
      assert (chunks + [chunk])[1..] == chunks[1..] + [chunk];
    }
  }

  /** The messages of a run: shard i carries number i, as an int32. */
  function Numbered(t: Time, chunks: seq<seq<RepoRequest>>): (batches: seq<Batch>)
    ensures |batches| == |chunks|
  {
    seq(|chunks|, i requires 0 <= i < |chunks| => Batch(t, Wrap32(i), chunks[i]))
  }

  lemma NumberedAppend(t: Time, chunks: seq<seq<RepoRequest>>, chunk: seq<RepoRequest>)
    ensures Numbered(t, chunks + [chunk]) == Numbered(t, chunks) + [Batch(t, Wrap32(|chunks|), chunk)]
  {
  }

  // ---- The publisher ----

  class ShardNumber {
    var value: int

    constructor ()
      ensures value == 0
    {
      value := 0;
    }
  }

  class BatchRequest {
    const jobTime: Time
    const shardNum: ShardNumber
    var repos: seq<RepoRequest>

    constructor (jobTime: Time, shardNum: ShardNumber)
      ensures this.jobTime == jobTime && this.shardNum == shardNum && repos == []
    {
      this.jobTime, this.shardNum, repos := jobTime, shardNum, [];
    }
  }

  /** `accepts(i)` is whether the queue takes send number i; sends finish in any order before Close
      returns. `marshals` is whether a request can be encoded. */
  class Publisher {
    var sent: seq<Batch>
    const accepts: nat -> bool
    const marshals: Batch -> bool

    constructor (accepts: nat -> bool, marshals: Batch -> bool)
      ensures sent == [] && this.accepts == accepts && this.marshals == marshals
    {
      sent, this.accepts, this.marshals := [], accepts, marshals;
    }

    /** The message is encoded before the goroutine starts, so it keeps what the request held then. */
    method Publish(request: BatchRequest) returns (ok: bool)
      modifies this
      ensures var batch := Batch(request.jobTime, request.shardNum.value, request.repos);
              ok == marshals(batch) && sent == if ok then old(sent) + [batch] else old(sent)
    {
      var msg := Batch(request.jobTime, request.shardNum.value, request.repos);
      ok := marshals(msg);
      if ok { sent := sent + [msg]; }
    }

    /** Waits for every send and counts the errors. */
    method Close() returns (errors: nat)
      ensures errors == |set i: nat | i < |sent| && !accepts(i)|
      ensures errors == 0 <==> forall i: nat :: i < |sent| ==> accepts(i)
    {
      errors := 0;
      var i: nat := 0;
      while i < |sent|
        invariant i <= |sent|
        invariant errors == |set k: nat | k < i && !accepts(k)|
        invariant errors == 0 <==> forall k: nat :: k < i ==> accepts(k)
      {
        ghost var failed := set k: nat | k < i && !accepts(k);
        if accepts(i) {
          assert (set k: nat | k < i + 1 && !accepts(k)) == failed;
        } else {
          assert (set k: nat | k < i + 1 && !accepts(k)) == failed + {i};
          errors := errors + 1;
        }
        i := i + 1;
      }
    }
  }

  // ---- The publishing loop ----

  datatype PublishError = ReadFailed(error: IterError) | MarshalFailed | SendsFailed(count: nat)

  /** Between two repositories: the full shards cut so far were sent, the rest are pending. */
  ghost predicate Cutting(got: seq<RepoFormat>, full: seq<seq<RepoRequest>>, pending: seq<RepoRequest>,
                          sent: seq<Batch>, number: int, t: Time, size: nat)
  {
    && ToRequests(got) == Flatten(full) + pending
    && (forall i :: 0 <= i < |full| ==> |full[i]| == size)
    && sent == Numbered(t, full)
    && number == Wrap32(|full|)
  }

  lemma CutFull(got: seq<RepoFormat>, full: seq<seq<RepoRequest>>, pending: seq<RepoRequest>,
                sent: seq<Batch>, number: int, t: Time, size: nat)
    requires Cutting(got, full, pending, sent, number, t, size) && |pending| == size
    ensures Cutting(got, full + [pending], [], sent + [Batch(t, number, pending)], Wrap32(number + 1), t, size)
  {
    FlattenAppend(full, pending);
    NumberedAppend(t, full, pending);
    WrapNext(|full|);
  }

  /** At the end a non-empty rest is the last shard, and an empty one gives its number back. */
  lemma CutEnd(got: seq<RepoFormat>, full: seq<seq<RepoRequest>>, pending: seq<RepoRequest>,
               sent: seq<Batch>, number: int, t: Time, size: nat)
    requires Cutting(got, full, pending, sent, number, t, size) && |pending| < size
    ensures var chunks := Chunks(ToRequests(got), size);
      && (pending != [] ==> Numbered(t, chunks) == sent + [Batch(t, number, pending)] && number == Wrap32(|chunks| - 1))
      && (pending == [] ==> Numbered(t, chunks) == sent && Wrap32(number - 1) == Wrap32(|chunks| - 1))
  {
    ChunksOf(full, pending, size);
    NumberedAppend(t, full, pending);
    WrapNext(|full|);
    assert full + [] == full;
  }

  lemma CutStopped(got: seq<RepoFormat>, full: seq<seq<RepoRequest>>, pending: seq<RepoRequest>,
                   sent: seq<Batch>, number: int, t: Time, size: nat, tail: seq<RepoFormat>)
    requires size >= 1 && Cutting(got, full, pending, sent, number, t, size)
    ensures sent <= Numbered(t, Chunks(ToRequests(got + tail), size))
  {
    assert ToRequests(got + tail) == Flatten(full) + pending + ToRequests(tail);
    SentSoFar(full, pending, ToRequests(tail), t, size);
  }

  /** One turn of the loop: take the repository in, and send the shard when it is full. */
  method AddRepo(publisher: Publisher, request: BatchRequest, repo: RepoFormat, shardSize: int,
                 ghost got: seq<RepoFormat>, ghost full: seq<seq<RepoRequest>>)
    returns (ok: bool, ghost now: seq<seq<RepoRequest>>)
    requires Cutting(got, full, request.repos, publisher.sent, request.shardNum.value, request.jobTime, Size(shardSize))
    requires |request.repos| < Size(shardSize)
    modifies publisher, request, request.shardNum
    ensures ok ==> |request.repos| < Size(shardSize)
    ensures ok ==>
      Cutting(got + [repo], now, request.repos, publisher.sent, request.shardNum.value, request.jobTime, Size(shardSize))
    ensures !ok ==> publisher.sent == old(publisher.sent) && exists batch :: !publisher.marshals(batch)
  {
    request.repos := request.repos + [ToRequest(repo)];
    now, ok := full, true;
    if |request.repos| >= shardSize {
      CutFull(got + [repo], full, request.repos, publisher.sent, request.shardNum.value, request.jobTime, Size(shardSize));
      ok := publisher.Publish(request);
      if ok {
        now := full + [request.repos];
        request.repos := [];
        request.shardNum.value := Wrap32(request.shardNum.value + 1);
      }
    }
  }

  /** One turn of the loop from a record: read it and take it in. */
  method TakeRecord(iter: NestedIterator, publisher: Publisher, request: BatchRequest, shardSize: int,
                    ghost line: Line, ghost got: seq<RepoFormat>, ghost full: seq<seq<RepoRequest>>)
    returns (err: Option<PublishError>, ghost more: seq<RepoFormat>, ghost now: seq<seq<RepoRequest>>)
    requires iter.Valid() && iter.Holds(line)
    requires Cutting(got, full, request.repos, publisher.sent, request.shardNum.value, request.jobTime, Size(shardSize))
    requires |request.repos| < Size(shardSize)
    modifies publisher, request, request.shardNum
    ensures err == None ==>
      && Interpret(line, iter.valid).Ok? && more == got + [Interpret(line, iter.valid).value]
      && Cutting(more, now, request.repos, publisher.sent, request.shardNum.value, request.jobTime, Size(shardSize))
      && |request.repos| < Size(shardSize)
    ensures err.Some? ==> publisher.sent == old(publisher.sent)
    ensures match err
            case None => true
            case Some(ReadFailed(e)) => Interpret(line, iter.valid) == Err(e)
            case Some(MarshalFailed) => exists batch :: !publisher.marshals(batch)
            case Some(SendsFailed(_)) => false
  {
    more, now := got, full;
    var repo := iter.Next();
    if repo.Err? { return Some(ReadFailed(repo.error)), got, full; }
    var ok;
    ok, now := AddRepo(publisher, request, repo.value, shardSize, got, full);
    if !ok { return Some(MarshalFailed), got, now; }
    err, more := None, got + [repo.value];
  }

  /** What is sent is a prefix of the numbered shards of everything that can be read. */
  ghost predicate SentPrefix(sent: seq<Batch>, t: Time, reading: Reading, size: nat)
    requires size >= 1
  {
    sent <= Numbered(t, Chunks(ToRequests(reading.repos), size))
  }

  lemma CuttingSent(got: seq<RepoFormat>, full: seq<seq<RepoRequest>>, pending: seq<RepoRequest>, sent: seq<Batch>,
                    number: int, t: Time, size: nat, rest: Reading)
    requires size >= 1 && Cutting(got, full, pending, sent, number, t, size)
    ensures SentPrefix(sent, t, Prepend(got, rest), size)
  {
    CutStopped(got, full, pending, sent, number, t, size, rest.repos);
  }

  /** The loop over the inventory: sends each shard as it fills, reusing the request and the cell. */
  method PublishFullShards(iter: NestedIterator, publisher: Publisher, request: BatchRequest, shardSize: int)
    returns (err: Option<PublishError>, ghost got: seq<RepoFormat>, ghost full: seq<seq<RepoRequest>>)
    requires iter.Valid() && publisher.sent == [] && request.repos == [] && request.shardNum.value == 0
    modifies iter, iter.iterators, publisher, request, request.shardNum
    ensures var reading := Read(old(iter.Rest()), iter.valid);
      && SentPrefix(publisher.sent, request.jobTime, reading, Size(shardSize))
      && match err
         case None =>
           && reading == Reading(got, None)
           && Cutting(got, full, request.repos, publisher.sent, request.shardNum.value, request.jobTime, Size(shardSize))
           && |request.repos| < Size(shardSize)
         case Some(ReadFailed(e)) => reading.error == Some(e)
         case Some(MarshalFailed) => exists batch :: !publisher.marshals(batch)
         case Some(SendsFailed(_)) => false
  {
    ghost var size, t := Size(shardSize), request.jobTime;
    ghost var lines := iter.Rest();
    ghost var reading := Read(lines, iter.valid);
    got, full := [], [];
    var more := iter.HasNext();
    assert Prepend([], reading) == reading;
    CuttingSent(got, full, request.repos, publisher.sent, request.shardNum.value, t, size, reading);
    while more
      invariant iter.Valid()
      invariant more <==> lines != []
      invariant more ==> iter.Holds(lines[0]) && iter.Rest() == lines[1..]
      invariant Prepend(got, Read(lines, iter.valid)) == reading
      invariant Cutting(got, full, request.repos, publisher.sent, request.shardNum.value, t, size)
      invariant SentPrefix(publisher.sent, t, reading, size)
      invariant |request.repos| < size
      decreases |lines|
    {
      ReadStep(got, lines, iter.valid);
      err, got, full := TakeRecord(iter, publisher, request, shardSize, lines[0], got, full);
      if err.Some? { return; }
      assert iter.Rest() == lines[1..];
      lines := lines[1..];
      CuttingSent(got, full, request.repos, publisher.sent, request.shardNum.value, t, size, Read(lines, iter.valid));
      more := iter.HasNext();
    }
    assert got + [] == got;
    err := None;
  }

  /** The end of the loop: a non-empty rest is sent, an empty one gives its number back. */
  method PublishRest(publisher: Publisher, request: BatchRequest, shardSize: int,
                     ghost got: seq<RepoFormat>, ghost full: seq<seq<RepoRequest>>)
    returns (ok: bool)
    requires Cutting(got, full, request.repos, publisher.sent, request.shardNum.value, request.jobTime, Size(shardSize))
    requires |request.repos| < Size(shardSize)
    modifies publisher, request.shardNum
    ensures var chunks := Chunks(ToRequests(got), Size(shardSize));
      ok ==> publisher.sent == Numbered(request.jobTime, chunks) && request.shardNum.value == Wrap32(|chunks| - 1)
    ensures !ok ==> publisher.sent == old(publisher.sent) && exists batch :: !publisher.marshals(batch)
  {
    ok := true;
    CutEnd(got, full, request.repos, publisher.sent, request.shardNum.value, request.jobTime, Size(shardSize));
    if |request.repos| > 0 {
      ok := publisher.Publish(request);
    } else {
      request.shardNum.value := Wrap32(request.shardNum.value - 1);
    }
  }

  /** What is sent is always a prefix of the numbered shards of the repositories read: all of them
      when no error precedes Close. Success means every send was accepted. */
  method PublishToRepoRequestTopic(iter: NestedIterator, publisher: Publisher, shardSize: int, t: Time)
    returns (lastShard: int, err: Option<PublishError>)
    requires iter.Valid() && publisher.sent == []
    modifies iter, iter.iterators, publisher
    ensures SentPrefix(publisher.sent, t, Read(old(iter.Rest()), iter.valid), Size(shardSize))
    ensures var reading := Read(old(iter.Rest()), iter.valid);
      var chunks := Chunks(ToRequests(reading.repos), Size(shardSize));
      match err
      case None =>
        && reading.error == None
        && publisher.sent == Numbered(t, chunks)
        && lastShard == Wrap32(|chunks| - 1)
        && forall i: nat :: i < |chunks| ==> publisher.accepts(i)
      case Some(SendsFailed(n)) =>
        && reading.error == None
        && publisher.sent == Numbered(t, chunks)
        && n > 0 && exists i: nat :: i < |chunks| && !publisher.accepts(i)
      case Some(ReadFailed(e)) => reading.error == Some(e)
      case Some(MarshalFailed) => exists batch :: !publisher.marshals(batch)
  {
    var shardNum := new ShardNumber();
    var request := new BatchRequest(t, shardNum);
    ghost var got, full;
    err, got, full := PublishFullShards(iter, publisher, request, shardSize);
    if err.Some? { return shardNum.value, err; }
    var ok := PublishRest(publisher, request, shardSize, got, full);
    if !ok { return shardNum.value, Some(MarshalFailed); }
    lastShard := shardNum.value;
    var errors := publisher.Close();
    err := if errors > 0 then Some(SendsFailed(errors)) else None;
  }

  lemma SentSoFar(full: seq<seq<RepoRequest>>, rest: seq<RepoRequest>, tail: seq<RepoRequest>, t: Time, size: nat)
    requires size >= 1 && forall i :: 0 <= i < |full| ==> |full[i]| == size
    ensures Numbered(t, full) <= Numbered(t, Chunks(Flatten(full) + rest + tail, size))
  {
    ChunksOf(full, rest + tail, size);
    assert Flatten(full) + rest + tail == Flatten(full) + (rest + tail);
  }

  /** Short of int32 overflow the shards of a run are numbered 0 to n - 1, and the shard count
      the metadata records, the returned number plus one, is the number of shards. */
  lemma ShardCountRecorded(t: Time, chunks: seq<seq<RepoRequest>>)
    requires |chunks| < TWO31
    ensures Wrap32(Wrap32(|chunks| - 1) + 1) == |chunks|
    ensures forall i :: 0 <= i < |chunks| ==> Numbered(t, chunks)[i].shardNum == i
  {
  }
}
