# Verified model of the Scorecard infrastructure

A Dafny model of the parts of the repository whose correctness rests on order, concurrency or
caching, with proofs of what they guarantee. `dafny verify dfyconfig.toml` checks all of it.

## What is modelled

**The weekly batch pipeline.** `Pipeline` is a step system: controllers, the queue, any number of
workers, the canonical and the raw bucket and the transfer job, each a program counter over the
statements of its source, interleaved in any order. A message may be delivered again at any time,
acked or not; a send that reports failure may have reached the queue; a write may succeed, be lost, or
report failure after landing; every process may crash between any two steps. `PipelineSafety` proves an
invariant of every run and `PipelineResults` states what follows for the object keys and for the
bucket summary. Around it stand the programs in their own form:

- `WorkLoop` is the worker's loop, whose operations are steps of the pipeline, with arbitrary steps of
  everyone else in between, and steps of the heartbeat system's thread (`ThreadSteps`); `ShardWorker` is the processing of one request, down to each write, and
  `ShardSteps` shows its two shard files to be the worker's two writes in the pipeline;
- `Controller` is the publishing loop, which keeps reusing one request object and one shard-number
  cell, with the publisher and its error count; `Iterators` are the readers it draws from, and
  `ControllerSteps` shows the whole program to be a run of the pipeline's controller;
- `Summary` is the pass over the bucket that fills a map of heap-allocated rows;
- `Transfer` is the transfer job's loop: each run of it is a run of the pipeline's transfer steps;
- `PipelineRuns` has a run that nothing excludes;
- `BlobNames`, `Calendar` and `Text` are the object names, the dates in them and the strings.

**The SQS heartbeat.** `Heartbeat` is the subscriber and the worker's loop together, as a step system
with one goroutine per stored message, its stop channel, its once and the wait group. `Visibility` is
the timing of the renewals, and `Backoff` the receive loop's retry delays and `tokens.Retry`.

**The read-through cache.** `ReadThrough` is the orchestrator with its store, the upstream fallback, the
single-flight group and the bounded pool, as a step system over interleaved requests and scans;
`ReadThroughSafety` proves its invariant, `ReadThroughResults` the guarantees, and `ReadThroughRuns`
gives runs in which something documented does not happen, and exactly when it does. A flight is
modelled by the documented contract of `singleflight`: one call in flight per key, whose result goes to
every waiter that joined. `ResultStore` is the store as a class, with the orchestrator's lookup,
write-back and backfill on it, and the proofs that these refine the steps. `StoreKeys` has the keys,
down to `path.Join`, for any commit string, and the validation their injectivity needs.

**The commit verifier.** `Verifier` is the class whose cache grows over calls, against a stateless
specification of membership.

**Smaller cores.** `Inventory` normalises the project list (two maps, entries merged in place on the
heap, a walk of a map in no fixed order, a stable sort). `Diagnostics` decides which parser
diagnostics reject a workflow.

What other processes, clocks and remote services do enters as parameters: functions from the number of
an operation to its result, or events of a run.

Where the code and its comments differ, the model follows the code:

- `internal/orchestrator/orchestrator.go` says a time-to-live of 0 always refreshes; ages are compared
  with `<=`, so a result generated at this very instant is served (`ReadThroughRuns.ZeroTtlServes`).
  Only a negative time-to-live always refreshes (`ReadThroughRuns.AlwaysRefreshesIff`), and the
  configuration refuses one (internal/config/config.go:195).
- A burst of requests is said to lead to one scan. The orchestrator looks the result up before it joins
  a flight and not again inside it, so there can be one scan after another
  (`ReadThroughRuns.BurstScansTwice`): a request starts one exactly when none of its key is under way
  when it joins (`ReadThroughResults.JoinStartsIff`).
- Pinned results are called immutable; a later scan of the latest commit writes the pinned object again
  (`ReadThroughRuns.PinnedRewritten`). When one stays throughout a run is said by
  `ReadThroughResults.PinnedStandsIff`.
- `GetWithOrigin` reports an object whose attributes cannot be read as local, not only one stored
  without a tag. This has three consequences. An answer can show a source that is not that of its object
  (`ReadThroughRuns.LostTagMislabels`, exactly when by `ReadThroughResults.SourceShownIff`). It can be
  served past the window of its own origin (`ReadThroughRuns.Overstays`): no configuration without a
  fallback, or with a time-to-live of at most the fallback age, has such a run, and every other has one
  (`ReadThroughRuns.AlwaysInWindowIff`). And a result within the window of its own origin can be refused
  and fetched or scanned again: no configuration without a fallback, or with a fallback age of at most
  the time-to-live, has such a run, and every other has one (`ReadThroughRuns.AlwaysServesIff`), the
  default ages among them (`ReadThroughRuns.DefaultsRefetch`).
- `internal/tokens/tokens.go` caps every delay but the first (`Backoff.CappedIffBaseCapped`).
- `api/app/server/github_verifier.go` announces one request for tags, two for the default branch and
  ten for others; the list of releases is a fourteenth, and there are answers that take all
  (`Verifier.FourteenRequests`).
- It caches hashes in lower case and looks them up as given, so a tagged commit written with capital
  letters is not found (`Verifier.CapitalsMissed`, exactly when by `Verifier.UpperCaseMissed`).
- The inventory tool writes over its output file without truncating it (`Inventory.WrittenExactlyIff`).

## Model

| member | source | states |
|---|---|---|
| PipelineSafety.RunKeeps | cron/worker/worker.go:62-128 | every interleaving of controllers, redeliveries, workers, crashes, failed writes and transfers keeps the invariant that links queue, program counters, both buckets and the loads made |
| PipelineResults.WriteOrder | cron/worker/worker.go:80-125 | in every run: an acked message's canonical shard file exists; a canonical shard file implies the raw one and the job's metadata file; metadata implies that it counts the job's shards and that the queue accepted every one |
| PipelineResults.NamesDiffer | cron/data/blob.go:130-147 | two objects of the pipeline have one key exactly when they are the same object |
| PipelineResults.PipelineBucketSummarises | cron/data/summary.go:98-134 | every reachable bucket is summarised without error, and the summary's rows are those the pipeline counts |
| PipelineResults.CompleteMeansEveryShard | cron/data/summary.go:41-44 | in every run no job counts more results than it expects, and a job that expects any is complete at threshold 1 exactly when each published shard has its result |
| PipelineResults.MarkerMeansLoaded | cron/internal/bq/main.go:35-64 | a marker implies a successful load of a row that expected work and met the threshold, which the bucket still meets; a webhook is posted at most once per job and only after its marker |
| PipelineResults.MarkedNeverLoadedAgain | cron/internal/bq/main.go:36-45 | whatever runs and crashes come later, a marked job is not loaded again |
| PipelineResults.CompleteStaysComplete | cron/data/summary.go:41-44 | a job complete at a threshold stays complete at it in every continuation of the run |
| PipelineRuns.TwoWorkersOneShard | cron/worker/worker.go:80-110 | for any shard of any job, a run in which its message is pulled twice and two workers come to scan it at once |
| WorkLoop.RunLoop | cron/worker/worker.go:52-130 | until its context is cancelled or a pull fails, the loop settles each message it pulls exactly once, before the next pull, and whatever everyone else does in between, a message it acked has its canonical and raw result and its job's metadata; it is a run of the heartbeat system's thread to its return, with renewals and a cancellation at any moment, in which the same messages are acked |
| WorkLoop.Handle | cron/worker/worker.go:80-126 | one turn ends with the message settled, its operations being steps that the pipeline and the heartbeat system allow at that point |
| ThreadSteps.StopsAndSettles | cron/internal/pubsub/subscriber_sqs.go:299-323 | wherever Ack or Nack is called, and whatever renewals and cancellation come between its steps, the heartbeat system has a run on to the next pull, after which the message in hand is acked exactly if by Ack, and the others are as they were |
| ThreadSteps.Closes | cron/internal/pubsub/subscriber_sqs.go:331-342 | so has Close to its return, whether or not a message was ever stored, and nothing is acked by it |
| WorkLoop.World.Process | cron/internal/worker/main.go:323-334 | processing succeeds only with the canonical file written, after the raw one; any failure leaves the message to be nacked |
| ShardWorker.ProcessRequest | cron/internal/worker/main.go:175-337 | the writes attempted are a prefix of the plan, up to the first that fails or the first scan that fails the request; success means the whole plan was written and no scan broke |
| ShardWorker.CanonicalLast | cron/internal/worker/main.go:323-332 | the canonical write is the very last of a plan, right after the raw one, and is in it exactly when no scan fails the request |
| ShardSteps.Process | cron/internal/worker/main.go:323-334 | processing a request is a run of the pipeline's worker, to acking exactly when it succeeds: the two shard files, under the message's own key, are its raw and canonical write, and nothing else of it reaches those buckets |
| ShardWorker.WriteShardFiles | cron/internal/worker/main.go:323-332 | the raw file is written first, and the canonical one only after it succeeded |
| Controller.PublishToRepoRequestTopic | cron/internal/controller/main.go:37-84 | although request and shard number are reused, the messages sent are the input cut into shards and numbered, all of them unless reading or encoding fails first; success means all were accepted; the number returned is the last shard's |
| Controller.PublishFullShards | cron/internal/controller/main.go:50-69 | the loop leaves full shards sent and fewer than a shard's repositories pending, and stops at the first reading or encoding error |
| Controller.ChunkFacts | cron/internal/controller/main.go:46-78 | the shards concatenate to the input in order; all but the last have exactly max(1, shardSize) repositories and the last is not empty; their number is the length over the size, rounded up |
| Controller.ShardCountRecorded | cron/internal/controller/main.go:159 | short of int32 overflow the shards are numbered from 0 and the recorded count, last number plus one, is how many there are (0 for no input) |
| ControllerSteps.RunController | cron/internal/controller/main.go:149-183 | short of int32 overflow the program is a run of the pipeline's controller whose total is the number of shards the input is cut into: what reaches the queue of it, also by sends that report failure, what is known to have, whether it gets to the metadata, and the count written there, the returned number plus one, are those of that run |
| Controller.Publisher.Publish | cron/internal/pubsub/publisher.go:76-96 | what is sent is what the request held at the call, so later changes to it do not matter |
| Controller.Publisher.Close | cron/internal/pubsub/publisher.go:98-104 | the count reported is the number of failed sends; none exactly when all were accepted |
| Iterators.CsvIterator.HasNext | cron/data/iterator.go:74-80 | a record is announced exactly when one is left, a header being dropped only as the first line |
| Iterators.NestedIterator.HasNext | cron/data/iterator.go:107-115 | moves on through finished files to the next record, and says no exactly when all are finished |
| Iterators.Collect | cron/data/iterator.go:107-123 | the loop over many files gives the records of all of them in order, up to the first that does not decode or whose URL is refused |
| Iterators.ReadAllOrFail | cron/data/iterator.go:82-95 | reading yields the records before the first bad one, each as written, and no error exactly when it yields all |
| Iterators.FreshRest | cron/data/iterator.go:60-80 | before the first call, what is left to read is each file's lines without its header, file after file |
| Iterators.MarshalRoundTrip | cron/data/format.go:25-37 | metadata survives being written and read back exactly when no entry holds a comma and it is not the list of one empty string |
| BlobNames.ParseUndoesFormat | cron/data/blob.go:130-161 | for years 0 to 9999, parsing a name gives the time truncated to the second and the file name |
| BlobNames.FormatUndoesParse | cron/data/blob.go:150-161 | every key that parses is the name of its time and file |
| BlobNames.NameOrderIsTimeOrder | cron/data/blob.go:34-37 | keys of different seconds sort by name as by time, whatever files they name |
| Calendar.FieldOrderIsTimeOrder | cron/data/blob.go:34-37 | date-times ordered field by field are ordered as instants, leap years included |
| BlobNames.ResultFilenameInjective | cron/worker/worker.go:149-152 | two result names are equal exactly when second and shard number are |
| Summary.GetBucketSummary | cron/data/summary.go:98-134 | the result depends on the bucket and not on the order of its keys: per time, the count of shard files, the marker, the expected count; distinct times have distinct row objects; it fails exactly when a key is malformed or unrecognised or a metadata file unreadable |
| Summary.RowsStep | cron/data/summary.go:107-131 | one key more changes the row of its own time, by its kind, and no other |
| Summary.BucketSummary.GetOrCreate | cron/data/summary.go:78-85 | returns the row of the time, creating a fresh empty one only if there is none |
| Summary.BucketSummary.Shards | cron/data/summary.go:88-94 | lists every row exactly once |
| Transfer.TransferDataToBq | cron/internal/bq/main.go:31-66 | the loads, markers and notifications of the loop, in their order, are those of a run of the pipeline's transfer steps, which comes to the end of the summary exactly when nothing failed |
| Transfer.TransferShard | cron/internal/bq/main.go:36-64 | a transferred or incomplete job is passed over; any other is loaded, then marked, then announced, each only after the step before succeeded |
| Transfer.RunMirrors | cron/internal/bq/main.go:42-58 | the effects of such a run are all it does to the counts of loads and notifications and to the bucket |
| Heartbeat.OneHeartbeat | cron/internal/pubsub/subscriber_sqs.go:193-197 | in every interleaving at most one heartbeat is live, the wait group counts exactly the live ones, and no stop channel is closed twice |
| Heartbeat.SettledOncePerPull | cron/worker/worker.go:62-124 | every message received is settled exactly once before the next pull or the return, never twice, and acked only when its work is done |
| Heartbeat.NoRenewalAfterStop | cron/internal/pubsub/subscriber_sqs.go:299-323 | once Ack, Nack or Close is past stopHeartbeat, no renewal of that message is running or ever starts; a message with a heartbeat is settled only after that |
| Heartbeat.StopCannotHang | cron/internal/pubsub/subscriber_sqs.go:274-335 | whatever came before, at most two steps of the goroutine itself let the wait of Ack or Nack return, and the wait in Close returns at once |
| Heartbeat.RunKeeps | cron/internal/pubsub/subscriber_sqs.go:180-219 | the fields msg, stop, stopOnce and the wait group stay in step with the program counter in every interleaving |
| Visibility.HiddenIffLatencyWithinHalfGrace | cron/internal/pubsub/subscriber_sqs.go:274-296 | when every renewal succeeds and the first tick is covered, a held message never becomes visible, in every timing, exactly when a round trip takes at most half the grace period |
| Visibility.SlowPairShows | cron/internal/pubsub/subscriber_sqs.go:39-44 | with a longer round trip, a fast renewal followed by a slow one exposes the message |
| Backoff.Retry | internal/tokens/tokens.go:171-198 | at most MaxAttempts calls, all but the last failing retryably; the k-th sleep is the k-th delay; the error is the last call's, or says that no attempt was allowed or a sleep was interrupted |
| Backoff.DelayClosedForm | internal/tokens/tokens.go:176-185 | with Base at most Max < 2^62 the k-th delay is min(Base * 2^(k-1), Max), in 64-bit arithmetic that never overflows |
| Backoff.CappedIffBaseCapped | internal/tokens/tokens.go:176-185 | for any Base and a Max above zero, every sleep respects Max exactly when Base does, overflow included |
| Backoff.Receive | cron/internal/pubsub/subscriber_sqs.go:227-250 | the loop waits the same delays after transient errors, gives up only on a permanent error or an ended context, and returns the first message |
| ReadThroughSafety.RunKeeps | internal/orchestrator/orchestrator.go:186-393 | every interleaving of requests, scans, timeouts, cancellations and failed writes keeps the invariant of group, pool, store, tags and answers |
| ReadThroughResults.OneFlightPerKey | internal/orchestrator/orchestrator.go:319-325 | at most one scan is in flight per key; the slots taken are exactly those of scans holding one, at most max(1, Concurrency) |
| ReadThroughResults.JoinStartsIff | internal/orchestrator/orchestrator.go:319-325 | in every reachable state joining starts a scan exactly when no flight of that key is under way |
| ReadThroughRuns.BurstScansTwice | internal/orchestrator/orchestrator.go:316-325 | a run in which two requests look up first and the second, joining after the first scan is done and stored, starts another |
| ReadThroughResults.JoinedShareOutcome | internal/orchestrator/orchestrator.go:327-340 | requests answered by one flight get the same answer, are of its key, and share the provenance of the scanned body |
| ReadThroughResults.LeavingKeepsTheScan | internal/orchestrator/orchestrator.go:341-346 | after a request times out or is cancelled, whatever else happens but its own further steps, the store, the scans and every other request are exactly as they would have been |
| ReadThroughResults.LatestImpliesPinned | internal/store/store.go:201-213 | whatever writes fail or interleave, a latest object that names a commit, whatever string that is, has its pinned object |
| ReadThroughResults.PinnedChangesIff | internal/store/store.go:201-213 | in every reachable state a step changes a pinned object exactly when it lands another one under its key, and only a pinned write does |
| ReadThroughResults.PinnedStandsIff | internal/store/store.go:137-145 | from any reachable state on, a pinned object stays as it is throughout a run exactly when no pinned write in it lands another object under its key |
| ReadThroughRuns.PinnedRewritten | internal/store/store.go:137-145 | a run in which a later scan of the same commit changes the pinned object |
| ReadThroughResults.OriginTagsTrue | internal/orchestrator/orchestrator.go:304-314 | every stored object holds a result produced the way its tag says |
| ReadThroughResults.ReadyMatchesBody | internal/orchestrator/orchestrator.go:225-238 | every ready answer's provenance is that of its body; from a flight or a fetch its source is how the body was produced; from the store the body was produced as its object's tag says, and the source shown is that of the tag exactly when the attributes could be read or the tag is local |
| ReadThroughResults.SourceShownIff | internal/store/store.go:167-174 | a lookup that serves an object shows the source of the object's own origin exactly when its attributes could be read or it is local |
| ReadThroughRuns.LostTagMislabels | internal/store/store.go:167-172 | a run in which a failed attribute read serves an upstream result as a cached local one |
| ReadThroughResults.ServedWithinWindow | internal/orchestrator/orchestrator.go:186-221 | a latest request answered from the store got a result within the window of the origin reported at that time, and within that of its own origin when the attributes could be read, it is local, or the time-to-live is at most the fallback age |
| ReadThroughRuns.AlwaysInWindowIff | internal/orchestrator/orchestrator.go:207-221 | every latest answer from the store, in every run, is within the window of its own origin exactly when no fallback is configured or the time-to-live is at most the fallback age |
| ReadThroughRuns.AlwaysServesIff | internal/orchestrator/orchestrator.go:207-221 | every latest object within the window of its own origin, in every run, is served by each lookup that reads its body exactly when no fallback is configured or the fallback age is at most the time-to-live |
| ReadThroughRuns.DefaultsRefetch | internal/config/config.go:104-115 | a run with the default ages in which a result stored two days ago, fresh for five more, is fetched again |
| ReadThroughRuns.Overstays | internal/orchestrator/orchestrator.go:207-221 | a run at one configuration in which an upstream result is served at fifty times its window |
| ReadThroughRuns.ZeroTtlIff | internal/orchestrator/orchestrator.go:216-220 | with a time-to-live of 0 a local result is fresh exactly when it parses and is not dated before now |
| ReadThroughRuns.AlwaysRefreshesIff | internal/orchestrator/orchestrator.go:83 | no local result dated up to now is ever fresh exactly for a negative time-to-live |
| ReadThroughRuns.ZeroTtlServes | internal/orchestrator/orchestrator.go:186-196 | a run in which a time-to-live of 0 serves a stored result without another scan |
| ReadThroughResults.PinnedServedFromStore | internal/orchestrator/orchestrator.go:186-196 | a pinned request never goes to the upstream, and one that finds its object is answered by it without fetch or scan |
| ReadThroughResults.FetchAgreesWithFresh | internal/fallback/fallback.go:115-134 | with equal age bounds the fallback accepts a result exactly when the store would serve it; in general everything it accepts is servable exactly when its bound is no larger |
| ReadThroughResults.BackfillAnswersLaterRequests | internal/orchestrator/orchestrator.go:281-314 | in every run, from an accepted fetch whose result is stored, and as long as nothing else is written under its key, a later latest request is answered by lookup alone with that result exactly while it is within the window of the origin reported, the upstream one when the attributes can be read, and then as the fetching one was, and the local one otherwise; it is within either at least for what the fallback's own bound leaves of it |
| ReadThroughResults.LatestWrittenBy | internal/store/store.go:201-213 | what else can be written under a latest key is that repository's latest object, or a pinned object of a commit string that is not 40 hex digits |
| ResultStore.ResultStore.PutLatestAndCommitWithOrigin | internal/store/store.go:201-213 | the pinned object is written first and the latest only after that succeeded, so where the latest changed the pinned one holds the same; an empty commit writes nothing |
| ResultStore.ResultStore.GetWithOrigin | internal/store/store.go:158-174 | the stored body with its origin, local when attributes cannot be read; not found exactly when the read works and there is no object |
| ResultStore.ServeCached | internal/orchestrator/orchestrator.go:186-202 | looking up on the bucket is the protocol's lookup step: same answer, or the same decision to produce |
| ResultStore.PersistRefines | internal/orchestrator/orchestrator.go:382-393 | what persist does to the bucket is what the write-back steps do to it, and they bring the scan to its answer whatever the writes do |
| ResultStore.Persist | internal/orchestrator/orchestrator.go:382-393 | a latest scan writes pinned then latest, stopping at a failure, a pinned scan its own object, a latest scan without a commit nothing |
| ResultStore.Backfill | internal/orchestrator/orchestrator.go:304-314 | an upstream result that names a commit is written pinned then latest, stopping at a failure, any other only as latest |
| ResultStore.BackfillRefines | internal/orchestrator/orchestrator.go:304-314 | the same for backfill and the steps after an accepted fetch |
| StoreKeys.KeyInjective | internal/store/store.go:140-145 | on valid references and 40-hex commits keys are equal exactly when both are; no pinned key is a latest one |
| StoreKeys.KeyParses | internal/store/store.go:140-145 | a key parses back to its reference and commit |
| StoreKeys.JoinKeepsPlain | internal/model/ref.go:95-110 | segments of the kind validation lets through survive path.Join unchanged |
| StoreKeys.ParsingNormalises | internal/model/ref.go:54-93 | parsing accepts exactly the valid references and commits up to letter case and returns one that parses to itself |
| StoreKeys.DotCommitIsLatest | internal/store/store.go:140-145 | the commit string "." names the latest object |
| StoreKeys.NamesLatestIff | internal/store/store.go:140-145 | any commit string names the latest object of a repository exactly when its segments lead from its own repository to that one's path |
| StoreKeys.CollisionIsOwn | internal/store/store.go:140-145 | a commit string that names, from another repository, the latest object of this one names it from this one too |
| Verifier.GithubVerifier.Contains | api/app/server/github_verifier.go:58-90 | whatever was asked before, the answer is the stateless verdict unless a request of this call failed; the cache stays sound and only grows; the requests are exactly those the commit takes, at most 14, and none for a cached commit, which every commit found contained is from then on |
| Verifier.FourteenRequests | api/app/server/github_verifier.go:54-57 | no commit takes more than 14 requests, and for some answers of GitHub one takes as many |
| Verifier.GithubVerifier.GetTags | api/app/server/github_verifier.go:122-144 | adds exactly the tagged commits to the cache and, for the CodeQL action, leaves the highest major version of all tags, however often it ran before |
| Verifier.GithubVerifier.BranchContains | api/app/server/github_verifier.go:103-120 | says whether the branch holds the commit, a missing comparison being no, and caches the commit exactly when it does |
| Verifier.GithubVerifier.CheckBranches | api/app/server/github_verifier.go:188-202 | asks the first ten branches other than the default one until one holds the commit |
| Verifier.GithubVerifier.GetReleaseBranches | api/app/server/github_verifier.go:240-267 | gives the branches releases name, each once, and adds exactly the commits they name to the cache |
| Verifier.GithubVerifier.GetCodeQLReleaseBranches | api/app/server/github_verifier.go:220-233 | gives releases/vN to releases/v1 for the highest major version N, none without one, an error when N is not a positive 64-bit number |
| Verifier.TrueIffContained | api/app/server/github_verifier.go:58-90 | the verdict is yes exactly when a tag, the default branch, a release or an asked branch has the commit |
| Verifier.UpperCaseMissed | api/app/server/github_verifier.go:58-62 | a hash with upper-case letters gets its lower-case form's verdict exactly when a branch that is asked holds it, or neither a tag nor a release that would be read names it |
| Verifier.CapitalsMissed | api/app/server/github_verifier.go:58-62 | a hash of forty capital letters, tagged in lower case, is not found where its lower-case form is |
| Verifier.CodeQLMembership | api/app/server/github_verifier.go:188-202 | for the CodeQL action the verdict is yes exactly for tags, the default branch and the newest ten release branches |
| Verifier.HighestMajorIs | api/app/server/github_verifier.go:135-140 | the version kept is one of the tags' majors and none is higher |
| Verifier.ReleaseBranchesAre | api/app/server/github_verifier.go:251-264 | the branches are exactly the release targets that are not hashes, without repeats |
| Verifier.RecentIsPrefix | api/app/server/github_verifier.go:188-195 | the branches asked are the first ten of those other than the default one |
| Verifier.MajorParses | api/app/server/github_verifier.go:207-216 | a kept major version parses back to its number exactly when that is positive and fits 64 bits |
| Inventory.AddProjects | cron/internal/data/add/main.go:36-67 | an error leaves the output file alone; otherwise it holds the normalised inventory and then whatever was there beyond its length, so exactly the inventory if and only if the file was no longer before |
| Inventory.Normalise | cron/internal/data/add/main.go:46-57 | the bytes to write are the file of the merged entries, each once and sorted, or the first error met |
| Inventory.WrittenExactlyIff | cron/internal/data/add/main.go:60-66 | a file that is not truncated holds exactly what was written if and only if it was no longer than that |
| Inventory.GetRepoURLs | cron/internal/data/add/main.go:69-104 | with entries merged in place and the map walked in any order, the result lists the merged entries once each, and fails at the first entry that cannot be read or parsed |
| Inventory.MergeKeepsFirst | cron/internal/data/add/main.go:82-95 | the first entry of a repository is kept as it is, and after its metadata comes each further non-empty value of later entries, once |
| Inventory.WalkOrderIrrelevant | cron/internal/data/add/main.go:98-102 | the sorted list does not depend on the order in which the map is walked |
| Inventory.NormaliseTwice | cron/internal/data/add/main.go:69-104 | the written file reads back as the entries written, and normalising it again can only give that file |
| Inventory.SortIsStable | cron/data/writer.go:41-43 | the sort orders by repository string and keeps equal strings in order |
| Inventory.OneStableSort | cron/data/writer.go:41-43 | that determines the result |
| Inventory.SortAndAppendTo | cron/data/writer.go:38-45 | what is written is in order and keeps the entries of each repository string as they were, old ones before new |
| Inventory.SortAndAppendFrom | cron/data/writer.go:48-63 | reads a whole file, appends and writes the sorted list, or returns the first error |
| Diagnostics.UnreviewedDiagnostics | api/app/server/verify_diagnostics.go:50-65 | what is kept is everything for malformed YAML and otherwise the diagnostics not excused |
| Diagnostics.IsReviewed | api/app/server/verify_diagnostics.go:67-85 | a diagnostic is excused exactly when it is a syntax check that starts with a complaint about a reviewed key in its section and the first entry with that key at its position is the reviewed scalar |
| Diagnostics.ValueAt | api/app/server/verify_diagnostics.go:89-104 | the recursive search finds the first entry with the key at the position, a mapping's own entries before those below |
| Diagnostics.FoundIff | api/app/server/verify_diagnostics.go:87-104 | a value is found exactly when such an entry exists, and is an entry's value |
| Diagnostics.UnexpectedKeyIff | api/app/server/verify_diagnostics.go:43 | the pattern matches exactly the messages that start with the complaint about a key and section, non-empty and free of quotes, and gives these |
| Diagnostics.AcceptedIff | api/app/server/verify_diagnostics.go:45-65 | nothing is left exactly when there are no diagnostics, or the YAML parses and every one is excused |
| Diagnostics.KeptAre | api/app/server/verify_diagnostics.go:58-64 | an excused diagnostic is gone and any other is there as often as before |
| Diagnostics.KeptInOrder | api/app/server/verify_diagnostics.go:58-64 | those kept stay in order |
| Diagnostics.ExcusedMeansSet | api/app/server/verify_diagnostics.go:45-50 | a diagnostic is excused only if the document sets the key, at that position, to none |

## Left out

- The goroutines of the orchestrator, the subscriber and the pipeline's processes interleave, so they are
  step systems on values: `Heartbeat` keeps the subscriber's fields as state of the system, not of an
  object. The parts that one goroutine runs alone are methods (`WorkLoop`, `Controller`, `ShardWorker`,
  `Transfer`, `ResultStore`, `Verifier`).
- WorkLoop.RunLoop: a loop that is neither cancelled nor failed never ends, which is not stated; any
  number of deliveries may come before it is. The nacks inside a pull are in `Heartbeat` only.
- PipelineResults.WriteOrder: assumes one controller run per job second; two would write one metadata object.
- PipelineResults.MarkedNeverLoadedAgain: transfer runs do not overlap, as one scheduled job is.
- Two workers may process one shard at a time (`PipelineRuns.TwoWorkersOneShard`); nothing excludes it,
  and the theorems do not need it to be excluded.
- PipelineResults.CompleteMeansEveryShard: over real numbers, where the code divides floating-point
  ones, and with shard numbers short of int32 overflow.
- Summary.GetBucketSummary: the list of keys and the metadata files are read at one moment.
- ReadThrough: body and origin are read at one moment, except that reading the origin may fail.
- ReadThroughResults.BackfillAnswersLaterRequests: a pinned write that a commit string named by an
  upstream result, which the code does not validate, leads to the latest key counts as another write.
- ReadThrough: a scan gives a result that parses, or an error; the scan engine, its checks and its
  formats are taken as given.
- Visibility.HiddenIffLatencyWithinHalfGrace: counts scheduling delays into the round trip, and a
  failed renewal, which the code only logs, is not among the timings.
- Verifier.GithubVerifier.Contains: GitHub's answers do not change between calls, a comparison reads
  hashes without regard to case, and a failed comparison carries a response. Names of tags are taken
  as parsed by the semver package, where a version is compared with a bare major version.
- Inventory.AddProjects: url.Parse is an arbitrary function of the lower-cased string, as is how lines
  are spelled as CSV, with its quoting and comments; a failing write is left out. An empty list is taken
  to be written as a header alone, which a reader cannot tell from an empty file.
- Controller.Publisher.Close: sends are given by which of them succeed, not by when they run; Close waits
  for all.
- Iterators.Collect: lines are records of two fields or undecodable; opening files is left out.
- ControllerSteps.RunController: sends end in the order they were made; in `Pipeline` they end in any.
- ShardWorker.ProcessRequest: a scan is one of skipped, broken or scanned; choosing checks, formatting
  and purging the CDN, whose failure is only logged, are left out.
- Letter case is that of ASCII, and strings are sequences of characters rather than of UTF-8 bytes.
- RFC 3339 dates are a partial function to instants; a date that does not parse is never fresh.
- The Google and gocloud subscribers, which lack the stop-and-wait discipline or the heartbeat.
- The workflow checks around the commit verifier, transparency log, certificates and signatures.
- The token pool, host rate limits and feature flags: thin wrappers over libraries.
- HTTP handlers, badges, configuration, metrics and logging.
