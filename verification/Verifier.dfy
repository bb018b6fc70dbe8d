/** The check that a workflow's action is pinned to a commit of its own repository: a cache that grows
    over calls, in front of the GitHub API. */
module Verifier {
  import opened Wrappers
  import opened Text

  // ---- What GitHub knows ----

  datatype Commit = Commit(owner: string, repo: string, hash: string)

  /** A version number; minor and patch are zero when not written. */
  datatype Semver = Semver(major: nat, minor: nat, patch: nat, prerelease: bool)

  /** A tag: the semantic version its name is, if it is one, and its commit, if given. */
  datatype Tag = Tag(version: Option<Semver>, sha: Option<string>)

  /** The answer to a comparison; NotFound is status 404. */
  datatype Comparison = Behind | Identical | Ahead | Diverged | NotFound

  /** The answers GitHub gives about a repository: its newest 100 tags and releases (each release by its
      target, a commit or a branch), its default branch, and where a commit stands against a branch. */
  datatype Remote = Remote(
    tags: (string, string) -> seq<Tag>,
    releases: (string, string) -> seq<Option<string>>,
    defaultBranch: (string, string) -> Option<string>,
    compare: (string, Commit) -> Comparison)

  function Lower(c: Commit): Commit { c.(hash := ToLower(c.hash)) }

  /** GitHub reads a commit hash without regard to letter case. */
  ghost predicate CaseBlind(remote: Remote) {
    forall b, c {:trigger remote.compare(b, Lower(c))} :: remote.compare(b, Lower(c)) == remote.compare(b, c)
  }

  // ---- The membership a caller is told about ----

  const LOOKBACK := 10

  predicate IsCodeQL(owner: string, repo: string) { owner == "github" && repo == "codeql-action" }

  predicate TagMarks(tag: Tag, hash: string) { tag.sha.Some? && ToLower(tag.sha.value) == hash }

  predicate Tagged(tags: seq<Tag>, hash: string) { exists i :: 0 <= i < |tags| && TagMarks(tags[i], hash) }

  predicate TargetMarks(target: Option<string>, hash: string) {
    target.Some? && IsHash(target.value) && ToLower(target.value) == hash
  }

  predicate Released(releases: seq<Option<string>>, hash: string) {
    exists i :: 0 <= i < |releases| && TargetMarks(releases[i], hash)
  }

  predicate OnBranch(remote: Remote, branch: string, c: Commit) {
    remote.compare(branch, c) in {Behind, Identical}
  }

  predicate OnSome(remote: Remote, branches: seq<string>, c: Commit) {
    exists i :: 0 <= i < |branches| && OnBranch(remote, branches[i], c)
  }

  predicate IsBranch(target: Option<string>) { target.Some? && !IsHash(target.value) }

  /** The branches releases were cut from, each at its first release. */
  function ReleaseBranches(releases: seq<Option<string>>): seq<string> {
    if releases == [] then []
    else
      var n := |releases| - 1;
      var before := ReleaseBranches(releases[..n]);
      if IsBranch(releases[n]) && releases[n].value !in before then before + [releases[n].value] else before
  }

  /** The first `limit` branches other than the default one. */
  function Recent(branches: seq<string>, defaultBranch: string, limit: nat): seq<string> {
    if branches == [] || limit == 0 then []
    else if branches[0] == defaultBranch then Recent(branches[1..], defaultBranch, limit)
    else [branches[0]] + Recent(branches[1..], defaultBranch, limit - 1)
  }

  function CodeQLBranch(k: nat): string { "releases/v" + Pad(k, 1) }

  /** releases/vN down to releases/v1. */
  function CodeQLBranches(n: nat): seq<string> {
    if n == 0 then [] else [CodeQLBranch(n)] + CodeQLBranches(n - 1)
  }

  /** The highest major version among the tags that are versions. */
  function HighestMajor(tags: seq<Tag>): Option<nat> {
    if tags == [] then None
    else
      var n := |tags| - 1;
      var before, version := HighestMajor(tags[..n]), tags[n].version;
      if version.Some? && (before.None? || version.value.major > before.value) then Some(version.value.major)
      else before
  }

  const TWO63: int := 0x8000_0000_0000_0000

  /** The branches of the CodeQL action; None when its highest major version is not a positive int64. */
  function CodeQLLookback(tags: seq<Tag>): Option<seq<string>> {
    match HighestMajor(tags)
    case None => Some([])
    case Some(n) => if 1 <= n < TWO63 then Some(CodeQLBranches(n)) else None
  }

  /** The branches besides the default one, when they can be told. */
  function OtherBranches(remote: Remote, owner: string, repo: string): Option<seq<string>> {
    if IsCodeQL(owner, repo) then CodeQLLookback(remote.tags(owner, repo))
    else Some(ReleaseBranches(remote.releases(owner, repo)))
  }

  /** The commit is on the default branch, on one of the ten most recent others, or (but for the
      CodeQL action) the target of a release. */
  predicate Reached(remote: Remote, c: Commit, defaultBranch: string) {
    || OnBranch(remote, defaultBranch, c)
    || (!IsCodeQL(c.owner, c.repo) && Released(remote.releases(c.owner, c.repo), c.hash))
    || (var others := OtherBranches(remote, c.owner, c.repo);
        others.Some? && OnSome(remote, Recent(others.value, defaultBranch, LOOKBACK), c))
  }

  /** The stateless specification. */
  predicate Contained(remote: Remote, c: Commit) {
    || Tagged(remote.tags(c.owner, c.repo), c.hash)
    || (var branch := remote.defaultBranch(c.owner, c.repo);
        branch.Some? && Reached(remote, c, branch.value))
  }

  datatype VerifyError = RequestFailed | NoDefaultBranch | InvalidCodeQLVersion

  /** The answer when every request is answered. */
  function Verdict(remote: Remote, c: Commit): Result<bool, VerifyError> {
    if Tagged(remote.tags(c.owner, c.repo), c.hash) then Ok(true)
    else
      match remote.defaultBranch(c.owner, c.repo)
      case None => Err(NoDefaultBranch)
      case Some(branch) =>
        if !OnBranch(remote, branch, c) && OtherBranches(remote, c.owner, c.repo).None? then Err(InvalidCodeQLVersion)
        else Ok(Reached(remote, c, branch))
  }

  // ---- The requests it takes ----

  /** Branches asked until one holds the commit. */
  function Asked(remote: Remote, branches: seq<string>, c: Commit): nat {
    if branches == [] then 0
    else if OnBranch(remote, branches[0], c) then 1
    else 1 + Asked(remote, branches[1..], c)
  }

  /** Requests beyond those for the tags, the default branch and its comparison. */
  function OtherRequests(remote: Remote, c: Commit, defaultBranch: string): nat {
    var others := OtherBranches(remote, c.owner, c.repo);
    if IsCodeQL(c.owner, c.repo) then
      if others.None? then 0 else Asked(remote, Recent(others.value, defaultBranch, LOOKBACK), c)
    else if Released(remote.releases(c.owner, c.repo), c.hash) then 1
    else 1 + Asked(remote, Recent(others.value, defaultBranch, LOOKBACK), c)
  }

  /** The requests of a call about a commit that is not cached, when each is answered. */
  function Requests(remote: Remote, c: Commit): nat {
    if Tagged(remote.tags(c.owner, c.repo), c.hash) then 1
    else
      match remote.defaultBranch(c.owner, c.repo)
      case None => 2
      case Some(branch) => 3 + if OnBranch(remote, branch, c) then 0 else OtherRequests(remote, c, branch)
  }

  // ---- Facts about the branch lists ----

  lemma {:induction false} ReleaseBranchesAre(releases: seq<Option<string>>)
    ensures var branches := ReleaseBranches(releases);
      && (forall b :: b in branches <==> !IsHash(b) && Some(b) in releases)
      && (forall i, j :: 0 <= i < j < |branches| ==> branches[i] != branches[j])
  {
    if releases != [] {
      var n := |releases| - 1;
      ReleaseBranchesAre(releases[..n]);
      assert releases == releases[..n] + [releases[n]];
    }
  }

  /** Only the order in which branches are first named matters: the k-th branch asked is the k-th
      other than the default. */
  function Others(branches: seq<string>, defaultBranch: string): seq<string> {
    if branches == [] then []
    else (if branches[0] == defaultBranch then [] else [branches[0]]) + Others(branches[1..], defaultBranch)
  }

  lemma {:induction false} RecentIsPrefix(branches: seq<string>, defaultBranch: string, limit: nat)
    ensures var others := Others(branches, defaultBranch);
      Recent(branches, defaultBranch, limit) == if |others| <= limit then others else others[..limit]
  {
    if branches != [] {
      if branches[0] == defaultBranch {
        RecentIsPrefix(branches[1..], defaultBranch, limit);
        assert Others(branches, defaultBranch) == Others(branches[1..], defaultBranch);
      } else if limit > 0 {
        RecentIsPrefix(branches[1..], defaultBranch, limit - 1);
      }
    }
  }

  lemma CodeQLBranchInjective(j: nat, k: nat)
    requires CodeQLBranch(j) == CodeQLBranch(k)
    ensures j == k
  {
    PadDigits(j, 1);
    PadDigits(k, 1);
    assert CodeQLBranch(j)[10..] == Pad(j, 1) && CodeQLBranch(k)[10..] == Pad(k, 1);
  }

  lemma {:induction false} CodeQLBranchesAt(n: nat, branches: seq<string>)
    requires |branches| == n && forall k :: 0 <= k < n ==> branches[k] == CodeQLBranch(n - k)
    ensures branches == CodeQLBranches(n)
  {
    if n > 0 {
      CodeQLBranchesAt(n - 1, branches[1..]);
      assert branches == [branches[0]] + branches[1..];
    }
  }

  lemma {:induction false} CodeQLRecent(n: nat, defaultBranch: string, limit: nat, k: nat)
    requires forall j: nat :: CodeQLBranch(j) != defaultBranch
    ensures CodeQLBranch(k) in Recent(CodeQLBranches(n), defaultBranch, limit) <==> 1 <= k <= n < k + limit
  {
    if n > 0 && limit > 0 {
      CodeQLRecent(n - 1, defaultBranch, limit - 1, k);
      assert CodeQLBranches(n)[1..] == CodeQLBranches(n - 1);
      if CodeQLBranch(k) == CodeQLBranch(n) { CodeQLBranchInjective(k, n); }
    }
  }

  lemma {:induction false} CodeQLRecentAre(n: nat, defaultBranch: string, limit: nat, b: string)
    requires b in Recent(CodeQLBranches(n), defaultBranch, limit)
    ensures exists k: nat :: b == CodeQLBranch(k)
  {
    var all := CodeQLBranches(n);
    if b == CodeQLBranch(n) {
    } else if all[0] == defaultBranch {
      assert all[1..] == CodeQLBranches(n - 1);
      CodeQLRecentAre(n - 1, defaultBranch, limit, b);
    } else {
      assert all[1..] == CodeQLBranches(n - 1);
      CodeQLRecentAre(n - 1, defaultBranch, limit - 1, b);
    }
  }

  // ---- Major versions ----

  function MajorText(n: nat): string { "v" + Pad(n, 1) }

  predicate IsMajor(s: string) { |s| >= 2 && s[0] == 'v' && AllDigits(s[1..]) }

  /** semver.Compare(version, major) == 1, where major is empty or of the form v3. */
  predicate Newer(version: Semver, major: string)
    requires major == "" || IsMajor(major)
  {
    major == "" ||
    var n := Value(major[1..]);
    version.major > n || (version.major == n && (version.minor > 0 || version.patch > 0))
  }

  /** strconv.Atoi, in base 10 and 64 bits. */
  function Atoi(s: string): Option<int> {
    var digits := if s != [] && s[0] in {'+', '-'} then s[1..] else s;
    if digits == [] || !AllDigits(digits) then None
    else
      var v := if s[0] == '-' then 0 - Value(digits) else Value(digits) as int;
      if -TWO63 <= v < TWO63 then Some(v) else None
  }

  function ParseCodeQLVersion(version: string): Result<nat, VerifyError> {
    if !HasPrefix(version, "v") then Err(InvalidCodeQLVersion)
    else
      var major := Atoi(version[1..]);
      if major.None? || major.value < 1 then Err(InvalidCodeQLVersion) else Ok(major.value)
  }

  lemma MajorTextIs(n: nat)
    ensures IsMajor(MajorText(n)) && Value(MajorText(n)[1..]) == n
  {
    PadDigits(n, 1);
    assert MajorText(n)[1..] == Pad(n, 1);
  }

  lemma MajorParses(n: nat)
    ensures ParseCodeQLVersion(MajorText(n)) == if 1 <= n < TWO63 then Ok(n) else Err(InvalidCodeQLVersion)
  {
    PadDigits(n, 1);
    MajorTextIs(n);
    assert MajorText(n)[..1] == "v";
    assert Pad(n, 1)[0] !in {'+', '-'} by { assert IsDigit(Pad(n, 1)[0]); }
  }

  /** The text kept for the highest major version seen: empty before any. */
  function KeptText(kept: Option<nat>): string {
    match kept
    case None => ""
    case Some(n) => MajorText(n)
  }

  function Larger(a: Option<nat>, b: Option<nat>): Option<nat> {
    if a.None? || (b.Some? && b.value > a.value) then b else a
  }

  lemma NewerThanKept(version: Semver, kept: Option<nat>)
    ensures KeptText(kept) == "" || IsMajor(KeptText(kept))
    ensures Newer(version, KeptText(kept)) <==>
              kept.None? || version.major > kept.value ||
              (version.major == kept.value && (version.minor > 0 || version.patch > 0))
  {
    if kept.Some? { MajorTextIs(kept.value); }
  }

  /** One tag of the loop in getTags. */
  function KeptWith(kept: Option<nat>, tag: Tag): Option<nat> {
    Larger(kept, if tag.version.Some? then Some(tag.version.value.major) else None)
  }

  lemma HighestMajorStep(kept: Option<nat>, tags: seq<Tag>, i: nat)
    requires i < |tags|
    ensures KeptWith(Larger(kept, HighestMajor(tags[..i])), tags[i]) == Larger(kept, HighestMajor(tags[..i + 1]))
  {
    assert tags[..i + 1][..i] == tags[..i];
  }

  // ---- The verifier ----

  ghost predicate Sound(remote: Remote, cache: map<Commit, bool>) {
    forall c :: c in cache ==> cache[c] && Contained(remote, c) && Lower(c) == c
  }

  predicate Failed(fails: nat -> bool, from: nat, to: nat) { exists k :: from <= k < to && fails(k) }

  /** Requests that were answered do not matter. */
  lemma FailedLater(fails: nat -> bool, from: nat, mid: nat, to: nat)
    requires from <= mid <= to && forall k :: from <= k < mid ==> !fails(k)
    ensures Failed(fails, from, to) == Failed(fails, mid, to)
  {
  }

  lemma FailedMore(fails: nat -> bool, from: nat, to: nat)
    requires from <= to
    ensures Failed(fails, from, to + 1) <==> Failed(fails, from, to) || fails(to)
  {
  }

  /** A contained commit is contained under its lower-case hash. */
  lemma ContainedLower(remote: Remote, c: Commit, branch: string)
    requires CaseBlind(remote) && Reached(remote, c, branch)
    ensures Reached(remote, Lower(c), branch) && Lower(Lower(c)) == Lower(c)
  {
  }

  lemma CacheMore(remote: Remote, cache: map<Commit, bool>, c: Commit)
    requires Sound(remote, cache) && Contained(remote, Lower(c))
    ensures Sound(remote, cache[Lower(c) := true])
  {
  }

  /** One tag more, or one release more. */
  lemma TaggedStep(tags: seq<Tag>, i: nat, hash: string)
    requires i < |tags|
    ensures Tagged(tags[..i + 1], hash) <==> Tagged(tags[..i], hash) || TagMarks(tags[i], hash)
  {
  }

  lemma ReleasedStep(releases: seq<Option<string>>, i: nat, hash: string)
    requires i < |releases|
    ensures Released(releases[..i + 1], hash) <==> Released(releases[..i], hash) || TargetMarks(releases[i], hash)
  {
  }

  /** To the commits cached before, exactly those that these tags name were added. */
  ghost predicate TagsCached(before: set<Commit>, cache: map<Commit, bool>, owner: string, repo: string, tags: seq<Tag>) {
    forall c :: c in cache <==> c in before || (c.owner == owner && c.repo == repo && Tagged(tags, c.hash))
  }

  ghost predicate TargetsCached(before: set<Commit>, cache: map<Commit, bool>, owner: string, repo: string,
                                releases: seq<Option<string>>) {
    forall c :: c in cache <==> c in before || (c.owner == owner && c.repo == repo && Released(releases, c.hash))
  }

  lemma CacheTag(before: set<Commit>, cache: map<Commit, bool>, owner: string, repo: string, tags: seq<Tag>, i: nat)
    requires i < |tags| && TagsCached(before, cache, owner, repo, tags[..i])
    ensures var sha := tags[i].sha;
      TagsCached(before, if sha.Some? then cache[Lower(Commit(owner, repo, sha.value)) := true] else cache,
                 owner, repo, tags[..i + 1])
  {
    forall hash ensures Tagged(tags[..i + 1], hash) <==> Tagged(tags[..i], hash) || TagMarks(tags[i], hash) {
      TaggedStep(tags, i, hash);
    }
  }

  lemma CacheTarget(before: set<Commit>, cache: map<Commit, bool>, owner: string, repo: string,
                    releases: seq<Option<string>>, i: nat)
    requires i < |releases| && TargetsCached(before, cache, owner, repo, releases[..i])
    ensures var target := releases[i];
      TargetsCached(before,
                    if target.Some? && IsHash(target.value)
                    then cache[Lower(Commit(owner, repo, target.value)) := true] else cache,
                    owner, repo, releases[..i + 1])
  {
    forall hash
      ensures Released(releases[..i + 1], hash) <==> Released(releases[..i], hash) || TargetMarks(releases[i], hash)
    {
      ReleasedStep(releases, i, hash);
    }
  }

  /** What is said of a commit that is not cached, by the requests from `from` to `to` after some earlier
      ones about it that were answered, and with this cache afterwards. */
  ghost predicate Told(remote: Remote, fails: nat -> bool, cache: map<Commit, bool>, c: Commit, from: nat, to: nat,
                       earlier: nat, r: Result<bool, VerifyError>) {
    && r == (if Failed(fails, from, to) then Err(RequestFailed) else Verdict(remote, c))
    && (r == Ok(true) ==> Lower(c) in cache)
    && from <= to && to + earlier <= from + 14
    && (r != Err(RequestFailed) ==> to + earlier == from + Requests(remote, c))
  }

  lemma ToldEarlier(remote: Remote, fails: nat -> bool, cache: map<Commit, bool>, c: Commit, from: nat, mid: nat, to: nat,
                    earlier: nat, r: Result<bool, VerifyError>)
    requires from <= mid <= to && !Failed(fails, from, mid)
    requires Told(remote, fails, cache, c, mid, to, earlier + mid - from, r)
    ensures Told(remote, fails, cache, c, from, to, earlier, r)
  {
    FailedLater(fails, from, mid, to);
  }

  /** The first n of the branches to ask do not hold the commit. */
  ghost predicate PassedOver(remote: Remote, c: Commit, recent: seq<string>, n: nat) {
    && n <= |recent| && (forall k :: 0 <= k < n ==> !OnBranch(remote, recent[k], c))
    && Asked(remote, recent, c) == n + Asked(remote, recent[n..], c)
  }

  lemma PassOver(remote: Remote, c: Commit, recent: seq<string>, n: nat, branch: string)
    requires PassedOver(remote, c, recent, n) && recent[n..] != [] && recent[n..][0] == branch
    ensures OnBranch(remote, branch, c) ==> OnSome(remote, recent, c) && Asked(remote, recent, c) == n + 1
    ensures !OnBranch(remote, branch, c) ==> PassedOver(remote, c, recent, n + 1)
    ensures recent[n..][1..] == recent[n + 1..]
  {
    assert recent[n] == branch;
    assert recent[n..][1..] == recent[n + 1..];
  }

  /** One branch of the list, where `rest` is what is to be asked of it and of those after it. */
  lemma RecentStep(branches: seq<string>, i: nat, defaultBranch: string, limit: nat, rest: seq<string>)
    requires i < |branches| && Recent(branches[i..], defaultBranch, limit) == rest
    ensures limit == 0 ==> rest == []
    ensures branches[i] == defaultBranch ==> Recent(branches[i + 1..], defaultBranch, limit) == rest
    ensures limit > 0 && branches[i] != defaultBranch ==>
              rest != [] && rest[0] == branches[i] && Recent(branches[i + 1..], defaultBranch, limit - 1) == rest[1..]
  {
    assert branches[i..][0] == branches[i] && branches[i..][1..] == branches[i + 1..];
  }

  class GithubVerifier {
    const remote: Remote
    /** Whether the n-th request to GitHub fails. */
    const fails: nat -> bool
    var requests: nat
    var cachedCommits: map<Commit, bool>
    var codeqlActionMajor: string

    /** Every cached commit is contained, under a lower-case hash. */
    ghost predicate Valid()
      reads this
    {
      && CaseBlind(remote)
      && Sound(remote, cachedCommits)
      && codeqlActionMajor in {"", KeptText(HighestMajor(remote.tags("github", "codeql-action")))}
    }

    constructor (remote: Remote, fails: nat -> bool)
      requires CaseBlind(remote)
      ensures Valid() && this.remote == remote && this.fails == fails && cachedCommits == map[]
    {
      this.remote, this.fails, requests, cachedCommits, codeqlActionMajor := remote, fails, 0, map[], "";
    }

    /** A request to GitHub. */
    method Ask() returns (ok: bool)
      modifies this`requests
      ensures requests == old(requests) + 1 && ok == !fails(old(requests))
    {
      ok := !fails(requests);
      requests := requests + 1;
    }

    method MarkContains(owner: string, repo: string, sha: string)
      modifies this`cachedCommits
      ensures cachedCommits == old(cachedCommits)[Lower(Commit(owner, repo, sha)) := true]
    {
      cachedCommits := cachedCommits[Commit(owner, repo, ToLower(sha)) := true];
    }

    /** One tag of the loop: its commit is marked. */
    method MarkTag(owner: string, repo: string, tags: seq<Tag>, i: nat, ghost before: set<Commit>)
      requires i < |tags| && tags == remote.tags(owner, repo) && Sound(remote, cachedCommits)
      requires TagsCached(before, cachedCommits, owner, repo, tags[..i])
      modifies this`cachedCommits
      ensures Sound(remote, cachedCommits) && TagsCached(before, cachedCommits, owner, repo, tags[..i + 1])
    {
      CacheTag(before, cachedCommits, owner, repo, tags, i);
      if tags[i].sha.Some? {
        TagSound(remote, Commit(owner, repo, tags[i].sha.value), i);
        CacheMore(remote, cachedCommits, Commit(owner, repo, tags[i].sha.value));
        MarkContains(owner, repo, tags[i].sha.value);
      }
    }

    /** One tag of the loop: a newer version of the CodeQL action is kept. */
    method KeepVersion(tag: Tag, ghost kept: Option<nat>)
      requires codeqlActionMajor == KeptText(kept)
      modifies this`codeqlActionMajor
      ensures codeqlActionMajor == KeptText(KeptWith(kept, tag))
    {
      if tag.version.Some? {
        NewerThanKept(tag.version.value, kept);
        if Newer(tag.version.value, codeqlActionMajor) { codeqlActionMajor := MajorText(tag.version.value.major); }
      }
    }

    /** The first i tags are taken: their commits added to those cached before, their highest version
        kept if they are the CodeQL action's. */
    ghost predicate TagsTaken(owner: string, repo: string, tags: seq<Tag>, i: nat, before: set<Commit>,
                              kept: Option<nat>, major: string)
      requires i <= |tags|
      reads this
    {
      && Sound(remote, cachedCommits) && TagsCached(before, cachedCommits, owner, repo, tags[..i])
      && codeqlActionMajor == if IsCodeQL(owner, repo) then KeptText(Larger(kept, HighestMajor(tags[..i]))) else major
    }

    method TakeTag(owner: string, repo: string, tags: seq<Tag>, i: nat, ghost before: set<Commit>,
                   ghost kept: Option<nat>, ghost major: string)
      requires i < |tags| && tags == remote.tags(owner, repo) && TagsTaken(owner, repo, tags, i, before, kept, major)
      modifies this`cachedCommits, this`codeqlActionMajor
      ensures TagsTaken(owner, repo, tags, i + 1, before, kept, major)
    {
      MarkTag(owner, repo, tags, i, before);
      if IsCodeQL(owner, repo) {
        HighestMajorStep(kept, tags, i);
        KeepVersion(tags[i], Larger(kept, HighestMajor(tags[..i])));
      }
    }

    /** Marks the commit of every tag, and keeps the highest version of the CodeQL action. */
    method GetTags(owner: string, repo: string) returns (ok: bool)
      requires Valid()
      modifies this
      ensures Valid() && requests == old(requests) + 1 && ok == !fails(old(requests))
      ensures !ok ==> cachedCommits == old(cachedCommits)
      ensures ok ==> TagsCached(old(cachedCommits.Keys), cachedCommits, owner, repo, remote.tags(owner, repo))
      ensures !(ok && IsCodeQL(owner, repo)) ==> codeqlActionMajor == old(codeqlActionMajor)
      ensures ok && IsCodeQL(owner, repo) ==> codeqlActionMajor == KeptText(HighestMajor(remote.tags(owner, repo)))
    {
      ok := Ask();
      if !ok { return; }
      var tags := remote.tags(owner, repo);
      ghost var kept := if codeqlActionMajor == "" then None else HighestMajor(remote.tags("github", "codeql-action"));
      for i := 0 to |tags|
        invariant requests == old(requests) + 1
        invariant TagsTaken(owner, repo, tags, i, old(cachedCommits.Keys), kept, old(codeqlActionMajor))
      {
        TakeTag(owner, repo, tags, i, old(cachedCommits.Keys), kept, old(codeqlActionMajor));
      }
      assert tags[..|tags|] == tags;
    }

    method DefaultBranch(owner: string, repo: string) returns (r: Result<string, VerifyError>)
      modifies this`requests
      ensures requests == old(requests) + 1
      ensures r == if fails(old(requests)) then Err(RequestFailed)
                   else match remote.defaultBranch(owner, repo)
                        case None => Err(NoDefaultBranch)
                        case Some(branch) => Ok(branch)
    {
      var ok := Ask();
      if !ok { return Err(RequestFailed); }
      if remote.defaultBranch(owner, repo).None? { return Err(NoDefaultBranch); }
      r := Ok(remote.defaultBranch(owner, repo).value);
    }

    /** Marks the commit when the branch holds it. */
    method BranchContains(branch: string, c: Commit, ghost defaultBranch: string) returns (r: Result<bool, VerifyError>)
      requires Valid() && remote.defaultBranch(c.owner, c.repo) == Some(defaultBranch)
      requires OnBranch(remote, branch, c) ==> Reached(remote, c, defaultBranch)
      modifies this`requests, this`cachedCommits
      ensures Valid() && requests == old(requests) + 1
      ensures r == if fails(old(requests)) then Err(RequestFailed) else Ok(OnBranch(remote, branch, c))
      ensures cachedCommits == if r == Ok(true) then old(cachedCommits)[Lower(c) := true] else old(cachedCommits)
    {
      var ok := Ask();
      if !ok { return Err(RequestFailed); }
      var contains := remote.compare(branch, c) in {Behind, Identical};
      if contains {
        ContainedLower(remote, c, defaultBranch);
        CacheMore(remote, cachedCommits, c);
        MarkContains(c.owner, c.repo, c.hash);
      }
      r := Ok(contains);
    }

    /** The branches named by releases; commits named by releases are marked. */
    method GetReleaseBranches(owner: string, repo: string) returns (r: Result<seq<string>, VerifyError>)
      requires Valid() && remote.defaultBranch(owner, repo).Some? && !IsCodeQL(owner, repo)
      modifies this`requests, this`cachedCommits
      ensures Valid() && requests == old(requests) + 1
      ensures r == if fails(old(requests)) then Err(RequestFailed)
                   else Ok(ReleaseBranches(remote.releases(owner, repo)))
      ensures r.Err? ==> cachedCommits == old(cachedCommits)
      ensures r.Ok? ==> TargetsCached(old(cachedCommits.Keys), cachedCommits, owner, repo, remote.releases(owner, repo))
    {
      var branches: seq<string> := [];
      var seen: set<string> := {};
      var ok := Ask();
      if !ok { return Err(RequestFailed); }
      var releases := remote.releases(owner, repo);
      for i := 0 to |releases|
        invariant requests == old(requests) + 1 && Sound(remote, cachedCommits)
        invariant TargetsCached(old(cachedCommits.Keys), cachedCommits, owner, repo, releases[..i])
        invariant branches == ReleaseBranches(releases[..i])
        invariant forall b :: b in seen <==> b in branches
      {
        CacheTarget(old(cachedCommits.Keys), cachedCommits, owner, repo, releases, i);
        if releases[i].Some? {
          var target := releases[i].value;
          if IsHash(target) {
            TargetSound(remote, Commit(owner, repo, target), i);
            CacheMore(remote, cachedCommits, Commit(owner, repo, target));
            MarkContains(owner, repo, target);
          } else if target !in seen {
            seen := seen + {target};
            branches := branches + [target];
          }
        }
        assert releases[..i + 1][..i] == releases[..i];
      }
      assert releases[..|releases|] == releases;
      r := Ok(branches);
    }

    /** The branches of every major version up to the highest. */
    method GetCodeQLReleaseBranches() returns (r: Result<seq<string>, VerifyError>)
      requires codeqlActionMajor == KeptText(HighestMajor(remote.tags("github", "codeql-action")))
      ensures var branches := CodeQLLookback(remote.tags("github", "codeql-action"));
        r == if branches.None? then Err(InvalidCodeQLVersion) else Ok(branches.value)
    {
      if codeqlActionMajor == "" { return Ok([]); }
      MajorParses(HighestMajor(remote.tags("github", "codeql-action")).value);
      var version := ParseCodeQLVersion(codeqlActionMajor);
      if version.Err? { return Err(version.error); }
      var n := version.value;
      var branches := new string[n];
      for i := 0 to n
        invariant forall k :: 0 <= k < i ==> branches[k] == CodeQLBranch(n - k)
      {
        branches[i] := "releases/v" + Pad(n - i, 1);
      }
      CodeQLBranchesAt(n, branches[..]);
      r := Ok(branches[..]);
    }

    /** Asks the first `limit` branches other than the default one, until one holds the commit. */
    method CheckBranches(branches: seq<string>, c: Commit, defaultBranch: string, limit: nat)
      returns (r: Result<bool, VerifyError>)
      requires Valid() && remote.defaultBranch(c.owner, c.repo) == Some(defaultBranch)
      requires OnSome(remote, Recent(branches, defaultBranch, limit), c) ==> Reached(remote, c, defaultBranch)
      modifies this`requests, this`cachedCommits
      ensures Valid() && old(requests) <= requests <= old(requests) + limit
      ensures cachedCommits == if r == Ok(true) then old(cachedCommits)[Lower(c) := true] else old(cachedCommits)
      ensures r == if Failed(fails, old(requests), requests) then Err(RequestFailed)
                   else Ok(OnSome(remote, Recent(branches, defaultBranch, limit), c))
      ensures r.Ok? ==> requests == old(requests) + Asked(remote, Recent(branches, defaultBranch, limit), c)
    {
      ghost var recent := Recent(branches, defaultBranch, limit);
      var analyzedBranches := 0;
      for i := 0 to |branches|
        invariant Valid() && requests == old(requests) + analyzedBranches && analyzedBranches <= limit
        invariant cachedCommits == old(cachedCommits) && !Failed(fails, old(requests), requests)
        invariant PassedOver(remote, c, recent, analyzedBranches)
        invariant Recent(branches[i..], defaultBranch, limit - analyzedBranches) == recent[analyzedBranches..]
      {
        var branch := branches[i];
        RecentStep(branches, i, defaultBranch, limit - analyzedBranches, recent[analyzedBranches..]);
        if analyzedBranches >= limit { break; }
        if branch == defaultBranch { continue; }
        PassOver(remote, c, recent, analyzedBranches, branch);
        FailedMore(fails, old(requests), requests);
        analyzedBranches := analyzedBranches + 1;
        var contains := BranchContains(branch, c, defaultBranch);
        if contains.Err? { return contains; }
        if contains.value { return Ok(true); }
      }
      r := Ok(false);
    }

    method CheckReleaseBranches(c: Commit, defaultBranch: string, limit: nat) returns (r: Result<bool, VerifyError>)
      requires Valid() && remote.defaultBranch(c.owner, c.repo) == Some(defaultBranch) && limit == LOOKBACK
      requires IsCodeQL(c.owner, c.repo) ==>
        codeqlActionMajor == KeptText(HighestMajor(remote.tags(c.owner, c.repo)))
      requires !OnBranch(remote, defaultBranch, c) && !Tagged(remote.tags(c.owner, c.repo), c.hash)
      requires c !in cachedCommits
      modifies this`requests, this`cachedCommits
      ensures Valid() && old(cachedCommits.Keys) <= cachedCommits.Keys
      ensures Told(remote, fails, cachedCommits, c, old(requests), requests, 3, r)
    {
      var branches: Result<seq<string>, VerifyError>;
      if IsCodeQL(c.owner, c.repo) {
        branches := GetCodeQLReleaseBranches();
        if branches.Err? { return Err(branches.error); }
      } else {
        branches := GetReleaseBranches(c.owner, c.repo);
        if branches.Err? { return Err(branches.error); }
        if c in cachedCommits { return Ok(cachedCommits[c]); }
        assert !Released(remote.releases(c.owner, c.repo), c.hash);
      }
      ghost var asked := requests;
      r := CheckBranches(branches.value, c, defaultBranch, limit);
      FailedLater(fails, old(requests), asked, requests);
    }

    /** Whether the default branch holds the commit. */
    method AskDefaultBranch(c: Commit) returns (branch: Result<string, VerifyError>, contains: bool)
      requires Valid() && !Tagged(remote.tags(c.owner, c.repo), c.hash)
      modifies this`requests, this`cachedCommits
      ensures Valid() && cachedCommits == if contains then old(cachedCommits)[Lower(c) := true] else old(cachedCommits)
      ensures branch.Err? ==> !contains && Told(remote, fails, cachedCommits, c, old(requests), requests, 1, Err(branch.error))
      ensures contains ==> Told(remote, fails, cachedCommits, c, old(requests), requests, 1, Ok(true))
      ensures branch.Ok? && !contains ==>
        && remote.defaultBranch(c.owner, c.repo) == Some(branch.value) && !OnBranch(remote, branch.value, c)
        && requests == old(requests) + 2 && !Failed(fails, old(requests), requests)
    {
      contains := false;
      branch := DefaultBranch(c.owner, c.repo);
      if branch.Err? { return; }
      var held := BranchContains(branch.value, c, branch.value);
      if held.Err? { return Err(held.error), false; }
      contains := held.value;
    }

    /** The rest of `contains` for a commit no tag names: the default branch, then the others. */
    method AskBranches(c: Commit) returns (r: Result<bool, VerifyError>)
      requires Valid() && !Tagged(remote.tags(c.owner, c.repo), c.hash) && c !in cachedCommits
      requires IsCodeQL(c.owner, c.repo) ==>
        codeqlActionMajor == KeptText(HighestMajor(remote.tags(c.owner, c.repo)))
      modifies this`requests, this`cachedCommits
      ensures Valid() && old(cachedCommits.Keys) <= cachedCommits.Keys
      ensures Told(remote, fails, cachedCommits, c, old(requests), requests, 1, r)
    {
      var defaultBranch, contains := AskDefaultBranch(c);
      if defaultBranch.Err? { return Err(defaultBranch.error); }
      if contains { return Ok(true); }
      r := CheckReleaseBranches(c, defaultBranch.value, 10);
      ToldEarlier(remote, fails, cachedCommits, c, old(requests), old(requests) + 2, requests, 1, r);
    }

    /** Whatever was asked before, the answer is that of the stateless specification unless a request
        of this call failed; a call makes at most 14 requests, as many as the commit takes, and none for
        a cached one, as every commit found contained is from then on. */
    method Contains(c: Commit) returns (r: Result<bool, VerifyError>)
      requires Valid()
      modifies this
      ensures Valid() && old(cachedCommits.Keys) <= cachedCommits.Keys
      ensures r == if Failed(fails, old(requests), requests) then Err(RequestFailed) else Verdict(remote, c)
      ensures r == Ok(true) ==> Lower(c) in cachedCommits
      ensures old(requests) <= requests <= old(requests) + 14
      ensures r != Err(RequestFailed) ==>
        requests == old(requests) + if c in old(cachedCommits) then 0 else Requests(remote, c)
    {
      if c in cachedCommits { TrueIffContained(remote, c); return Ok(cachedCommits[c]); }
      var ok := GetTags(c.owner, c.repo);
      if !ok { return Err(RequestFailed); }
      if c in cachedCommits { TrueIffContained(remote, c); return Ok(cachedCommits[c]); }
      r := AskBranches(c);
      ToldEarlier(remote, fails, cachedCommits, c, old(requests), old(requests) + 1, requests, 0, r);
    }
  }

  /** The verdict is yes exactly for contained commits. */
  lemma TrueIffContained(remote: Remote, c: Commit)
    ensures Verdict(remote, c) == Ok(true) <==> Contained(remote, c)
  {
  }

  lemma {:induction false} AskedAtMost(remote: Remote, branches: seq<string>, c: Commit)
    ensures Asked(remote, branches, c) <= |branches|
    ensures !OnSome(remote, branches, c) ==> Asked(remote, branches, c) == |branches|
  {
    if branches != [] {
      AskedAtMost(remote, branches[1..], c);
      if OnSome(remote, branches[1..], c) {
        var i :| 0 <= i < |branches| - 1 && OnBranch(remote, branches[1..][i], c);
        assert OnBranch(remote, branches[i + 1], c);
      }
    }
  }

  /** Distinct branches, none the default one and few enough, are asked as they are. */
  lemma {:induction false} RecentAll(branches: seq<string>, defaultBranch: string, limit: nat)
    requires |branches| <= limit && defaultBranch !in branches
    ensures Recent(branches, defaultBranch, limit) == branches
  {
    if branches != [] { RecentAll(branches[1..], defaultBranch, limit - 1); }
  }

  function TenTargets(n: nat): seq<Option<string>> {
    if n == 0 then [] else TenTargets(n - 1) + [Some(CodeQLBranch(n))]
  }

  lemma {:induction false} TenBranches(n: nat)
    ensures |TenTargets(n)| == n && |ReleaseBranches(TenTargets(n))| == n
    ensures forall b :: b in ReleaseBranches(TenTargets(n)) ==>
              b != "" && b[0] == 'r' && exists k: nat :: 1 <= k <= n && b == CodeQLBranch(k)
  {
    if n > 0 {
      TenBranches(n - 1);
      assert TenTargets(n)[..n - 1] == TenTargets(n - 1);
      assert !IsHash(CodeQLBranch(n)) by { assert CodeQLBranch(n)[0] == 'r'; }
      if CodeQLBranch(n) in ReleaseBranches(TenTargets(n - 1)) {
        var k: nat :| 1 <= k <= n - 1 && CodeQLBranch(n) == CodeQLBranch(k);
        CodeQLBranchInjective(n, k);
      }
    }
  }

  /** GitHub's answers for a repository with ten release branches, none of which holds any commit. */
  function Worst(): Remote {
    Remote((_, _) => [], (_, _) => TenTargets(10), (_, _) => Some("main"), (_, _) => Diverged)
  }

  /** A call takes at most fourteen requests, and some answers make it take as many. */
  lemma FourteenRequests(remote: Remote, c: Commit)
    ensures Requests(remote, c) <= 14
    ensures CaseBlind(Worst()) && Requests(Worst(), Commit("o", "r", "")) == 14
  {
    AtMostFourteen(remote, c);
    TenBranches(10);
    WorstAsked(Worst(), ReleaseBranches(TenTargets(10)), Commit("o", "r", ""));
  }

  lemma WorstAsked(remote: Remote, branches: seq<string>, c: Commit)
    requires |branches| <= LOOKBACK && "main" !in branches && !OnSome(remote, branches, c)
    ensures Asked(remote, Recent(branches, "main", LOOKBACK), c) == |branches|
  {
    RecentAll(branches, "main", LOOKBACK);
    AskedAtMost(remote, branches, c);
  }

  lemma AtMostFourteen(remote: Remote, c: Commit)
    ensures Requests(remote, c) <= 14
  {
    var branch := remote.defaultBranch(c.owner, c.repo);
    var others := OtherBranches(remote, c.owner, c.repo);
    if branch.Some? && others.Some? {
      RecentIsPrefix(others.value, branch.value, LOOKBACK);
      AskedAtMost(remote, Recent(others.value, branch.value, LOOKBACK), c);
    }
  }

  lemma TargetSound(remote: Remote, c: Commit, i: nat)
    requires i < |remote.releases(c.owner, c.repo)| && remote.releases(c.owner, c.repo)[i] == Some(c.hash)
    requires IsHash(c.hash) && remote.defaultBranch(c.owner, c.repo).Some? && !IsCodeQL(c.owner, c.repo)
    ensures Contained(remote, Lower(c))
  {
  }

  // ---- What the specification means ----

  /** Held by a branch that is asked. */
  predicate ByBranch(remote: Remote, c: Commit) {
    var branch := remote.defaultBranch(c.owner, c.repo);
    branch.Some? &&
    (OnBranch(remote, branch.value, c) ||
     (var others := OtherBranches(remote, c.owner, c.repo);
      others.Some? && OnSome(remote, Recent(others.value, branch.value, LOOKBACK), c)))
  }

  /** An upper-case hash gets the answer of its lower-case form unless only a tag or a release names
      the commit: cached hashes are lower-case and lookups are not. */
  lemma UpperCaseMissed(remote: Remote, c: Commit)
    requires CaseBlind(remote) && Lower(c) != c
    ensures Verdict(remote, c) == Verdict(remote, Lower(c)) <==>
              || ByBranch(remote, c)
              || (&& !Tagged(remote.tags(c.owner, c.repo), ToLower(c.hash))
                  && (|| remote.defaultBranch(c.owner, c.repo).None?
                      || IsCodeQL(c.owner, c.repo)
                      || !Released(remote.releases(c.owner, c.repo), ToLower(c.hash))))
  {
  }

  /** GitHub's answers for a repository whose one tag names a commit that no branch holds. */
  function OneTag(sha: string): Remote {
    Remote((_, _) => [Tag(None, Some(sha))], (_, _) => [], (_, _) => Some("main"), (_, _) => Diverged)
  }

  function Forty(letter: char): string { seq(40, _ => letter) }

  /** Such a hash: written with capital letters, a tagged commit is not found. */
  lemma CapitalsMissed()
    ensures var remote, c := OneTag(Forty('a')), Commit("o", "r", Forty('A'));
      && CaseBlind(remote) && IsHash(c.hash) && Lower(c).hash == Forty('a')
      && Verdict(remote, c) == Ok(false) && Verdict(remote, Lower(c)) == Ok(true)
  {
    var remote, c := OneTag(Forty('a')), Commit("o", "r", Forty('A'));
    assert ToLower(Forty('A')) == Forty('a') && ToLower(Forty('a')) == Forty('a');
    assert TagMarks(remote.tags("o", "r")[0], Forty('a'));
    assert Forty('A')[0] == 'A' && Forty('a')[0] == 'a';
  }

  lemma {:induction false} HighestMajorIs(tags: seq<Tag>, n: nat)
    ensures HighestMajor(tags) == Some(n) <==>
              && (exists i :: 0 <= i < |tags| && tags[i].version.Some? && tags[i].version.value.major == n)
              && (forall i :: 0 <= i < |tags| && tags[i].version.Some? ==> tags[i].version.value.major <= n)
    ensures HighestMajor(tags) == None <==> forall i :: 0 <= i < |tags| ==> tags[i].version.None?
  {
    if tags != [] {
      var k := |tags| - 1;
      HighestMajorIs(tags[..k], n);
      if HighestMajor(tags[..k]).Some? { HighestMajorIs(tags[..k], HighestMajor(tags[..k]).value); }
      assert tags == tags[..k] + [tags[k]];
    }
  }

  /** For the CodeQL action, besides tags and the default branch only the newest ten major versions
      are asked: a commit that only older release branches hold is not found. */
  lemma CodeQLMembership(remote: Remote, c: Commit, n: nat, defaultBranch: string)
    requires IsCodeQL(c.owner, c.repo) && remote.defaultBranch(c.owner, c.repo) == Some(defaultBranch)
    requires HighestMajor(remote.tags(c.owner, c.repo)) == Some(n) && 1 <= n < TWO63
    requires forall j: nat :: CodeQLBranch(j) != defaultBranch
    ensures Verdict(remote, c) == Ok(
      || Tagged(remote.tags(c.owner, c.repo), c.hash)
      || OnBranch(remote, defaultBranch, c)
      || exists k: nat :: 1 <= k <= n < k + 10 && OnBranch(remote, CodeQLBranch(k), c))
  {
    var recent := Recent(CodeQLBranches(n), defaultBranch, LOOKBACK);
    forall k: nat ensures CodeQLBranch(k) in recent <==> 1 <= k <= n < k + 10 {
      CodeQLRecent(n, defaultBranch, LOOKBACK, k);
    }
    forall b | b in recent ensures exists k: nat :: b == CodeQLBranch(k) {
      CodeQLRecentAre(n, defaultBranch, LOOKBACK, b);
    }
    assert OnSome(remote, recent, c) <==> exists b :: b in recent && OnBranch(remote, b, c);
  }

  lemma TagSound(remote: Remote, c: Commit, i: nat)
    requires i < |remote.tags(c.owner, c.repo)| && remote.tags(c.owner, c.repo)[i].sha == Some(c.hash)
    ensures Contained(remote, Lower(c))
  {
  }
}
