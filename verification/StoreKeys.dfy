/** Repository references and the object keys of the result store, down to what path.Join does
    to their segments. */
module StoreKeys {
  import opened Wrappers
  import opened Text

  const HOST_GITHUB := "github.com"
  const HOST_GITLAB := "gitlab.com"
  const RESULTS_OBJECT := "results.json"

  datatype RepoRef = RepoRef(host: string, org: string, repo: string)

  datatype RefError = UnsupportedHost | InvalidSegment | InvalidCommit

  // ---- References ----

  predicate IsControl(c: char) { c as int < 0x20 || c as int == 0x7f }

  /** validateSegment. */
  predicate ValidSegment(s: string) {
    && s != "" && s != "." && s != ".."
    && forall i :: 0 <= i < |s| ==> s[i] != '/' && s[i] != '\\' && !IsControl(s[i])
  }

  predicate ValidRef(ref: RepoRef) {
    (ref.host == HOST_GITHUB || ref.host == HOST_GITLAB) && ValidSegment(ref.org) && ValidSegment(ref.repo)
  }

  function ParseRepoRef(host: string, org: string, repo: string): Result<RepoRef, RefError> {
    var lower := ToLower(if host == "" then HOST_GITHUB else host);
    if lower != HOST_GITHUB && lower != HOST_GITLAB then Err(UnsupportedHost)
    else if !ValidSegment(org) || !ValidSegment(repo) then Err(InvalidSegment)
    else Ok(RepoRef(lower, org, repo))
  }

  /** A commit as ParseCommit returns it: none, or forty lower-case hex digits. */
  predicate ValidCommit(c: string) { c == "" || (IsHash(c) && ToLower(c) == c) }

  function ParseCommit(sha: string): Result<string, RefError> {
    if sha == "" then Ok("")
    else if !IsHash(sha) then Err(InvalidCommit)
    else Ok(ToLower(sha))
  }

  /** Parsing accepts exactly the valid references and commits up to letter case, and what it
      returns parses to itself. */
  lemma ParsingNormalises(host: string, org: string, repo: string, sha: string)
    ensures ParseRepoRef(host, org, repo).Ok? <==>
              ValidRef(RepoRef(ToLower(if host == "" then HOST_GITHUB else host), org, repo))
    ensures ParseRepoRef(host, org, repo).Ok? ==>
              var r := ParseRepoRef(host, org, repo).value;
              ValidRef(r) && ParseRepoRef(r.host, r.org, r.repo) == Ok(r)
    ensures ParseCommit(sha).Ok? <==> sha == "" || IsHash(sha)
    ensures ParseCommit(sha).Ok? ==>
              ValidCommit(ParseCommit(sha).value) && ParseCommit(ParseCommit(sha).value) == ParseCommit(sha)
  {
    LowerTwice(if host == "" then HOST_GITHUB else host);
    LowerTwice(sha);
  }

  // ---- path.Join ----

  /** One more segment in path.Clean: an empty or "." segment is dropped, and ".." takes back the
      segment before it where there is one. */
  function Taken(s: string, rooted: bool, done: seq<string>): seq<string> {
    if s == "" || s == "." then done
    else if s != ".." then done + [s]
    else if done != [] && done[|done| - 1] != ".." then done[..|done| - 1]
    else if rooted then done
    else done + [".."]
  }

  /** The segments of a path after path.Clean. */
  function Resolve(segments: seq<string>, rooted: bool, done: seq<string>): seq<string> {
    if segments == [] then done else Resolve(segments[1..], rooted, Taken(segments[0], rooted, done))
  }

  function Clean(p: string): string {
    if p == "" then "."
    else
      var rooted := p[0] == '/';
      var body := Join(Resolve(Split(p, '/'), rooted, []), '/');
      if rooted then "/" + body else if body == "" then "." else body
  }

  function NonEmpty(parts: seq<string>): seq<string> {
    if parts == [] then []
    else if parts[0] == "" then NonEmpty(parts[1..])
    else [parts[0]] + NonEmpty(parts[1..])
  }

  /** path.Join. */
  function PathJoin(parts: seq<string>): string {
    if NonEmpty(parts) == [] then "" else Clean(Join(NonEmpty(parts), '/'))
  }

  /** Segments that cleaning leaves alone. */
  predicate Plain(s: string) { s != "" && s != "." && s != ".." && Free(s, '/') }

  predicate AllPlain(parts: seq<string>) { forall i :: 0 <= i < |parts| ==> Plain(parts[i]) }

  lemma {:induction false} ResolvePlain(parts: seq<string>, rooted: bool, done: seq<string>)
    requires AllPlain(parts)
    ensures Resolve(parts, rooted, done) == done + parts
  {
    if parts != [] {
      ResolvePlain(parts[1..], rooted, done + [parts[0]]);
      assert parts == [parts[0]] + parts[1..];
    }
  }

  lemma {:induction false} NonEmptyPlain(parts: seq<string>)
    requires AllPlain(parts)
    ensures NonEmpty(parts) == parts
  {
    if parts != [] {
      NonEmptyPlain(parts[1..]);
      assert parts == [parts[0]] + parts[1..];
    }
  }

  lemma JoinStart(parts: seq<string>)
    requires |parts| >= 1 && AllPlain(parts)
    ensures Join(parts, '/') != "" && Join(parts, '/')[0] == parts[0][0] != '/'
  {
  }

  /** Plain segments survive path.Join unchanged. */
  lemma JoinKeepsPlain(parts: seq<string>)
    requires |parts| >= 1 && AllPlain(parts)
    ensures PathJoin(parts) == Join(parts, '/') && Split(PathJoin(parts), '/') == parts
  {
    NonEmptyPlain(parts);
    SplitJoin(parts, '/');
    ResolvePlain(parts, false, []);
    JoinStart(parts);
    assert [] + parts == parts;
  }

  // ---- Keys ----

  function Key(ref: RepoRef, commit: string): string {
    if commit == "" then PathJoin([ref.host, ref.org, ref.repo, RESULTS_OBJECT])
    else PathJoin([ref.host, ref.org, ref.repo, commit, RESULTS_OBJECT])
  }

  /** The reference and commit a key names. */
  function ParseKey(key: string): Option<(RepoRef, string)> {
    var parts := Split(key, '/');
    if |parts| == 4 && parts[3] == RESULTS_OBJECT then Some((RepoRef(parts[0], parts[1], parts[2]), ""))
    else if |parts| == 5 && parts[4] == RESULTS_OBJECT then Some((RepoRef(parts[0], parts[1], parts[2]), parts[3]))
    else None
  }

  lemma RefIsPlain(ref: RepoRef)
    requires ValidRef(ref)
    ensures Plain(ref.host) && Plain(ref.org) && Plain(ref.repo) && Plain(RESULTS_OBJECT)
  {
  }

  /** A key on a valid reference and any plain commit parses back to both. */
  lemma KeyParses(ref: RepoRef, commit: string)
    requires ValidRef(ref) && (commit == "" || Plain(commit))
    ensures ParseKey(Key(ref, commit)) == Some((ref, commit))
  {
    RefIsPlain(ref);
    if commit == "" {
      JoinKeepsPlain([ref.host, ref.org, ref.repo, RESULTS_OBJECT]);
    } else {
      JoinKeepsPlain([ref.host, ref.org, ref.repo, commit, RESULTS_OBJECT]);
    }
  }

  /** Keys are equal exactly when the references and the commits are; in particular no pinned key
      is a latest key. */
  lemma KeyInjective(r: RepoRef, c: string, s: RepoRef, d: string)
    requires ValidRef(r) && ValidRef(s) && (c == "" || IsHash(c)) && (d == "" || IsHash(d))
    ensures Key(r, c) == Key(s, d) <==> r == s && c == d
  {
    KeyParses(r, c);
    KeyParses(s, d);
  }

  // ---- Keys of any commit string ----

  function Stem(ref: RepoRef): seq<string> { [ref.host, ref.org, ref.repo] }

  /** Where the segments of a commit lead from a repository's own path. */
  function Directory(ref: RepoRef, commit: string): seq<string> { Resolve(Split(commit, '/'), false, Stem(ref)) }

  lemma {:induction false} SplitAround(a: string, b: string, c: char)
    ensures Split(a + [c] + b, c) == Split(a, c) + Split(b, c)
  {
    var t := a + [c] + b;
    if a == [] {
      assert t[1..] == b;
    } else {
      SplitAround(a[1..], b, c);
      assert t[0] == a[0] && t[1..] == a[1..] + [c] + b;
      SplitHead(a[0], Split(a[1..], c), Split(b, c), c);
    }
  }

  /** The first character goes to the first part, or starts a new one. */
  function Headed(x: char, parts: seq<string>, c: char): seq<string>
    requires parts != []
  {
    if x == c then [[]] + parts else [[x] + parts[0]] + parts[1..]
  }

  lemma SplitHead(x: char, parts: seq<string>, more: seq<string>, c: char)
    requires parts != []
    ensures Headed(x, parts + more, c) == Headed(x, parts, c) + more
  {
    assert (parts + more)[1..] == parts[1..] + more;
  }

  lemma {:induction false} ResolveThen(xs: seq<string>, ys: seq<string>, rooted: bool, done: seq<string>)
    ensures Resolve(xs + ys, rooted, done) == Resolve(ys, rooted, Resolve(xs, rooted, done))
    decreases |xs|
  {
    if xs == [] {
      assert xs + ys == ys;
    } else {
      assert (xs + ys)[1..] == xs[1..] + ys;
      ResolveThen(xs[1..], ys, rooted, Taken(xs[0], rooted, done));
    }
  }

  predicate AllFree(parts: seq<string>) { forall i :: 0 <= i < |parts| ==> Free(parts[i], '/') }

  lemma {:induction false} ResolveFree(xs: seq<string>, done: seq<string>)
    requires AllFree(xs) && AllFree(done)
    ensures AllFree(Resolve(xs, false, done))
    decreases |xs|
  {
    if xs != [] { ResolveFree(xs[1..], Taken(xs[0], false, done)); }
  }

  lemma SplitFour(a: string, b: string, c: string, d: string)
    requires Free(a, '/') && Free(b, '/') && Free(c, '/')
    ensures Split(a + ['/'] + (b + ['/'] + (c + ['/'] + d)), '/') == [a, b, c] + Split(d, '/')
  {
    SplitFirst(c, d, '/');
    SplitFirst(b, c + ['/'] + d, '/');
    SplitFirst(a, b + ['/'] + (c + ['/'] + d), '/');
  }

  lemma JoinFive(a: string, b: string, c: string, d: string, e: string)
    ensures Join([a, b, c, d, e], '/') == a + ['/'] + (b + ['/'] + (c + ['/'] + (d + ['/'] + e)))
  {
    assert [a, b, c, d, e][1..] == [b, c, d, e] && [b, c, d, e][1..] == [c, d, e];
    assert [c, d, e][1..] == [d, e] && [d, e][1..] == [e];
    assert Join([d, e], '/') == d + ['/'] + e;
    assert Join([c, d, e], '/') == c + ['/'] + Join([d, e], '/');
    assert Join([b, c, d, e], '/') == b + ['/'] + Join([c, d, e], '/');
    assert Join([a, b, c, d, e], '/') == a + ['/'] + Join([b, c, d, e], '/');
  }

  /** Joining and cleaning four plain segments around any string. */
  lemma JoinAround(a: string, b: string, c: string, d: string, e: string)
    requires Plain(a) && Plain(b) && Plain(c) && Plain(e) && d != ""
    ensures PathJoin([a, b, c, d, e]) == Join(Resolve(Split(d, '/'), false, [a, b, c]) + [e], '/')
  {
    var p := Join([a, b, c, d, e], '/');
    var ds, stem := Split(d, '/'), [a, b, c];
    NonEmptyAll([a, b, c, d, e]);
    JoinFive(a, b, c, d, e);
    SplitFour(a, b, c, d + ['/'] + e);
    SplitAround(d, e, '/');
    SplitWhole(e, '/');
    assert Split(p, '/') == stem + (ds + [e]);
    ResolveThen(stem, ds + [e], false, []);
    ResolvePlain(stem, false, []);
    ResolveThen(ds, [e], false, stem);
    ResolvePlain([e], false, Resolve(ds, false, stem));
    assert [] + stem == stem;
    assert p[0] == a[0];
    LastNotEmpty(Resolve(ds, false, stem), e, '/');
  }

  /** The key of a repository and any non-empty commit string. */
  lemma KeyOfCommit(ref: RepoRef, commit: string)
    requires ValidRef(ref) && commit != ""
    ensures var parts := Directory(ref, commit) + [RESULTS_OBJECT];
      Key(ref, commit) == Join(parts, '/') && Split(Key(ref, commit), '/') == parts
  {
    RefIsPlain(ref);
    JoinAround(ref.host, ref.org, ref.repo, commit, RESULTS_OBJECT);
    SplitParts(commit, '/');
    ResolveFree(Split(commit, '/'), Stem(ref));
    SplitJoin(Directory(ref, commit) + [RESULTS_OBJECT], '/');
  }

  lemma KeyOfLatest(ref: RepoRef)
    requires ValidRef(ref)
    ensures var parts := Stem(ref) + [RESULTS_OBJECT];
      Key(ref, "") == Join(parts, '/') && Split(Key(ref, ""), '/') == parts && AllPlain(Stem(ref))
  {
    RefIsPlain(ref);
    assert Stem(ref) + [RESULTS_OBJECT] == [ref.host, ref.org, ref.repo, RESULTS_OBJECT];
    JoinKeepsPlain([ref.host, ref.org, ref.repo, RESULTS_OBJECT]);
  }

  lemma {:induction false} LastNotEmpty(parts: seq<string>, last: string, c: char)
    requires last != ""
    ensures Join(parts + [last], c) != ""
  {
    if parts != [] { assert (parts + [last])[1..] == parts[1..] + [last]; }
  }

  /** From stacks that agree above position k, the same segments lead to stacks that agree above some
      position again. */
  lemma {:induction false} ResolveAlike(xs: seq<string>, a: seq<string>, b: seq<string>, k: nat, top: seq<string>)
    returns (j: nat, rest: seq<string>)
    requires k <= |a| == |b| && AllPlain(a) && AllPlain(b)
    ensures j <= |a| && Resolve(xs, false, a[..k] + top) == a[..j] + rest
    ensures Resolve(xs, false, b[..k] + top) == b[..j] + rest
    decreases |xs|
  {
    if xs == [] { return k, top; }
    var m, next := TakenAlike(xs[0], a, b, k, top);
    j, rest := ResolveAlike(xs[1..], a, b, m, next);
  }

  lemma TakenAlike(s: string, a: seq<string>, b: seq<string>, k: nat, top: seq<string>)
    returns (m: nat, next: seq<string>)
    requires k <= |a| == |b| && AllPlain(a) && AllPlain(b)
    ensures m <= |a| && Taken(s, false, a[..k] + top) == a[..m] + next
    ensures Taken(s, false, b[..k] + top) == b[..m] + next
  {
    var x, y := a[..k] + top, b[..k] + top;
    m, next := k, top;
    if top != [] {
      next := Taken(s, false, top);
      assert x[|x| - 1] == y[|y| - 1] == top[|top| - 1];
      assert x[..|x| - 1] == a[..k] + top[..|top| - 1] && y[..|y| - 1] == b[..k] + top[..|top| - 1];
    } else if s == ".." && k > 0 {
      m := k - 1;
      assert Plain(a[k - 1]) && Plain(b[k - 1]);
      assert x[|x| - 1] == a[k - 1] && y[|y| - 1] == b[k - 1];
    } else {
      next := Taken(s, false, []);
    }
  }

  /** A commit string names the latest object of a repository exactly when it leads to its path. */
  lemma NamesLatestIff(other: RepoRef, ref: RepoRef, commit: string)
    requires ValidRef(other) && ValidRef(ref) && commit != ""
    ensures Key(other, commit) == Key(ref, "") <==> Directory(other, commit) == Stem(ref)
  {
    KeyOfCommit(other, commit);
    KeyOfLatest(ref);
    SameFront(Directory(other, commit), Stem(ref), RESULTS_OBJECT);
  }

  lemma SameFront(a: seq<string>, b: seq<string>, last: string)
    ensures a + [last] == b + [last] <==> a == b
  {
    assert (a + [last])[..|a|] == a && (b + [last])[..|b|] == b;
    if a + [last] == b + [last] { assert |a + [last]| == |a| + 1 == |b| + 1; }
  }

  /** A commit string that leads from some repository to the latest object of `ref` leads there from
      `ref` as well. */
  lemma CollisionIsOwn(other: RepoRef, ref: RepoRef, commit: string)
    requires ValidRef(other) && ValidRef(ref) && commit != "" && Key(other, commit) == Key(ref, "")
    ensures Key(ref, commit) == Key(ref, "")
  {
    NamesLatestIff(other, ref, commit);
    NamesLatestIff(ref, ref, commit);
    KeyOfLatest(other);
    KeyOfLatest(ref);
    SameDirectory(Split(commit, '/'), Stem(other), Stem(ref));
  }

  lemma SameDirectory(xs: seq<string>, a: seq<string>, b: seq<string>)
    requires |a| == |b| && AllPlain(a) && AllPlain(b)
    ensures Resolve(xs, false, a) == b ==> Resolve(xs, false, b) == b
  {
    var j, rest := ResolveAlike(xs, a, b, |a|, []);
    assert a[..|a|] + [] == a && b[..|a|] + [] == b;
    if Resolve(xs, false, a) == b { assert b[..j] == a[..j]; }
  }

  /** The commit "." names the latest object. */
  lemma DotCommitIsLatest(ref: RepoRef)
    requires ValidRef(ref)
    ensures Key(ref, ".") == Key(ref, "")
  {
    NamesLatestIff(ref, ref, ".");
    SplitWhole(".", '/');
    DotStays(Stem(ref));
  }

  lemma DotStays(done: seq<string>)
    ensures Resolve(["."], false, done) == done
  {
    assert ["."][1..] == [];
  }

  lemma {:induction false} NonEmptyAll(parts: seq<string>)
    requires forall i :: 0 <= i < |parts| ==> parts[i] != ""
    ensures NonEmpty(parts) == parts
  {
    if parts != [] {
      NonEmptyAll(parts[1..]);
      assert parts == [parts[0]] + parts[1..];
    }
  }
}
