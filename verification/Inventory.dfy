/** The tool that normalises the project inventory: one entry per repository, metadata merged,
    sorted, written back as CSV. */
module Inventory {
  import opened Wrappers
  import opened Text
  import opened Iterators

  // ---- Which entries are the same repository ----

  datatype Url = Url(host: string, path: string)

  /** The key of a repository, where `parse` is url.Parse. */
  function MapURL(repo: string, parse: string -> Option<Url>): Option<string> {
    match parse(ToLower(repo))
    case None => None
    case Some(url) => Some(url.host + "/" + url.path)
  }

  datatype ToolError = ReadError(error: IterError) | ParsePanic

  /** The entries in reading order, or the first failure. */
  function Gather(lines: seq<Line>, valid: string -> bool, parse: string -> Option<Url>)
    : Result<seq<RepoFormat>, ToolError>
  {
    if lines == [] then Ok([])
    else
      match Interpret(lines[0], valid)
      case Err(e) => Err(ReadError(e))
      case Ok(repo) =>
        if MapURL(repo.repo, parse).None? then Err(ParsePanic)
        else
          match Gather(lines[1..], valid, parse)
          case Err(e) => Err(e)
          case Ok(rest) => Ok([repo] + rest)
  }

  // ---- Merging ----

  function With(metadata: seq<string>, value: string): seq<string> {
    if value !in metadata && value != "" then metadata + [value] else metadata
  }

  /** Metadata with each new non-empty value appended once. */
  function Extended(metadata: seq<string>, more: seq<string>): seq<string>
    decreases |more|
  {
    if more == [] then metadata else Extended(With(metadata, more[0]), more[1..])
  }

  function Add(m: map<string, RepoFormat>, key: string, repo: RepoFormat): map<string, RepoFormat> {
    m[key := if key in m then RepoFormat(m[key].repo, Extended(m[key].metadata, repo.metadata)) else repo]
  }

  predicate HaveKeys(repos: seq<RepoFormat>, parse: string -> Option<Url>) {
    forall i :: 0 <= i < |repos| ==> MapURL(repos[i].repo, parse).Some?
  }

  function Merge(repos: seq<RepoFormat>, parse: string -> Option<Url>): map<string, RepoFormat>
    requires HaveKeys(repos, parse)
  {
    if repos == [] then map[]
    else
      var n := |repos| - 1;
      Add(Merge(repos[..n], parse), MapURL(repos[n].repo, parse).value, repos[n])
  }

  predicate NoRepeats(metadata: seq<string>, from: nat) {
    forall p, q :: 0 <= p < q < |metadata| && q >= from ==> metadata[p] != metadata[q]
  }

  /** What a list has after being extended: the old values first, then every new non-empty value once. */
  lemma {:induction false} ExtendedIs(metadata: seq<string>, more: seq<string>, from: nat)
    requires from <= |metadata| && NoRepeats(metadata, from)
    ensures var r := Extended(metadata, more);
      && metadata <= r && NoRepeats(r, from)
      && forall x :: x in r <==> x in metadata || (x != "" && x in more)
    decreases |more|
  {
    if more != [] {
      ExtendedIs(With(metadata, more[0]), more[1..], from);
      assert more == [more[0]] + more[1..];
    }
  }

  /** A later entry with this key brings in the value. */
  predicate AddedLater(repos: seq<RepoFormat>, i: nat, key: string, x: string, parse: string -> Option<Url>) {
    x != "" && exists j :: i < j < |repos| && MapURL(repos[j].repo, parse) == Some(key) && x in repos[j].metadata
  }

  /** The first entry of each repository is kept as it is; after its metadata comes each further
      non-empty value of the later entries, once. */
  lemma {:induction false} MergeKeepsFirst(repos: seq<RepoFormat>, i: nat, key: string, parse: string -> Option<Url>)
    requires HaveKeys(repos, parse) && i < |repos|
    requires MapURL(repos[i].repo, parse) == Some(key)
    requires forall j :: 0 <= j < i ==> MapURL(repos[j].repo, parse) != Some(key)
    ensures var m := Merge(repos, parse);
      && key in m && m[key].repo == repos[i].repo && repos[i].metadata <= m[key].metadata
      && NoRepeats(m[key].metadata, |repos[i].metadata|)
      && forall x :: x in m[key].metadata <==> x in repos[i].metadata || AddedLater(repos, i, key, x, parse)
  {
    var n := |repos| - 1;
    var before := repos[..n];
    if i == n {
      MergeHas(before, key, parse);
    } else {
      MergeKeepsFirst(before, i, key, parse);
      var m := Merge(before, parse);
      if MapURL(repos[n].repo, parse) == Some(key) {
        ExtendedIs(m[key].metadata, repos[n].metadata, |repos[i].metadata|);
      }
      forall x
        ensures AddedLater(repos, i, key, x, parse) <==>
                  || AddedLater(before, i, key, x, parse)
                  || (x != "" && MapURL(repos[n].repo, parse) == Some(key) && x in repos[n].metadata)
      {
        LaterStep(repos, i, key, x, parse);
      }
    }
  }

  lemma LaterStep(repos: seq<RepoFormat>, i: nat, key: string, x: string, parse: string -> Option<Url>)
    requires i + 1 < |repos|
    ensures var n := |repos| - 1;
      AddedLater(repos, i, key, x, parse) <==>
        || AddedLater(repos[..n], i, key, x, parse)
        || (x != "" && MapURL(repos[n].repo, parse) == Some(key) && x in repos[n].metadata)
  {
  }

  lemma {:induction false} MergeHas(repos: seq<RepoFormat>, key: string, parse: string -> Option<Url>)
    requires HaveKeys(repos, parse)
    ensures key in Merge(repos, parse) <==>
              exists i :: 0 <= i < |repos| && MapURL(repos[i].repo, parse) == Some(key)
  {
    if repos != [] {
      var n := |repos| - 1;
      MergeHas(repos[..n], key, parse);
      assert forall i :: 0 <= i < n ==> repos[..n][i] == repos[i];
    }
  }

  // ---- Sorting ----

  predicate Sorted(repos: seq<RepoFormat>) {
    forall i, j :: 0 <= i < j < |repos| ==> !Less(repos[j].repo, repos[i].repo)
  }

  /** The entries of one repository string, in order. */
  function Of(repos: seq<RepoFormat>, repo: string): seq<RepoFormat> {
    if repos == [] then []
    else (if repos[0].repo == repo then [repos[0]] else []) + Of(repos[1..], repo)
  }

  function Insert(x: RepoFormat, repos: seq<RepoFormat>): seq<RepoFormat> {
    if repos == [] || !Less(repos[0].repo, x.repo) then [x] + repos
    else [repos[0]] + Insert(x, repos[1..])
  }

  /** sort.SliceStable by repository string. */
  function SortByRepo(repos: seq<RepoFormat>): seq<RepoFormat> {
    if repos == [] then [] else Insert(repos[0], SortByRepo(repos[1..]))
  }

  lemma NotLessTransitive(a: string, b: string, c: string)
    requires !Less(b, a) && !Less(c, b)
    ensures !Less(c, a)
  {
  }

  lemma {:induction false} InsertIs(x: RepoFormat, repos: seq<RepoFormat>)
    requires Sorted(repos)
    ensures Sorted(Insert(x, repos)) && |Insert(x, repos)| == |repos| + 1
    ensures forall y :: y in Insert(x, repos) <==> y == x || y in repos
    ensures forall repo :: Of(Insert(x, repos), repo) == (if x.repo == repo then [x] else []) + Of(repos, repo)
  {
    var r := Insert(x, repos);
    if repos == [] || !Less(repos[0].repo, x.repo) {
      forall j | 0 < j < |r| ensures !Less(r[j].repo, x.repo) {
        if j > 1 { NotLessTransitive(x.repo, repos[0].repo, r[j].repo); }
      }
      assert r[1..] == repos;
    } else {
      InsertIs(x, repos[1..]);
      var rest := Insert(x, repos[1..]);
      assert r[1..] == rest && repos == [repos[0]] + repos[1..];
      LessTotal(repos[0].repo, x.repo);
      forall j | 0 <= j < |rest| ensures !Less(rest[j].repo, repos[0].repo) {
        assert rest[j] in rest;
      }
      forall i, j | 0 <= i < j < |r| ensures !Less(r[j].repo, r[i].repo) {
        assert r[j] == rest[j - 1];
        if i > 0 { assert r[i] == rest[i - 1]; }
      }
    }
  }

  /** A stable sort: ordered, and equal repository strings keep their order. */
  lemma {:induction false} SortIsStable(repos: seq<RepoFormat>)
    ensures Sorted(SortByRepo(repos))
    ensures forall repo :: Of(SortByRepo(repos), repo) == Of(repos, repo)
  {
    if repos != [] {
      SortIsStable(repos[1..]);
      InsertIs(repos[0], SortByRepo(repos[1..]));
    }
  }

  lemma {:induction false} OfHas(repos: seq<RepoFormat>, x: RepoFormat)
    ensures x in Of(repos, x.repo) <==> x in repos
    ensures forall y :: y in Of(repos, x.repo) ==> y.repo == x.repo
  {
    if repos != [] {
      OfHas(repos[1..], x);
      assert repos == [repos[0]] + repos[1..];
    }
  }

  /** Order and the entries of each string determine the list: there is one stable sort. */
  lemma {:induction false} OneStableSort(a: seq<RepoFormat>, b: seq<RepoFormat>)
    requires Sorted(a) && Sorted(b)
    requires forall repo :: Of(a, repo) == Of(b, repo)
    ensures a == b
  {
    SameEmpty(a, b);
    if a != [] {
      SameHead(a, b);
      assert a == [a[0]] + a[1..] && b == [b[0]] + b[1..];
      forall repo ensures Of(a[1..], repo) == Of(b[1..], repo) {
        assert Of(a, repo) == Of(b, repo);
        if a[0].repo == repo {
          assert Of(a[1..], repo) == Of(a, repo)[1..] == Of(b, repo)[1..] == Of(b[1..], repo);
        } else {
          assert Of(a[1..], repo) == Of(a, repo) == Of(b, repo) == Of(b[1..], repo);
        }
      }
      OneStableSort(a[1..], b[1..]);
    }
  }

  lemma SameEmpty(a: seq<RepoFormat>, b: seq<RepoFormat>)
    requires forall repo :: Of(a, repo) == Of(b, repo)
    ensures a == [] ==> b == []
  {
    if b != [] { assert Of(b, b[0].repo) == Of(a, b[0].repo); }
  }

  lemma SameHead(a: seq<RepoFormat>, b: seq<RepoFormat>)
    requires Sorted(a) && Sorted(b) && a != []
    requires forall repo :: Of(a, repo) == Of(b, repo)
    ensures b != [] && a[0] == b[0]
  {
    OfHas(a, a[0]);
    OfHas(b, a[0]);
    assert Of(a, a[0].repo) == Of(b, a[0].repo);
    OfHas(b, b[0]);
    OfHas(a, b[0]);
    assert Of(a, b[0].repo) == Of(b, b[0].repo);
    LessTotal(a[0].repo, b[0].repo);
    assert Of(a, a[0].repo)[0] == a[0] && Of(b, b[0].repo)[0] == b[0];
  }

  // ---- The entries of a map, in any order ----

  /** Every entry's own repository string has the key it is stored under. */
  predicate Keyed(m: map<string, RepoFormat>, parse: string -> Option<Url>) {
    forall key :: key in m ==> MapURL(m[key].repo, parse) == Some(key)
  }

  /** The entry of this repository string, if the map holds it. */
  function Entry(m: map<string, RepoFormat>, repo: string, parse: string -> Option<Url>): seq<RepoFormat> {
    match MapURL(repo, parse)
    case None => []
    case Some(key) => if key in m && m[key].repo == repo then [m[key]] else []
  }

  /** The list holds each entry of the map once. */
  ghost predicate Lists(repos: seq<RepoFormat>, m: map<string, RepoFormat>, parse: string -> Option<Url>) {
    forall repo :: Of(repos, repo) == Entry(m, repo, parse)
  }

  lemma {:induction false} MergeKeyed(repos: seq<RepoFormat>, parse: string -> Option<Url>)
    requires HaveKeys(repos, parse)
    ensures Keyed(Merge(repos, parse), parse)
  {
    if repos != [] { MergeKeyed(repos[..|repos| - 1], parse); }
  }

  lemma {:induction false} OfAppend(repos: seq<RepoFormat>, x: RepoFormat, repo: string)
    ensures Of(repos + [x], repo) == Of(repos, repo) + if x.repo == repo then [x] else []
  {
    if repos == [] {
      assert [x][1..] == [];
    } else {
      OfAppend(repos[1..], x, repo);
      assert (repos + [x])[1..] == repos[1..] + [x];
    }
  }

  /** Listing one more entry. */
  lemma ListsMore(repos: seq<RepoFormat>, m: map<string, RepoFormat>, left: set<string>, key: string,
                  parse: string -> Option<Url>)
    requires Keyed(m, parse) && key in m && key in left && Lists(repos, m - left, parse)
    ensures Lists(repos + [m[key]], m - (left - {key}), parse)
  {
    forall repo ensures Of(repos + [m[key]], repo) == Entry(m - (left - {key}), repo, parse) {
      OfAppend(repos, m[key], repo);
      assert Of(repos, repo) == Entry(m - left, repo, parse);
    }
  }

  /** The sorted list does not depend on the order in which the map is walked. */
  lemma WalkOrderIrrelevant(a: seq<RepoFormat>, b: seq<RepoFormat>, m: map<string, RepoFormat>, parse: string -> Option<Url>)
    requires Lists(a, m, parse) && Lists(b, m, parse)
    ensures SortByRepo(a) == SortByRepo(b)
  {
    SortIsStable(a);
    SortIsStable(b);
    forall repo ensures Of(SortByRepo(a), repo) == Of(SortByRepo(b), repo) {
      assert Of(a, repo) == Entry(m, repo, parse) == Of(b, repo);
    }
    OneStableSort(SortByRepo(a), SortByRepo(b));
  }

  // ---- Writing ----

  function Encoded(repo: RepoFormat): Line { Fields(repo.repo, MarshalCSV(repo.metadata)) }

  function Records(repos: seq<RepoFormat>): (lines: seq<Line>)
    ensures |lines| == |repos| && forall i :: 0 <= i < |repos| ==> lines[i] == Encoded(repos[i])
  {
    seq(|repos|, i requires 0 <= i < |repos| => Encoded(repos[i]))
  }

  /** WriteTo: the header and a record per entry. */
  function File(repos: seq<RepoFormat>): seq<Line> { [HEADER] + Records(repos) }

  // ---- Reading ----

  function PrependAll(got: seq<RepoFormat>, r: Result<seq<RepoFormat>, ToolError>): Result<seq<RepoFormat>, ToolError> {
    match r
    case Err(e) => Err(e)
    case Ok(repos) => Ok(got + repos)
  }

  lemma GatherStep(got: seq<RepoFormat>, lines: seq<Line>, valid: string -> bool, parse: string -> Option<Url>)
    requires lines != []
    ensures PrependAll(got, Gather(lines, valid, parse)) ==
            match Interpret(lines[0], valid)
            case Err(e) => Err(ReadError(e))
            case Ok(repo) =>
              if MapURL(repo.repo, parse).None? then Err(ParsePanic)
              else PrependAll(got + [repo], Gather(lines[1..], valid, parse))
  {
    var rest := Gather(lines[1..], valid, parse);
    if Interpret(lines[0], valid).Ok? && rest.Ok? {
      var repo := Interpret(lines[0], valid).value;
      assert got + ([repo] + rest.value) == got + [repo] + rest.value;
    }
  }

  // ---- The tool ----

  class Project {
    var format: RepoFormat

    constructor (format: RepoFormat)
      ensures this.format == format
    {
      this.format := format;
    }
  }

  function Values(metadata: seq<string>): set<string> { set x | x in metadata }

  /** Two maps that stand for m: an object of its own for each entry, and its metadata as a set. */
  ghost predicate Stands(repoURLs: map<string, Project>, repoMap: map<string, set<string>>, m: map<string, RepoFormat>)
    reads repoURLs.Values
  {
    && repoURLs.Keys == repoMap.Keys == m.Keys
    && (forall a, b :: a in repoURLs && b in repoURLs && a != b ==> repoURLs[a] != repoURLs[b])
    && forall key :: key in m ==> repoURLs[key].format == m[key] && repoMap[key] == Values(m[key].metadata)
  }

  /** Appends in place what the entry does not hold yet. */
  method AddMetadata(project: Project, known: set<string>, more: seq<string>) returns (seen: set<string>)
    requires known == Values(project.format.metadata)
    modifies project
    ensures project.format == RepoFormat(old(project.format.repo), Extended(old(project.format.metadata), more))
    ensures seen == Values(project.format.metadata)
  {
    seen := known;
    for i := 0 to |more|
      invariant project.format.repo == old(project.format.repo)
      invariant Extended(project.format.metadata, more[i..]) == Extended(old(project.format.metadata), more)
      invariant seen == Values(project.format.metadata)
    {
      assert more[i..][0] == more[i] && more[i..][1..] == more[i + 1..];
      if more[i] !in seen && more[i] != "" {
        project.format := project.format.(metadata := project.format.metadata + [more[i]]);
        seen := seen + {more[i]};
      }
    }
  }

  /** One entry of the input: new, or merged into the one of its key. */
  method AddRepo(repoURLs: map<string, Project>, repoMap: map<string, set<string>>, key: string, repo: RepoFormat,
                 ghost m: map<string, RepoFormat>)
    returns (urls: map<string, Project>, sets: map<string, set<string>>)
    requires Stands(repoURLs, repoMap, m)
    modifies repoURLs.Values
    ensures Stands(urls, sets, Add(m, key, repo))
    ensures forall k :: k in urls ==> (k in repoURLs && urls[k] == repoURLs[k]) || fresh(urls[k])
  {
    if key !in repoURLs {
      var project := new Project(repo);
      urls := repoURLs[key := project];
      sets := repoMap[key := set x | x in repo.metadata];
    } else {
      var seen := AddMetadata(repoURLs[key], repoMap[key], repo.metadata);
      urls, sets := repoURLs, repoMap[key := seen];
    }
  }

  lemma MergeMore(got: seq<RepoFormat>, repo: RepoFormat, key: string, parse: string -> Option<Url>)
    requires HaveKeys(got, parse) && MapURL(repo.repo, parse) == Some(key)
    ensures HaveKeys(got + [repo], parse) && Merge(got + [repo], parse) == Add(Merge(got, parse), key, repo)
  {
  }

  /** The next entry of the input, added to those read. */
  method TakeRepo(repoURLs: map<string, Project>, repoMap: map<string, set<string>>, key: string, repo: RepoFormat,
                  parse: string -> Option<Url>, ghost got: seq<RepoFormat>)
    returns (urls: map<string, Project>, sets: map<string, set<string>>)
    requires HaveKeys(got, parse) && Stands(repoURLs, repoMap, Merge(got, parse))
    requires MapURL(repo.repo, parse) == Some(key)
    modifies repoURLs.Values
    ensures HaveKeys(got + [repo], parse) && Stands(urls, sets, Merge(got + [repo], parse))
    ensures forall p :: p in urls.Values ==> p in repoURLs.Values || fresh(p)
  {
    MergeMore(got, repo, key, parse);
    urls, sets := AddRepo(repoURLs, repoMap, key, repo, Merge(got, parse));
  }

  /** Walks the map in whatever order it comes. */
  method WalkProjects(repoURLs: map<string, Project>, ghost repoMap: map<string, set<string>>,
                      ghost m: map<string, RepoFormat>, ghost parse: string -> Option<Url>)
    returns (repos: seq<RepoFormat>)
    requires Stands(repoURLs, repoMap, m) && Keyed(m, parse)
    ensures Lists(repos, m, parse)
  {
    repos := [];
    var left := repoURLs.Keys;
    while left != {}
      invariant left <= m.Keys
      invariant Lists(repos, m - left, parse)
      decreases |left|
    {
      var key :| key in left;
      ListsMore(repos, m, left, key, parse);
      repos := repos + [repoURLs[key].format];
      left := left - {key};
    }
    assert m - left == m;
  }

  /** The loop over the inventory. */
  method ReadProjects(iter: CsvIterator, parse: string -> Option<Url>)
    returns (r: Result<map<string, Project>, ToolError>, ghost sets: map<string, set<string>>, ghost got: seq<RepoFormat>)
    modifies iter
    ensures match Gather(old(iter.Rest()), iter.valid, parse)
            case Err(e) => r == Err(e)
            case Ok(repos) => r.Ok? && got == repos && HaveKeys(got, parse) && Stands(r.value, sets, Merge(got, parse))
  {
    var repoURLs: map<string, Project> := map[];
    var repoMap: map<string, set<string>> := map[];
    ghost var lines := iter.Rest();
    sets, got := map[], [];
    var more := iter.HasNext();
    GatherAll(Gather(lines, iter.valid, parse));
    while more
      invariant more <==> lines != []
      invariant more ==> iter.Holds(lines[0]) && iter.Rest() == lines[1..]
      invariant PrependAll(got, Gather(lines, iter.valid, parse)) == Gather(old(iter.Rest()), iter.valid, parse)
      invariant HaveKeys(got, parse) && Stands(repoURLs, repoMap, Merge(got, parse))
      invariant forall p :: p in repoURLs.Values ==> fresh(p)
      decreases |lines|
    {
      GatherStep(got, lines, iter.valid, parse);
      var repo := iter.Next();
      if repo.Err? { return Err(ReadError(repo.error)), map[], got; }
      var key := MapURL(repo.value.repo, parse);
      if key.None? { return Err(ParsePanic), map[], got; }
      repoURLs, repoMap := TakeRepo(repoURLs, repoMap, key.value, repo.value, parse, got);
      assert iter.Rest() == lines[1..];
      got := got + [repo.value];
      lines := lines[1..];
      more := iter.HasNext();
    }
    assert got + [] == got;
    r, sets := Ok(repoURLs), repoMap;
  }

  lemma GatherAll(r: Result<seq<RepoFormat>, ToolError>)
    ensures PrependAll([], r) == r
  {
    if r.Ok? { assert [] + r.value == r.value; }
  }

  /** The merged entries, each once, in some order. */
  method GetRepoURLs(iter: CsvIterator, parse: string -> Option<Url>) returns (r: Result<seq<RepoFormat>, ToolError>)
    modifies iter
    ensures match Gather(old(iter.Rest()), iter.valid, parse)
            case Err(e) => r == Err(e)
            case Ok(repos) => r.Ok? && HaveKeys(repos, parse) && Lists(r.value, Merge(repos, parse), parse)
  {
    var repoURLs, sets, got := ReadProjects(iter, parse);
    if repoURLs.Err? { return Err(repoURLs.error); }
    MergeKeyed(got, parse);
    var repos := WalkProjects(repoURLs.value, sets, Merge(got, parse), parse);
    r := Ok(repos);
  }

  /** The list in order, with the entries of each repository string as they were. */
  ghost predicate IsSortOf(sorted: seq<RepoFormat>, repos: seq<RepoFormat>) {
    Sorted(sorted) && forall repo :: Of(sorted, repo) == Of(repos, repo)
  }

  /** Appends, sorts stably and writes. */
  method SortAndAppendTo(oldRepos: seq<RepoFormat>, newRepos: seq<RepoFormat>)
    returns (out: seq<Line>, ghost sorted: seq<RepoFormat>)
    ensures out == File(sorted) && IsSortOf(sorted, oldRepos + newRepos)
  {
    var repos := SortByRepo(oldRepos + newRepos);
    SortIsStable(oldRepos + newRepos);
    out, sorted := File(repos), repos;
  }

  /** Reads a file, appends to it, sorts and writes. */
  method SortAndAppendFrom(iter: CsvIterator, newRepos: seq<RepoFormat>)
    returns (r: Result<seq<Line>, IterError>, ghost sorted: seq<RepoFormat>)
    modifies iter
    ensures var reading := Read(old(iter.Rest()), iter.valid);
      match reading.error
      case Some(e) => r == Err(e)
      case None => r == Ok(File(sorted)) && IsSortOf(sorted, reading.repos + newRepos)
  {
    var oldRepos: seq<RepoFormat> := [];
    ghost var lines := iter.Rest();
    var more := iter.HasNext();
    while more
      invariant more <==> lines != []
      invariant more ==> iter.Holds(lines[0]) && iter.Rest() == lines[1..]
      invariant Prepend(oldRepos, Read(lines, iter.valid)) == Read(old(iter.Rest()), iter.valid)
      decreases |lines|
    {
      ReadStep(oldRepos, lines, iter.valid);
      var repo := iter.Next();
      if repo.Err? { return Err(repo.error), []; }
      oldRepos := oldRepos + [repo.value];
      lines := lines[1..];
      more := iter.HasNext();
    }
    assert oldRepos + [] == oldRepos;
    var out;
    out, sorted := SortAndAppendTo(oldRepos, newRepos);
    r := Ok(out);
  }

  /** Collecting, merging, sorting and rendering. */
  method Normalise(iter: CsvIterator, parse: string -> Option<Url>)
    returns (r: Result<seq<Line>, ToolError>, ghost normal: seq<RepoFormat>)
    modifies iter
    ensures match Gather(old(iter.Rest()), iter.valid, parse)
            case Err(e) => r == Err(e)
            case Ok(repos) => r == Ok(File(normal)) && IsNormal(normal, repos, parse)
  {
    normal := [];
    var repos := GetRepoURLs(iter, parse);
    if repos.Err? { return Err(repos.error), []; }
    var out;
    out, normal := SortAndAppendTo(repos.value, []);
    assert repos.value + [] == repos.value;
    r := Ok(out);
  }

  // ---- The output file ----

  /** Writing from the start of a file that is not truncated. */
  function WrittenOver(contents: string, bytes: string): string {
    bytes + if |bytes| < |contents| then contents[|bytes|..] else ""
  }

  /** The file holds exactly what was written if and only if it was no longer than that before. */
  lemma WrittenExactlyIff(contents: string, bytes: string)
    ensures WrittenOver(contents, bytes) == bytes <==> |contents| <= |bytes|
  {
    if |bytes| < |contents| { assert |WrittenOver(contents, bytes)| == |contents|; }
  }

  class OutputFile {
    var contents: string

    constructor (contents: string)
      ensures this.contents == contents
    {
      this.contents := contents;
    }

    method Write(bytes: string)
      modifies this
      ensures contents == WrittenOver(old(contents), bytes)
    {
      contents := bytes + if |bytes| < |contents| then contents[|bytes|..] else "";
    }
  }

  /** The whole tool, where `render` is how lines are spelled as CSV: an error leaves the output file
      alone, and otherwise it holds the normalised inventory and, after it, what was there beyond its
      length before. */
  method AddProjects(iter: CsvIterator, parse: string -> Option<Url>, render: seq<Line> -> string, file: OutputFile)
    returns (error: Option<ToolError>, ghost normal: seq<RepoFormat>)
    modifies iter, file
    ensures match Gather(old(iter.Rest()), iter.valid, parse)
            case Err(e) => error == Some(e) && file.contents == old(file.contents)
            case Ok(repos) =>
              && error == None && IsNormal(normal, repos, parse)
              && file.contents == WrittenOver(old(file.contents), render(File(normal)))
              && (file.contents == render(File(normal)) <==> |old(file.contents)| <= |render(File(normal))|)
  {
    var out;
    out, normal := Normalise(iter, parse);
    if out.Err? { return Some(out.error), normal; }
    WrittenExactlyIff(file.contents, render(out.value));
    file.Write(render(out.value));
    error := None;
  }

  /** The merged entries, each once and in order. */
  ghost predicate IsNormal(normal: seq<RepoFormat>, repos: seq<RepoFormat>, parse: string -> Option<Url>) {
    HaveKeys(repos, parse) && Sorted(normal) && Lists(normal, Merge(repos, parse), parse)
  }

  // ---- Normalising twice ----

  predicate CommaFree(metadata: seq<string>) { forall i :: 0 <= i < |metadata| ==> Free(metadata[i], ',') }

  /** An entry that a file written from it gives back. */
  predicate Rereadable(x: RepoFormat, valid: string -> bool, parse: string -> Option<Url>) {
    valid(x.repo) && MapURL(x.repo, parse).Some? && x.metadata != [""] && CommaFree(x.metadata)
  }

  ghost predicate AllRereadable(m: map<string, RepoFormat>, valid: string -> bool, parse: string -> Option<Url>) {
    forall key :: key in m ==> Rereadable(m[key], valid, parse)
  }

  lemma UnmarshalledIs(field: string)
    ensures UnmarshalCSV(field) != [""] && CommaFree(UnmarshalCSV(field))
  {
    SplitParts(field, ',');
    if field != [] && field[0] != ',' { assert Split(field, ',')[0] != ""; }
  }

  lemma {:induction false} GatheredRereadable(lines: seq<Line>, valid: string -> bool, parse: string -> Option<Url>)
    requires Gather(lines, valid, parse).Ok?
    ensures var repos := Gather(lines, valid, parse).value;
      forall x :: x in repos ==> Rereadable(x, valid, parse)
  {
    if lines != [] {
      GatheredRereadable(lines[1..], valid, parse);
      UnmarshalledIs(lines[0].metadata);
    }
  }

  lemma {:induction false} ExtendedClean(metadata: seq<string>, more: seq<string>)
    requires metadata != [""] && CommaFree(metadata) && CommaFree(more)
    ensures Extended(metadata, more) != [""] && CommaFree(Extended(metadata, more))
    decreases |more|
  {
    if more != [] {
      var now := With(metadata, more[0]);
      assert now != metadata ==> now[|metadata|] != "";
      ExtendedClean(now, more[1..]);
    }
  }

  lemma {:induction false} MergeRereadable(repos: seq<RepoFormat>, valid: string -> bool, parse: string -> Option<Url>)
    requires HaveKeys(repos, parse)
    requires forall x :: x in repos ==> Rereadable(x, valid, parse)
    ensures AllRereadable(Merge(repos, parse), valid, parse)
  {
    if repos != [] {
      var n := |repos| - 1;
      MergeRereadable(repos[..n], valid, parse);
      assert Rereadable(repos[n], valid, parse);
      var m, key := Merge(repos[..n], parse), MapURL(repos[n].repo, parse).value;
      if key in m {
        assert Rereadable(m[key], valid, parse);
        ExtendedClean(m[key].metadata, repos[n].metadata);
      }
    }
  }

  /** What a list of a map's entries holds. */
  lemma ListedEntry(normal: seq<RepoFormat>, m: map<string, RepoFormat>, i: nat, parse: string -> Option<Url>)
    requires Lists(normal, m, parse) && i < |normal|
    ensures var key := MapURL(normal[i].repo, parse);
      key.Some? && key.value in m && m[key.value] == normal[i]
  {
    OfHas(normal, normal[i]);
    assert Of(normal, normal[i].repo) == Entry(m, normal[i].repo, parse);
  }

  lemma {:induction false} OfTwo(repos: seq<RepoFormat>, i: nat, j: nat)
    requires i < j < |repos| && repos[i].repo == repos[j].repo
    ensures |Of(repos, repos[i].repo)| >= 2
  {
    if i == 0 {
      OfHas(repos[1..], repos[j]);
      assert repos[1..][j - 1] == repos[j];
    } else {
      OfTwo(repos[1..], i - 1, j - 1);
    }
  }

  lemma ListedDistinct(normal: seq<RepoFormat>, m: map<string, RepoFormat>, i: nat, j: nat, parse: string -> Option<Url>)
    requires Lists(normal, m, parse) && i < j < |normal|
    ensures MapURL(normal[i].repo, parse) != MapURL(normal[j].repo, parse)
  {
    ListedEntry(normal, m, i, parse);
    ListedEntry(normal, m, j, parse);
    assert Of(normal, normal[i].repo) == Entry(m, normal[i].repo, parse);
    if normal[i].repo == normal[j].repo { OfTwo(normal, i, j); }
  }

  lemma {:induction false} MergeDistinct(repos: seq<RepoFormat>, i: nat, parse: string -> Option<Url>)
    requires HaveKeys(repos, parse) && i < |repos|
    requires forall a, b :: 0 <= a < b < |repos| ==> MapURL(repos[a].repo, parse) != MapURL(repos[b].repo, parse)
    ensures var key := MapURL(repos[i].repo, parse).value;
      key in Merge(repos, parse) && Merge(repos, parse)[key] == repos[i]
  {
    var n := |repos| - 1;
    if i < n {
      MergeDistinct(repos[..n], i, parse);
    } else {
      MergeHas(repos[..n], MapURL(repos[n].repo, parse).value, parse);
    }
  }

  /** Merging a list of a map's entries gives the map. */
  lemma MergeListed(normal: seq<RepoFormat>, m: map<string, RepoFormat>, parse: string -> Option<Url>)
    requires Keyed(m, parse) && Lists(normal, m, parse)
    ensures HaveKeys(normal, parse) && Merge(normal, parse) == m
  {
    forall i | 0 <= i < |normal|
      ensures var key := MapURL(normal[i].repo, parse); key.Some? && key.value in m && m[key.value] == normal[i]
    {
      ListedEntry(normal, m, i, parse);
    }
    forall i, j | 0 <= i < j < |normal| ensures MapURL(normal[i].repo, parse) != MapURL(normal[j].repo, parse) {
      ListedDistinct(normal, m, i, j, parse);
    }
    var merged := Merge(normal, parse);
    forall i | 0 <= i < |normal|
      ensures var key := MapURL(normal[i].repo, parse).value; key in merged && merged[key] == normal[i]
    {
      MergeDistinct(normal, i, parse);
    }
    forall key ensures key in merged <==> key in m {
      MergeHas(normal, key, parse);
      if key in m {
        assert Of(normal, m[key].repo) == Entry(m, m[key].repo, parse);
        OfHas(normal, m[key]);
      }
    }
    forall key | key in m ensures merged[key] == m[key] {
      MergeHas(normal, key, parse);
    }
  }

  lemma {:induction false} GatherRecords(repos: seq<RepoFormat>, valid: string -> bool, parse: string -> Option<Url>)
    requires forall x :: x in repos ==> Rereadable(x, valid, parse)
    ensures Gather(Records(repos), valid, parse) == Ok(repos)
  {
    if repos != [] {
      GatherRecords(repos[1..], valid, parse);
      assert Records(repos)[1..] == Records(repos[1..]);
      assert Rereadable(repos[0], valid, parse);
      assert repos[0].metadata != [[]];
      MarshalRoundTrip(repos[0].metadata);
      assert Interpret(Records(repos)[0], valid) == Ok(repos[0]);
      assert [repos[0]] + repos[1..] == repos;
    }
  }

  /** Normalising what the tool wrote changes nothing: the written file reads back as the same
      entries, and their only normal form is the list itself. */
  lemma NormaliseTwice(lines: seq<Line>, valid: string -> bool, parse: string -> Option<Url>,
                       repos: seq<RepoFormat>, normal: seq<RepoFormat>, again: seq<RepoFormat>)
    requires Gather(lines, valid, parse) == Ok(repos) && IsNormal(normal, repos, parse)
    ensures Gather(Body(File(normal)), valid, parse) == Ok(normal)
    ensures IsNormal(again, normal, parse) <==> again == normal
  {
    var m := Merge(repos, parse);
    GatheredRereadable(lines, valid, parse);
    MergeRereadable(repos, valid, parse);
    MergeKeyed(repos, parse);
    forall x | x in normal ensures Rereadable(x, valid, parse) {
      var i :| 0 <= i < |normal| && normal[i] == x;
      ListedEntry(normal, m, i, parse);
      assert Rereadable(m[MapURL(x.repo, parse).value], valid, parse);
    }
    GatherRecords(normal, valid, parse);
    assert Body(File(normal)) == Records(normal);
    MergeListed(normal, m, parse);
    if IsNormal(again, normal, parse) { OneNormalForm(again, normal, m, parse); }
  }

  lemma OneNormalForm(a: seq<RepoFormat>, b: seq<RepoFormat>, m: map<string, RepoFormat>, parse: string -> Option<Url>)
    requires Sorted(a) && Sorted(b) && Lists(a, m, parse) && Lists(b, m, parse)
    ensures a == b
  {
    forall repo ensures Of(a, repo) == Of(b, repo) {
      assert Of(a, repo) == Entry(m, repo, parse) == Of(b, repo);
    }
    OneStableSort(a, b);
  }
}
