/** The scan inventories: the CSV metadata column, the reader of one file and the reader of
    many files one after the other. */
module Iterators {
  import opened Wrappers
  import opened Text

  // ---- The metadata column ----

  /** CSVStrings.MarshalCSV. */
  function MarshalCSV(metadata: seq<string>): string { Join(metadata, ',') }

  /** CSVStrings.UnmarshalCSV. */
  function UnmarshalCSV(field: string): seq<string> {
    if field == [] then [] else Split(field, ',')
  }

  lemma {:induction false} JoinEmpty(parts: seq<string>, c: char)
    requires |parts| >= 1 && Join(parts, c) == []
    ensures parts == [[]]
  {
  }

  /** A metadata list survives being written and read back exactly when no entry holds a comma
      and it is not the list of one empty string. */
  lemma MarshalRoundTrip(metadata: seq<string>)
    ensures UnmarshalCSV(MarshalCSV(metadata)) == metadata <==>
            (forall i :: 0 <= i < |metadata| ==> Free(metadata[i], ',')) && metadata != [[]]
  {
    if (forall i :: 0 <= i < |metadata| ==> Free(metadata[i], ',')) && metadata != [[]] && metadata != [] {
      SplitJoin(metadata, ',');
      if MarshalCSV(metadata) == [] { JoinEmpty(metadata, ','); }
    }
    if UnmarshalCSV(MarshalCSV(metadata)) == metadata {
      SplitParts(MarshalCSV(metadata), ',');
    }
  }

  // ---- Records ----

  datatype RepoFormat = RepoFormat(repo: string, metadata: seq<string>)

  /** One line of a file: a record of two fields, or one the decoder refuses. */
  datatype Line = Fields(repo: string, metadata: string) | BadLine

  /** The field names csvutil derives from RepoFormat. */
  const HEADER := Fields("repo", "metadata")

  datatype IterError = EOF | DecodeError | InvalidURL

  function Decoded(line: Line): RepoFormat
    requires line.Fields?
  {
    RepoFormat(line.repo, UnmarshalCSV(line.metadata))
  }

  /** The lines of a file that are records: all but a header in first place. */
  function Body(lines: seq<Line>): seq<Line> {
    if lines != [] && lines[0] == HEADER then lines[1..] else lines
  }

  /** What reading one record gives its caller; `valid` is the GitHub or GitLab URL check. */
  function Interpret(line: Line, valid: string -> bool): Result<RepoFormat, IterError> {
    match line
    case BadLine => Err(DecodeError)
    case Fields(repo, _) => if valid(repo) then Ok(Decoded(line)) else Err(InvalidURL)
  }

  /** What the HasNext and Next loop collects before it stops, and the error it stops at. */
  datatype Reading = Reading(repos: seq<RepoFormat>, error: Option<IterError>)

  function Read(lines: seq<Line>, valid: string -> bool): Reading {
    if lines == [] then Reading([], None)
    else
      match Interpret(lines[0], valid)
      case Err(e) => Reading([], Some(e))
      case Ok(repo) =>
        var rest := Read(lines[1..], valid);
        Reading([repo] + rest.repos, rest.error)
  }

  /** Reading succeeds exactly when every record does, and then gives them all in order. */
  lemma {:induction false} ReadAllOrFail(lines: seq<Line>, valid: string -> bool)
    ensures var r := Read(lines, valid);
      && |r.repos| <= |lines|
      && (forall i :: 0 <= i < |r.repos| ==> Interpret(lines[i], valid) == Ok(r.repos[i]))
      && (r.error == None <==> |r.repos| == |lines|)
      && (r.error != None ==> Interpret(lines[|r.repos|], valid) == Err(r.error.value))
  {
    if lines != [] && Interpret(lines[0], valid).Ok? {
      ReadAllOrFail(lines[1..], valid);
      var r, rest := Read(lines, valid), Read(lines[1..], valid);
      forall i | 0 <= i < |r.repos| ensures Interpret(lines[i], valid) == Ok(r.repos[i]) {
        if i > 0 { assert lines[i] == lines[1..][i - 1] && r.repos[i] == rest.repos[i - 1]; }
      }
    }
  }

  // ---- One file ----

  class CsvIterator {
    var lines: seq<Line>
    var err: Option<IterError>
    var next: RepoFormat
    var afterHeader: bool
    const valid: string -> bool

    constructor (lines: seq<Line>, valid: string -> bool)
      ensures this.lines == lines && this.valid == valid && !afterHeader
    {
      this.lines, this.valid, err, next, afterHeader := lines, valid, None, RepoFormat("", []), false;
    }

    /** The records still to be read. */
    function Rest(): seq<Line>
      reads this
    {
      if afterHeader then lines else Body(lines)
    }

    /** The iterator has just decoded this line. */
    predicate Holds(line: Line)
      reads this
    {
      match line
      case BadLine => err == Some(DecodeError)
      case Fields(_, _) => err == None && next == Decoded(line)
    }

    method Decode() returns (record: Option<Line>)
      modifies this
      ensures afterHeader == old(afterHeader)
      ensures record == None <==> old(lines) == []
      ensures record == None ==> lines == [] && err == Some(EOF)
      ensures record.Some? ==> record.value == old(lines)[0] && lines == old(lines)[1..] && Holds(record.value)
    {
      if lines == [] {
        err, record := Some(EOF), None;
      } else {
        var line := lines[0];
        record, lines := Some(line), lines[1..];
        match line {
          case BadLine => err := Some(DecodeError);
          case Fields(repo, field) => err, next := None, RepoFormat(repo, UnmarshalCSV(field));
        }
      }
    }

    method HasNext() returns (more: bool)
      modifies this
      ensures more <==> old(Rest()) != []
      ensures more ==> Holds(old(Rest())[0]) && Rest() == old(Rest())[1..]
      ensures !more ==> Rest() == []
      ensures afterHeader
    {
      var record := Decode();
      if !afterHeader {
        afterHeader := true;
        if record == Some(HEADER) { record := Decode(); }
      }
      more := err != Some(EOF);
    }

    method Next() returns (r: Result<RepoFormat, IterError>)
      ensures forall line :: Holds(line) ==> r == Interpret(line, valid)
      ensures r.Ok? ==> r.value == next
    {
      if err.Some? { return Err(err.value); }
      if !valid(next.repo) { return Err(InvalidURL); }
      r := Ok(next);
    }
  }

  // ---- Many files ----

  function Concat(files: seq<seq<Line>>): seq<Line> {
    if files == [] then [] else files[0] + Concat(files[1..])
  }

  class NestedIterator {
    const iterators: seq<CsvIterator>
    const valid: string -> bool
    var current: nat

    /** Distinct readers, all with the same URL check. */
    ghost predicate Valid()
      reads this
    {
      && current <= |iterators|
      && (forall i, j :: 0 <= i < j < |iterators| ==> iterators[i] != iterators[j])
      && (forall i :: 0 <= i < |iterators| ==> iterators[i].valid == valid)
    }

    constructor (iterators: seq<CsvIterator>, valid: string -> bool)
      requires forall i, j :: 0 <= i < j < |iterators| ==> iterators[i] != iterators[j]
      requires forall i :: 0 <= i < |iterators| ==> iterators[i].valid == valid
      ensures Valid() && this.iterators == iterators && this.valid == valid && current == 0
    {
      this.iterators, this.valid, current := iterators, valid, 0;
    }

    /** The records still to be read from reader i on. */
    ghost function RestFrom(i: nat): seq<Line>
      requires i <= |iterators|
      reads iterators
      decreases |iterators| - i
    {
      if i == |iterators| then [] else iterators[i].Rest() + RestFrom(i + 1)
    }

    ghost function Rest(): seq<Line>
      requires Valid()
      reads this, iterators
    {
      RestFrom(current)
    }

    ghost predicate Holds(line: Line)
      reads this, iterators
    {
      current < |iterators| && iterators[current].Holds(line)
    }

    /** Asks the current reader. */
    method Ask() returns (found: bool)
      requires Valid() && current < |iterators|
      modifies iterators
      ensures found ==> old(RestFrom(current)) != [] && iterators[current].Holds(old(RestFrom(current))[0])
                        && RestFrom(current) == old(RestFrom(current))[1..]
      ensures !found ==> RestFrom(current + 1) == old(RestFrom(current))
    {
      ghost var mine, tail := iterators[current].Rest(), RestFrom(current + 1);
      found := iterators[current].HasNext();
      SameTail(current + 1);
      if found {
        assert (mine + tail)[1..] == mine[1..] + tail;
      }
    }

    method HasNext() returns (more: bool)
      requires Valid()
      modifies this, iterators
      ensures Valid()
      ensures more <==> old(Rest()) != []
      ensures more ==> Holds(old(Rest())[0]) && Rest() == old(Rest())[1..]
      ensures !more ==> Rest() == []
    {
      while current < |iterators|
        invariant Valid()
        invariant Rest() == old(Rest())
        decreases |iterators| - current
      {
        var found := Ask();
        if found { return true; }
        current := current + 1;
      }
      more := false;
    }

    /** Readers after the one that advanced still hold what they held. */
    twostate lemma SameTail(i: nat)
      requires i <= |iterators|
      requires forall k :: i <= k < |iterators| ==> unchanged(iterators[k])
      ensures RestFrom(i) == old(RestFrom(i))
      decreases |iterators| - i
    {
      if i < |iterators| { SameTail(i + 1); }
    }

    /** Called when HasNext has said there is a record. */
    method Next() returns (r: Result<RepoFormat, IterError>)
      requires Valid() && current < |iterators|
      ensures forall line :: Holds(line) ==> r == Interpret(line, valid)
    {
      r := iterators[current].Next();
    }
  }

  function Prepend(repos: seq<RepoFormat>, r: Reading): Reading { Reading(repos + r.repos, r.error) }

  lemma ReadStep(repos: seq<RepoFormat>, lines: seq<Line>, valid: string -> bool)
    requires lines != []
    ensures Prepend(repos, Read(lines, valid)) ==
            match Interpret(lines[0], valid)
            case Err(e) => Reading(repos, Some(e))
            case Ok(repo) => Prepend(repos + [repo], Read(lines[1..], valid))
  {
    match Interpret(lines[0], valid)
    case Err(e) => assert repos + [] == repos;
    case Ok(repo) =>
      var rest := Read(lines[1..], valid);
      assert repos + ([repo] + rest.repos) == repos + [repo] + rest.repos;
  }

  /** The loop over an iterator collects the records of every file in order and stops at the first
      one that does not decode or whose URL is refused. */
  method Collect(iter: NestedIterator) returns (repos: seq<RepoFormat>, error: Option<IterError>)
    requires iter.Valid()
    modifies iter, iter.iterators
    ensures Reading(repos, error) == Read(old(iter.Rest()), iter.valid)
  {
    repos, error := [], None;
    ghost var lines := iter.Rest();
    var more := iter.HasNext();
    while more
      invariant iter.Valid()
      invariant more <==> lines != []
      invariant more ==> iter.Holds(lines[0]) && iter.Rest() == lines[1..]
      invariant Prepend(repos, Read(lines, iter.valid)) == Read(old(iter.Rest()), iter.valid)
      decreases |lines|
    {
      ReadStep(repos, lines, iter.valid);
      var r := iter.Next();
      if r.Err? { return repos, Some(r.error); }
      repos := repos + [r.value];
      lines := lines[1..];
      more := iter.HasNext();
    }
  }

  /** A fresh nested iterator has every file's records ahead of it, minus each file's header. */
  lemma {:induction false} FreshRest(iter: NestedIterator, files: seq<seq<Line>>, i: nat)
    requires |files| == |iter.iterators| && i <= |files|
    requires forall k :: 0 <= k < |files| ==> iter.iterators[k].lines == files[k] && !iter.iterators[k].afterHeader
    ensures iter.RestFrom(i) == Concat(Bodies(files[i..]))
    decreases |files| - i
  {
    if i < |files| {
      FreshRest(iter, files, i + 1);
      assert files[i..][1..] == files[i + 1..];
      assert Bodies(files[i..])[1..] == Bodies(files[i + 1..]);
    }
  }

  function Bodies(files: seq<seq<Line>>): (r: seq<seq<Line>>)
    ensures |r| == |files|
  {
    seq(|files|, i requires 0 <= i < |files| => Body(files[i]))
  }
}
