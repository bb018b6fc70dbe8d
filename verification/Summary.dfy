/** The bucket summary: one row per job second, computed by a single pass over the
    object keys into a map of heap-allocated rows. */
module Summary {
  import opened Wrappers
  import opened Text
  import opened Calendar
  import opened BlobNames

  /** What an object holds: shard metadata that parses, or any other bytes. A metadata
      object that cannot be read or parsed is one that holds other bytes. */
  datatype Content = Metadata(numShard: int, shardLoc: string) | Bytes(bytes: string)

  type Bucket = map<string, Content>

  datatype SummaryError = BadKey(parse: ParseError) | UnrecognizedFile(key: string) | UnreadableMetadata(key: string)

  // ---- Declarative summary ----

  datatype Kind = ShardFile | StatusFile | MetadataFile | OtherFile

  function KindOf(filename: string): Kind {
    if HasPrefix(filename, SHARD_PREFIX) then ShardFile
    else if filename == TRANSFER_STATUS then StatusFile
    else if filename == SHARD_METADATA then MetadataFile
    else OtherFile
  }

  predicate Parses(key: string) { ParseBlobFilename(key).Ok? }

  function TimeOf(key: string): (t: DateTime)
    requires Parses(key)
    ensures Valid(t)
  {
    ParseBlobFilename(key).value.0.civil
  }

  function FileOf(key: string): string
    requires Parses(key)
  {
    ParseBlobFilename(key).value.1
  }

  predicate Recognised(key: string, content: Content) {
    && Parses(key)
    && KindOf(FileOf(key)) != OtherFile
    && (KindOf(FileOf(key)) == MetadataFile ==> content.Metadata?)
  }

  ghost predicate Summarisable(b: Bucket) { forall key :: key in b ==> Recognised(key, b[key]) }

  function MetadataKey(t: DateTime): string
    requires Valid(t)
  {
    GetBlobFilename(SHARD_METADATA, Time(t, 0))
  }

  function StatusKey(t: DateTime): string
    requires Valid(t)
  {
    GetBlobFilename(TRANSFER_STATUS, Time(t, 0))
  }

  datatype Row = Row(expected: int, created: nat, transferred: bool, metadata: Option<Content>)

  const NO_ROW := Row(0, 0, false, None)

  predicate IsShardOf(key: string, t: DateTime) {
    Parses(key) && TimeOf(key) == t && KindOf(FileOf(key)) == ShardFile
  }

  ghost function ShardFiles(keys: set<string>, t: DateTime): set<string> {
    set key | key in keys && IsShardOf(key, t)
  }

  ghost function RowOf(keys: set<string>, b: Bucket, t: DateTime): Row
    requires Valid(t) && keys <= b.Keys
  {
    var hasMetadata := MetadataKey(t) in keys;
    Row(if hasMetadata && b[MetadataKey(t)].Metadata? then b[MetadataKey(t)].numShard else 0,
        |ShardFiles(keys, t)|,
        StatusKey(t) in keys,
        if hasMetadata then Some(b[MetadataKey(t)]) else None)
  }

  ghost function Times(keys: set<string>): set<DateTime> {
    set key | key in keys && Parses(key) :: TimeOf(key)
  }

  ghost function Rows(keys: set<string>, b: Bucket): map<DateTime, Row>
    requires keys <= b.Keys
  {
    map t | t in Times(keys) && Valid(t) :: RowOf(keys, b, t)
  }

  /** The summary of a bucket as a function of its contents alone. */
  ghost function Summarise(b: Bucket): map<DateTime, Row> { Rows(b.Keys, b) }

  /** ShardSummary.IsCompleted, over reals. */
  predicate IsCompleted(row: Row, threshold: real) {
    row.expected > 0 && row.created as real / row.expected as real >= threshold
  }

  // ---- One key at a time ----

  /** A file's name and second determine its key. */
  lemma KeyOf(key: string)
    requires Parses(key)
    ensures key == GetBlobFilename(FileOf(key), Time(TimeOf(key), 0))
  {
    FormatUndoesParse(key);
  }

  lemma SpecialKeys(t: DateTime)
    requires Valid(t)
    ensures Parses(MetadataKey(t)) && TimeOf(MetadataKey(t)) == t && FileOf(MetadataKey(t)) == SHARD_METADATA
    ensures Parses(StatusKey(t)) && TimeOf(StatusKey(t)) == t && FileOf(StatusKey(t)) == TRANSFER_STATUS
  {
    ParseUndoesFormat(SHARD_METADATA, Time(t, 0));
    ParseUndoesFormat(TRANSFER_STATUS, Time(t, 0));
  }

  lemma KindsOfNames()
    ensures KindOf(SHARD_METADATA) == MetadataFile && KindOf(TRANSFER_STATUS) == StatusFile
  {
    assert SHARD_METADATA[0] == '.' && TRANSFER_STATUS[0] == '.' && SHARD_PREFIX[0] == 's';
    assert SHARD_METADATA[1] == 's' && TRANSFER_STATUS[1] == 't';
  }

  /** The row of a second that no key mentions is empty. */
  lemma AbsentRow(keys: set<string>, b: Bucket, t: DateTime)
    requires Valid(t) && keys <= b.Keys && t !in Times(keys)
    ensures RowOf(keys, b, t) == NO_ROW
  {
    SpecialKeys(t);
    assert ShardFiles(keys, t) == {};
  }

  function Update(row: Row, kind: Kind, content: Content): Row {
    match kind
    case ShardFile => row.(created := row.created + 1)
    case StatusFile => row.(transferred := true)
    case MetadataFile => row.(expected := if content.Metadata? then content.numShard else 0, metadata := Some(content))
    case OtherFile => row
  }

  lemma ShardFilesStep(keys: set<string>, key: string, t: DateTime)
    requires key !in keys
    ensures |ShardFiles(keys + {key}, t)| == |ShardFiles(keys, t)| + if IsShardOf(key, t) then 1 else 0
  {
    if IsShardOf(key, t) {
      assert ShardFiles(keys + {key}, t) == ShardFiles(keys, t) + {key};
    } else {
      assert ShardFiles(keys + {key}, t) == ShardFiles(keys, t);
    }
  }

  /** A key is that of a file at a second exactly when it parses to both. */
  lemma KeyIs(key: string, filename: string, t: DateTime)
    requires Valid(t) && Parses(key)
    ensures key == GetBlobFilename(filename, Time(t, 0)) <==> TimeOf(key) == t && FileOf(key) == filename
  {
    ParseUndoesFormat(filename, Time(t, 0));
    KeyOf(key);
  }

  /** Which keys are a second's metadata file and its marker. */
  lemma SpecialKeysAre(key: string, t: DateTime)
    requires Valid(t) && Parses(key)
    ensures key == MetadataKey(t) <==> TimeOf(key) == t && KindOf(FileOf(key)) == MetadataFile
    ensures key == StatusKey(t) <==> TimeOf(key) == t && KindOf(FileOf(key)) == StatusFile
  {
    KindsOfNames();
    KeyIs(key, SHARD_METADATA, t);
    KeyIs(key, TRANSFER_STATUS, t);
  }

  /** Adding one key changes the row of its own second, by its kind, and no other. */
  lemma RowStep(keys: set<string>, key: string, b: Bucket, t: DateTime)
    requires Valid(t) && keys <= b.Keys && key in b && key !in keys && Recognised(key, b[key])
    ensures RowOf(keys + {key}, b, t) ==
            if t == TimeOf(key) then Update(RowOf(keys, b, t), KindOf(FileOf(key)), b[key]) else RowOf(keys, b, t)
  {
    SpecialKeysAre(key, t);
    ShardFilesStep(keys, key, t);
  }

  // ---- The pass over the keys ----

  ghost function Listed(keys: seq<string>): set<string> { set key | key in keys }

  class ShardSummary {
    const creationTime: DateTime
    var shardMetadata: Option<Content>
    var shardsExpected: int
    var shardsCreated: nat
    var isTransferred: bool

    constructor (t: DateTime)
      ensures creationTime == t && View() == NO_ROW
    {
      creationTime := t;
      shardMetadata, shardsExpected, shardsCreated, isTransferred := None, 0, 0, false;
    }

    function View(): Row
      reads this
    {
      Row(shardsExpected, shardsCreated, isTransferred, shardMetadata)
    }

    method Record(kind: Kind, content: Content)
      requires kind == MetadataFile ==> content.Metadata?
      modifies this
      ensures View() == Update(old(View()), kind, content)
    {
      match kind {
        case ShardFile => shardsCreated := shardsCreated + 1;
        case StatusFile => isTransferred := true;
        case MetadataFile =>
          shardsExpected := content.numShard;
          shardMetadata := Some(content);
        case OtherFile =>
      }
    }
  }

  class BucketSummary {
    var shards: map<DateTime, ShardSummary>

    /** Each second has its own row object, stamped with that second. */
    ghost predicate Valid()
      reads this
    {
      && (forall t :: t in shards ==> shards[t].creationTime == t)
      && (forall s, t :: s in shards && t in shards && s != t ==> shards[s] != shards[t])
    }

    ghost function View(): map<DateTime, Row>
      reads this, shards.Values
    {
      map t | t in shards :: shards[t].View()
    }

    constructor ()
      ensures shards == map[]
    {
      shards := map[];
    }

    method GetOrCreate(t: DateTime) returns (s: ShardSummary)
      requires Valid()
      modifies this
      ensures Valid() && t in shards && s == shards[t]
      ensures t in old(shards) ==> shards == old(shards)
      ensures t !in old(shards) ==> fresh(s) && shards == old(shards)[t := s] && s.View() == NO_ROW
    {
      if t !in shards {
        s := new ShardSummary(t);
        shards := shards[t := s];
      }
      s := shards[t];
    }

    /** Every row once, in whatever order the map is walked. */
    method Shards() returns (list: seq<ShardSummary>)
      requires Valid()
      ensures forall i :: 0 <= i < |list| ==> list[i].creationTime in shards && shards[list[i].creationTime] == list[i]
      ensures forall i, j :: 0 <= i < j < |list| ==> list[i].creationTime != list[j].creationTime
      ensures forall t :: t in shards ==> shards[t] in list
    {
      list := [];
      var left := shards.Keys;
      while left != {}
        invariant left <= shards.Keys
        invariant forall i :: 0 <= i < |list| ==>
                    list[i].creationTime in shards.Keys - left && shards[list[i].creationTime] == list[i]
        invariant forall i, j :: 0 <= i < j < |list| ==> list[i].creationTime != list[j].creationTime
        invariant forall t :: t in shards && t !in left ==> shards[t] in list
        decreases |left|
      {
        var t :| t in left;
        left := left - {t};
        list := list + [shards[t]];
      }
    }
  }

  function RowAt(rows: map<DateTime, Row>, t: DateTime): Row { if t in rows then rows[t] else NO_ROW }

  lemma TimesStep(keys: set<string>, key: string)
    requires Parses(key)
    ensures Times(keys + {key}) == Times(keys) + {TimeOf(key)}
  {
  }

  lemma RowsStepAt(done: set<string>, key: string, b: Bucket, s: DateTime)
    requires done <= b.Keys && key in b && key !in done && Recognised(key, b[key]) && Valid(s)
    ensures RowOf(done + {key}, b, s) ==
            if s == TimeOf(key) then Update(RowAt(Rows(done, b), s), KindOf(FileOf(key)), b[key])
            else RowOf(done, b, s)
  {
    RowStep(done, key, b, s);
    if s !in Times(done) { AbsentRow(done, b, s); }
  }

  lemma RowsStep(done: set<string>, key: string, b: Bucket)
    requires done <= b.Keys && key in b && key !in done && Recognised(key, b[key])
    ensures var t := TimeOf(key);
            Rows(done + {key}, b) ==
            Rows(done, b)[t := Update(RowAt(Rows(done, b), t), KindOf(FileOf(key)), b[key])]
  {
    var t := TimeOf(key);
    var before, after := Rows(done, b), Rows(done + {key}, b);
    var row := Update(RowAt(before, t), KindOf(FileOf(key)), b[key]);
    TimesStep(done, key);
    assert after.Keys == before.Keys + {t};
    forall s | s in after ensures after[s] == before[t := row][s] {
      RowsStepAt(done, key, b, s);
    }
  }

  /** Count one recognised file in the row of its second. */
  method Count(summary: BucketSummary, t: DateTime, kind: Kind, content: Content)
    requires summary.Valid()
    requires kind == MetadataFile ==> content.Metadata?
    modifies summary, summary.shards.Values
    ensures summary.Valid()
    ensures summary.View() == old(summary.View())[t := Update(RowAt(old(summary.View()), t), kind, content)]
    ensures forall u :: u in summary.shards ==>
              (u in old(summary.shards) && summary.shards[u] == old(summary.shards[u])) || fresh(summary.shards[u])
  {
    var s := summary.GetOrCreate(t);
    s.Record(kind, content);
  }

  /** The summary so far is that of the keys done. */
  ghost predicate Covers(summary: BucketSummary, done: set<string>, b: Bucket)
    reads summary, summary.shards.Values
  {
    done <= b.Keys && summary.Valid() && summary.View() == Rows(done, b)
  }

  /** One key of the loop: counted, or the error it ends with. */
  method CountKey(summary: BucketSummary, b: Bucket, key: string, ghost done: set<string>)
    returns (error: Option<SummaryError>)
    requires Covers(summary, done, b) && key in b && key !in done
    modifies summary, summary.shards.Values
    ensures error == None <==> Recognised(key, b[key])
    ensures error == None ==> Covers(summary, done + {key}, b)
    ensures forall u :: u in summary.shards ==>
              (u in old(summary.shards) && summary.shards[u] == old(summary.shards[u])) || fresh(summary.shards[u])
  {
    var parsed := ParseBlobFilename(key);
    if parsed.Err? { return Some(BadKey(parsed.error)); }
    var (time, filename) := parsed.value;
    var kind := KindOf(filename);
    if kind == OtherFile { return Some(UnrecognizedFile(key)); }
    if kind == MetadataFile && !b[key].Metadata? { return Some(UnreadableMetadata(key)); }
    RowsStep(done, key, b);
    Count(summary, time.civil, kind, b[key]);
    error := None;
  }

  lemma ListedStep(keys: seq<string>, i: nat)
    requires i < |keys| && forall j, k :: 0 <= j < k < |keys| ==> keys[j] != keys[k]
    ensures keys[i] !in Listed(keys[..i]) && Listed(keys[..i + 1]) == Listed(keys[..i]) + {keys[i]}
  {
  }

  /** The summary is a function of the bucket, whatever order its keys are listed in; it
      fails exactly when some key is malformed or unrecognised or some metadata unreadable. */
  method GetBucketSummary(b: Bucket, keys: seq<string>) returns (r: Result<BucketSummary, SummaryError>)
    requires forall key :: key in keys <==> key in b
    requires forall i, j :: 0 <= i < j < |keys| ==> keys[i] != keys[j]
    ensures r.Ok? <==> Summarisable(b)
    ensures r.Ok? ==> fresh(r.value) && r.value.Valid() && r.value.View() == Summarise(b)
  {
    var summary := new BucketSummary();
    var i := 0;
    while i < |keys|
      invariant 0 <= i <= |keys|
      invariant fresh(summary) && forall t :: t in summary.shards ==> fresh(summary.shards[t])
      invariant Covers(summary, Listed(keys[..i]), b)
      invariant forall key :: key in keys[..i] ==> Recognised(key, b[key])
    {
      var key := keys[i];
      ListedStep(keys, i);
      var error := CountKey(summary, b, key, Listed(keys[..i]));
      if error.Some? { return Err(error.value); }
      i := i + 1;
    }
    assert keys[..i] == keys;
    assert Listed(keys) == b.Keys;
    r := Ok(summary);
  }
}
