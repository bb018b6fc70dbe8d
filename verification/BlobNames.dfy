/** Object names of the batch pipeline: a second-granular time prefix laid out as
    2006.01.02/150405/ and a file name after it. */
module BlobNames {
  import opened Wrappers
  import opened Text
  import opened Calendar

  const SHARD_METADATA := ".shard_metadata"
  const TRANSFER_STATUS := ".transfer_complete"
  const SHARD_PREFIX := "shard-"
  const PREFIX_LENGTH := 18

  datatype ParseError = ShortBlobName | ParseBlobName

  /** Time.Format with the layout 2006.01.02/150405/ for years 0 to 9999. */
  function Prefix(d: DateTime): string
    requires Valid(d)
  {
    Pad(d.year, 4) + ("." + (Pad(d.month, 2) + ("." + (Pad(d.day, 2) + ("/" +
    (Pad(d.hour, 2) + (Pad(d.minute, 2) + (Pad(d.second, 2) + "/"))))))))
  }

  function GetBlobFilename(filename: string, t: Time): string
    requires Valid(t.civil)
  {
    Prefix(t.civil) + filename
  }

  /** The literal characters and digit positions the layout demands. */
  predicate WellShaped(p: string) {
    && |p| == PREFIX_LENGTH
    && p[4] == '.' && p[7] == '.' && p[10] == '/' && p[17] == '/'
    && AllDigits(p[..4]) && AllDigits(p[5..7]) && AllDigits(p[8..10])
    && AllDigits(p[11..13]) && AllDigits(p[13..15]) && AllDigits(p[15..17])
  }

  function Fields(p: string): DateTime
    requires WellShaped(p)
  {
    DateTime(Value(p[..4]), Value(p[5..7]), Value(p[8..10]),
             Value(p[11..13]), Value(p[13..15]), Value(p[15..17]))
  }

  /** time.Parse range-checks every field, the day against the month and leap year. */
  function ParseBlobFilename(key: string): Result<(Time, string), ParseError> {
    if |key| < PREFIX_LENGTH then Err(ShortBlobName)
    else
      var p := key[..PREFIX_LENGTH];
      if WellShaped(p) && Valid(Fields(p)) then Ok((Time(Fields(p), 0), key[PREFIX_LENGTH..]))
      else Err(ParseBlobName)
  }

  function Truncate(t: Time): Time { t.(nanos := 0) }

  // ---- Shape of a prefix ----

  lemma Two(n: int)
    requires 0 <= n < 100
    ensures |Pad(n, 2)| == 2 && AllDigits(Pad(n, 2)) && Value(Pad(n, 2)) == n
  {
    assert Pow10(2) == 10 * Pow10(1) && Pow10(1) == 10 * Pow10(0);
    PadLength(n, 2);
    PadDigits(n, 2);
  }

  lemma Four(n: int)
    requires 0 <= n < 10000
    ensures |Pad(n, 4)| == 4 && AllDigits(Pad(n, 4)) && Value(Pad(n, 4)) == n
  {
    assert Pow10(4) == 10 * Pow10(3) && Pow10(3) == 10 * Pow10(2)
        && Pow10(2) == 10 * Pow10(1) && Pow10(1) == 10 * Pow10(0);
    PadLength(n, 4);
    PadDigits(n, 4);
  }

  lemma PrefixShape(d: DateTime)
    requires Valid(d)
    ensures WellShaped(Prefix(d)) && Fields(Prefix(d)) == d
  {
    Four(d.year); Two(d.month); Two(d.day); Two(d.hour); Two(d.minute); Two(d.second);
    var p := Prefix(d);
    var clock := Pad(d.hour, 2) + (Pad(d.minute, 2) + (Pad(d.second, 2) + "/"));
    var date := Pad(d.year, 4) + "." + Pad(d.month, 2) + "." + Pad(d.day, 2) + "/";
    assert p == date + clock;
    assert p[..4] == date[..4] == Pad(d.year, 4);
    assert p[5..7] == date[5..7] == Pad(d.month, 2);
    assert p[8..10] == date[8..10] == Pad(d.day, 2);
    assert p[11..13] == clock[..2] == Pad(d.hour, 2);
    assert p[13..15] == clock[2..4] == Pad(d.minute, 2);
    assert p[15..17] == clock[4..6] == Pad(d.second, 2);
  }

  lemma ShapePrefix(p: string)
    requires WellShaped(p) && Valid(Fields(p))
    ensures Prefix(Fields(p)) == p
  {
    PadValue(p[..4]); PadValue(p[5..7]); PadValue(p[8..10]);
    PadValue(p[11..13]); PadValue(p[13..15]); PadValue(p[15..17]);
  }

  // ---- Main results ----

  /** Parsing returns the time, truncated to the second, and the file name. */
  lemma ParseUndoesFormat(filename: string, t: Time)
    requires Valid(t.civil)
    ensures ParseBlobFilename(GetBlobFilename(filename, t)) == Ok((Truncate(t), filename))
  {
    PrefixShape(t.civil);
    var key := GetBlobFilename(filename, t);
    assert key[..PREFIX_LENGTH] == Prefix(t.civil) && key[PREFIX_LENGTH..] == filename;
  }

  /** Formatting returns every key that parses: names and (second, file) pairs are in bijection. */
  lemma FormatUndoesParse(key: string)
    requires ParseBlobFilename(key).Ok?
    ensures var (t, filename) := ParseBlobFilename(key).value;
            Valid(t.civil) && t.nanos == 0 && GetBlobFilename(filename, t) == key
  {
    ShapePrefix(key[..PREFIX_LENGTH]);
    assert key == key[..PREFIX_LENGTH] + key[PREFIX_LENGTH..];
  }

  /** One field of the layout: compare it, and fall through to the rest when it ties. */
  lemma FieldLess(a: string, b: string, x: string, y: string)
    requires AllDigits(a) && AllDigits(b) && |a| == |b|
    ensures Less(a + x, b + y) <==> Value(a) < Value(b) || (Value(a) == Value(b) && Less(x, y))
  {
    LessFields(a, x, b, y);
    LessDigits(a, b);
  }

  lemma SeparatorLess(c: string, x: string, y: string)
    ensures Less(c + x, c + y) <==> Less(x, y)
  {
    LessFields(c, x, c, y);
    LessTotal(c, c);
  }

  lemma PrefixOrder(a: DateTime, b: DateTime)
    requires Valid(a) && Valid(b)
    ensures Less(Prefix(a), Prefix(b)) <==> FieldsBefore(a, b)
  {
    Four(a.year); Two(a.month); Two(a.day); Two(a.hour); Two(a.minute); Two(a.second);
    Four(b.year); Two(b.month); Two(b.day); Two(b.hour); Two(b.minute); Two(b.second);
    LessTotal("/", "/");
    var s6, t6 := Pad(a.second, 2) + "/", Pad(b.second, 2) + "/";
    FieldLess(Pad(a.second, 2), Pad(b.second, 2), "/", "/");
    var s5, t5 := Pad(a.minute, 2) + s6, Pad(b.minute, 2) + t6;
    FieldLess(Pad(a.minute, 2), Pad(b.minute, 2), s6, t6);
    var s4, t4 := Pad(a.hour, 2) + s5, Pad(b.hour, 2) + t5;
    FieldLess(Pad(a.hour, 2), Pad(b.hour, 2), s5, t5);
    SeparatorLess("/", s4, t4);
    var s3, t3 := Pad(a.day, 2) + ("/" + s4), Pad(b.day, 2) + ("/" + t4);
    FieldLess(Pad(a.day, 2), Pad(b.day, 2), "/" + s4, "/" + t4);
    SeparatorLess(".", s3, t3);
    var s2, t2 := Pad(a.month, 2) + ("." + s3), Pad(b.month, 2) + ("." + t3);
    FieldLess(Pad(a.month, 2), Pad(b.month, 2), "." + s3, "." + t3);
    SeparatorLess(".", s2, t2);
    FieldLess(Pad(a.year, 4), Pad(b.year, 4), "." + s2, "." + t2);
  }

  /** Sorting keys of different seconds by name sorts them by time, whatever files they name. */
  lemma NameOrderIsTimeOrder(f: string, s: Time, g: string, t: Time)
    requires Valid(s.civil) && Valid(t.civil) && Instant(s.civil) != Instant(t.civil)
    ensures Less(GetBlobFilename(f, s), GetBlobFilename(g, t)) <==> Instant(s.civil) < Instant(t.civil)
  {
    PrefixShape(s.civil);
    PrefixShape(t.civil);
    LessFields(Prefix(s.civil), f, Prefix(t.civil), g);
    PrefixOrder(s.civil, t.civil);
    FieldOrderIsTimeOrder(s.civil, t.civil);
  }

  // ---- Shard result names ----

  /** fmt's %07d: the width counts the sign. */
  function ShardName(n: int): string {
    SHARD_PREFIX + (if n < 0 then "-" + Pad(-n, 6) else Pad(n, 7))
  }

  function ResultFilename(t: Time, shard: int): string
    requires Valid(t.civil)
  {
    GetBlobFilename(ShardName(shard), t)
  }

  lemma ShardNameInjective(m: int, n: int)
    requires ShardName(m) == ShardName(n)
    ensures m == n
  {
    assert ShardName(m)[6..] == ShardName(n)[6..];
    PadDigits(if m < 0 then -m else m, if m < 0 then 6 else 7);
    PadDigits(if n < 0 then -n else n, if n < 0 then 6 else 7);
    var x, y := ShardName(m)[6..], ShardName(n)[6..];
    assert x == if m < 0 then "-" + Pad(-m, 6) else Pad(m, 7);
    assert y == if n < 0 then "-" + Pad(-n, 6) else Pad(n, 7);
    assert m < 0 <==> x[0] == '-';
    assert n < 0 <==> y[0] == '-';
    if m < 0 {
      assert x[1..] == Pad(-m, 6) && y[1..] == Pad(-n, 6);
    }
  }

  /** Two result names are equal exactly when the second and the shard number are. */
  lemma ResultFilenameInjective(s: Time, m: int, t: Time, n: int)
    requires Valid(s.civil) && Valid(t.civil)
    ensures ResultFilename(s, m) == ResultFilename(t, n) <==> s.civil == t.civil && m == n
  {
    ParseUndoesFormat(ShardName(m), s);
    ParseUndoesFormat(ShardName(n), t);
    if ShardName(m) == ShardName(n) { ShardNameInjective(m, n); }
  }
}
