/** Strings as the Go standard library treats them: zero-padded decimals,
    byte-wise order, and splitting and joining on a separator. */
module Text {

  // ---- Decimal numbers ----

  predicate IsDigit(c: char) { '0' <= c <= '9' }

  predicate AllDigits(s: string) { forall i :: 0 <= i < |s| ==> IsDigit(s[i]) }

  function DigitChar(d: nat): (c: char)
    requires d < 10
    ensures IsDigit(c) && (c as int) - ('0' as int) == d
  {
    ('0' as int + d) as char
  }

  /** n in decimal, padded with zeros on the left to at least `width` characters. */
  function Pad(n: nat, width: nat): string
    decreases n + width
  {
    if n < 10 && width <= 1 then [DigitChar(n)]
    else Pad(n / 10, if width > 0 then width - 1 else 0) + [DigitChar(n % 10)]
  }

  /** The number a string of digits denotes. */
  function Value(s: string): nat
    requires AllDigits(s)
  {
    if s == [] then 0
    else Value(s[..|s| - 1]) * 10 + (s[|s| - 1] as int - '0' as int)
  }

  function Pow10(k: nat): (p: nat)
    ensures p >= 1
  {
    if k == 0 then 1 else 10 * Pow10(k - 1)
  }

  lemma {:induction false} PadDigits(n: nat, width: nat)
    ensures AllDigits(Pad(n, width)) && Value(Pad(n, width)) == n
    ensures |Pad(n, width)| >= 1 && |Pad(n, width)| >= width
    decreases n + width
  {
    if n < 10 && width <= 1 {
      assert Value([DigitChar(n)]) == Value([DigitChar(n)][..0]) * 10 + n;
    } else {
      var w := if width > 0 then width - 1 else 0;
      PadDigits(n / 10, w);
      var s := Pad(n, width);
      assert s[..|s| - 1] == Pad(n / 10, w);
    }
  }

  lemma {:induction false} PadLength(n: nat, width: nat)
    requires width >= 1 && n < Pow10(width)
    ensures |Pad(n, width)| == width
  {
    if width == 1 {
      assert Pow10(1) == 10 * Pow10(0);
    } else {
      PadLength(n / 10, width - 1);
    }
  }

  /** Padding a digit string's own value to its own length gives it back. */
  lemma {:induction false} PadValue(s: string)
    requires AllDigits(s) && |s| >= 1
    ensures Pad(Value(s), |s|) == s && Value(s) < Pow10(|s|)
  {
    var front, d := s[..|s| - 1], s[|s| - 1] as int - '0' as int;
    assert DigitChar(d) == s[|s| - 1];
    assert s == front + [DigitChar(d)];
    if |s| == 1 {
      assert Value(front) == 0;
      assert Pow10(1) == 10 * Pow10(0);
    } else {
      PadValue(front);
      assert Value(s) / 10 == Value(front) && Value(s) % 10 == d;
    }
  }

  // ---- Byte-wise order ----

  predicate Less(a: string, b: string) {
    b != [] && (a == [] || a[0] < b[0] || (a[0] == b[0] && Less(a[1..], b[1..])))
  }

  lemma {:induction false} LessTotal(a: string, b: string)
    ensures a == b || Less(a, b) || Less(b, a)
    ensures !(Less(a, b) && Less(b, a)) && !Less(a, a)
  {
    if a != [] && b != [] {
      LessTotal(a[1..], b[1..]);
      LessTotal(a[1..], a[1..]);
      if a[0] == b[0] && a[1..] == b[1..] {
        assert a == [a[0]] + a[1..] == [b[0]] + b[1..] == b;
      }
    } else if a != [] {
      LessTotal(a[1..], a[1..]);
    }
  }

  lemma {:induction false} LessTransitive(a: string, b: string, c: string)
    requires Less(a, b) && Less(b, c)
    ensures Less(a, c)
  {
    if a != [] && a[0] == b[0] == c[0] {
      LessTransitive(a[1..], b[1..], c[1..]);
    }
  }

  /** Two strings that start with equally long fields compare field by field. */
  lemma {:induction false} LessFields(a: string, x: string, b: string, y: string)
    requires |a| == |b|
    ensures Less(a + x, b + y) <==> Less(a, b) || (a == b && Less(x, y))
  {
    if a == [] {
      assert a + x == x && b + y == y;
    } else {
      LessFields(a[1..], x, b[1..], y);
      assert (a + x)[1..] == a[1..] + x && (b + y)[1..] == b[1..] + y;
      assert a == [a[0]] + a[1..] && b == [b[0]] + b[1..];
    }
  }

  /** Digit strings of one length compare as the numbers they denote. */
  lemma {:induction false} LessDigits(a: string, b: string)
    requires AllDigits(a) && AllDigits(b) && |a| == |b|
    ensures Less(a, b) <==> Value(a) < Value(b)
    ensures a == b <==> Value(a) == Value(b)
  {
    if a != [] {
      var n := |a| - 1;
      LessDigits(a[..n], b[..n]);
      assert a == a[..n] + [a[n]] && b == b[..n] + [b[n]];
      LessFields(a[..n], [a[n]], b[..n], [b[n]]);
    }
  }

  // ---- Splitting and joining ----

  predicate Free(s: string, c: char) { forall i :: 0 <= i < |s| ==> s[i] != c }

  /** strings.Join with a one-character separator. */
  function Join(parts: seq<string>, c: char): string {
    if |parts| == 0 then []
    else if |parts| == 1 then parts[0]
    else parts[0] + [c] + Join(parts[1..], c)
  }

  /** strings.Split with a one-character separator. */
  function Split(s: string, c: char): (parts: seq<string>)
    ensures |parts| >= 1
  {
    if s == [] then [[]]
    else if s[0] == c then [[]] + Split(s[1..], c)
    else
      var rest := Split(s[1..], c);
      [[s[0]] + rest[0]] + rest[1..]
  }

  lemma {:induction false} SplitFirst(a: string, s: string, c: char)
    requires Free(a, c)
    ensures Split(a + [c] + s, c) == [a] + Split(s, c)
  {
    var t := a + [c] + s;
    if a == [] {
      assert t[1..] == s;
    } else {
      SplitFirst(a[1..], s, c);
      assert t[1..] == a[1..] + [c] + s;
      assert a == [a[0]] + a[1..];
    }
  }

  lemma {:induction false} SplitWhole(a: string, c: char)
    requires Free(a, c)
    ensures Split(a, c) == [a]
  {
    if a != [] {
      SplitWhole(a[1..], c);
      assert a == [a[0]] + a[1..];
    }
  }

  /** Splitting undoes joining when no part holds the separator. */
  lemma {:induction false} SplitJoin(parts: seq<string>, c: char)
    requires |parts| >= 1 && forall i :: 0 <= i < |parts| ==> Free(parts[i], c)
    ensures Split(Join(parts, c), c) == parts
  {
    if |parts| == 1 {
      SplitWhole(parts[0], c);
    } else {
      SplitJoin(parts[1..], c);
      SplitFirst(parts[0], Join(parts[1..], c), c);
      assert parts == [parts[0]] + parts[1..];
    }
  }

  /** No part of a split holds the separator. */
  lemma {:induction false} SplitParts(s: string, c: char)
    ensures forall i :: 0 <= i < |Split(s, c)| ==> Free(Split(s, c)[i], c)
  {
    if s != [] {
      SplitParts(s[1..], c);
      var rest := Split(s[1..], c);
      assert Free(rest[0], c);
      forall i | 0 <= i < |Split(s, c)| ensures Free(Split(s, c)[i], c) {
        if i > 0 { assert Free(rest[if s[0] == c then i - 1 else i], c); }
      }
    }
  }

  /** strings.HasPrefix. */
  predicate HasPrefix(s: string, p: string) { |p| <= |s| && s[..|p|] == p }

  // ---- Commit hashes ----

  predicate IsHex(c: char) { IsDigit(c) || 'a' <= c <= 'f' || 'A' <= c <= 'F' }

  predicate IsHash(s: string) { |s| == 40 && forall i :: 0 <= i < |s| ==> IsHex(s[i]) }

  // ---- Letter case ----

  function LowerChar(c: char): char {
    if 'A' <= c <= 'Z' then (c as int + 32) as char else c
  }

  /** strings.ToLower, on ASCII. */
  function ToLower(s: string): (r: string)
    ensures |r| == |s| && forall i :: 0 <= i < |s| ==> r[i] == LowerChar(s[i])
  {
    seq(|s|, i requires 0 <= i < |s| => LowerChar(s[i]))
  }

  lemma LowerTwice(s: string)
    ensures ToLower(ToLower(s)) == ToLower(s)
  {
  }
}
