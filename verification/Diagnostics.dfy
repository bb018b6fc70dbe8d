/** Which diagnostics of the workflow parser still reject a workflow: all but those about a reviewed key
    that the YAML, at the diagnostic's position, sets to its reviewed value. */
module Diagnostics {
  import opened Wrappers
  import opened Text

  // ---- YAML documents ----

  /** Empty is the kind of a node nothing was read into. */
  datatype Kind = Empty | DocumentNode | SequenceNode | MappingNode | ScalarNode | AliasNode

  /** A mapping's content alternates keys and values. */
  datatype Node = Node(kind: Kind, line: int, column: int, value: string, content: seq<Node>)

  /** A key node of a mapping with its value node. */
  datatype Entry = Entry(key: Node, value: Node)

  function Pairs(content: seq<Node>): seq<Entry> {
    if |content| < 2 then [] else [Entry(content[0], content[1])] + Pairs(content[2..])
  }

  /** Every mapping entry under a node, a mapping's own before those further down. */
  function Entries(n: Node): seq<Entry>
    decreases n
  {
    (if n.kind == MappingNode then Pairs(n.content) else []) + EntriesUnder(n.content)
  }

  function EntriesUnder(nodes: seq<Node>): seq<Entry>
    decreases nodes
  {
    if nodes == [] then [] else Entries(nodes[0]) + EntriesUnder(nodes[1..])
  }

  predicate At(e: Entry, line: int, column: int, key: string) {
    e.key.line == line && e.key.column == column && e.key.value == key
  }

  function FirstAt(entries: seq<Entry>, line: int, column: int, key: string): Option<Node> {
    if entries == [] then None
    else if At(entries[0], line, column, key) then Some(entries[0].value)
    else FirstAt(entries[1..], line, column, key)
  }

  lemma {:induction false} FirstAtConcat(a: seq<Entry>, b: seq<Entry>, line: int, column: int, key: string)
    ensures var first := FirstAt(a, line, column, key);
      FirstAt(a + b, line, column, key) == if first.Some? then first else FirstAt(b, line, column, key)
  {
    if a == [] {
      assert a + b == b;
    } else {
      FirstAtConcat(a[1..], b, line, column, key);
      assert (a + b)[1..] == a[1..] + b;
    }
  }

  /** The search is the first entry of the whole document, in that order, with the key at the position. */
  method ValueAt(n: Node, line: int, column: int, key: string) returns (r: Option<Node>)
    ensures r == FirstAt(Entries(n), line, column, key)
    decreases n
  {
    ghost var own := if n.kind == MappingNode then Pairs(n.content) else [];
    FirstAtConcat(own, EntriesUnder(n.content), line, column, key);
    if n.kind == MappingNode {
      var i := 0;
      while i + 1 < |n.content|
        invariant i <= |n.content|
        invariant FirstAt(Pairs(n.content[i..]), line, column, key) == FirstAt(own, line, column, key)
      {
        var k := n.content[i];
        assert n.content[i..][0] == k && n.content[i..][1] == n.content[i + 1] && n.content[i..][2..] == n.content[i + 2..];
        if k.line == line && k.column == column && k.value == key { return Some(n.content[i + 1]); }
        i := i + 2;
      }
    }
    for j := 0 to |n.content|
      invariant FirstAt(own, line, column, key) == None
      invariant FirstAt(EntriesUnder(n.content[j..]), line, column, key)
             == FirstAt(EntriesUnder(n.content), line, column, key)
    {
      var c := n.content[j];
      assert n.content[j..][0] == c && n.content[j..][1..] == n.content[j + 1..];
      FirstAtConcat(Entries(c), EntriesUnder(n.content[j + 1..]), line, column, key);
      var v := ValueAt(c, line, column, key);
      if v.Some? { return v; }
    }
    r := None;
  }

  /** A value is found exactly when some entry has the key at the position; where all such entries have
      one value, it is that value. */
  lemma {:induction false} FoundIff(entries: seq<Entry>, line: int, column: int, key: string)
    ensures var r := FirstAt(entries, line, column, key);
      && (r.Some? <==> exists e :: e in entries && At(e, line, column, key))
      && (r.Some? ==> exists e :: e in entries && At(e, line, column, key) && e.value == r.value)
  {
    if entries != [] {
      FoundIff(entries[1..], line, column, key);
      assert entries == [entries[0]] + entries[1..];
    }
  }

  // ---- The diagnostic's message ----

  datatype Diagnostic = Diagnostic(kind: string, message: string, line: int, column: int)

  /** The longest prefix without a double quote. */
  function Run(s: string): (r: string)
    ensures HasPrefix(s, r) && Free(r, '"') && (|r| < |s| ==> s[|r|] == '"')
  {
    if s == [] || s[0] == '"' then [] else [s[0]] + Run(s[1..])
  }

  function After(s: string, p: string): Option<string> {
    if HasPrefix(s, p) then Some(s[|p|..]) else None
  }

  /** A non-empty quoted text and what follows it and its closing quote with `next`. */
  function Quoted(s: string, next: string): Option<(string, string)> {
    var text := Run(s);
    if text == [] then None
    else
      match After(s[|text|..], "\"" + next)
      case None => None
      case Some(rest) => Some((text, rest))
  }

  /** Matches `start`, a quoted text, `mid`, a quoted text and `end`, where each quotation's opening
      quote ends the fixed text before it. */
  function TwoQuoted(message: string, start: string, mid: string, end: string): Option<(string, string)> {
    match After(message, start)
    case None => None
    case Some(s) =>
      match Quoted(s, mid)
      case None => None
      case Some((key, t)) =>
        match Quoted(t, end)
        case None => None
        case Some((section, _)) => Some((key, section))
  }

  /** unexpectedKeyRE: the key and the section of an unexpected-key message. */
  function UnexpectedKey(message: string): Option<(string, string)> {
    TwoQuoted(message, "unexpected key \"", " for \"", " section")
  }

  lemma {:induction false} RunIs(s: string, text: string)
    requires HasPrefix(s, text) && Free(text, '"') && |text| < |s| && s[|text|] == '"'
    ensures Run(s) == text
  {
  }

  lemma QuotedIff(s: string, next: string, text: string, rest: string)
    ensures Quoted(s, next) == Some((text, rest)) <==>
              text != [] && Free(text, '"') && s == text + "\"" + next + rest
  {
    if text != [] && Free(text, '"') && s == text + "\"" + next + rest {
      RunIs(s, text);
      assert s[|text|..] == "\"" + next + rest;
    }
    if Quoted(s, next) == Some((text, rest)) {
      assert s == text + s[|text|..];
      assert s[|text|..] == "\"" + next + rest;
    }
  }

  function Whole(start: string, key: string, mid: string, section: string, end: string): string {
    start + (key + "\"" + mid) + (section + "\"" + end)
  }

  lemma PrefixThen(s: string, p: string, q: string)
    requires HasPrefix(s, p)
    ensures HasPrefix(s, p + q) <==> HasPrefix(s[|p|..], q)
    ensures HasPrefix(s, p + q) ==> s[|p + q|..] == s[|p|..][|q|..]
  {
    if HasPrefix(s, p + q) {
      assert s[|p|..][..|q|] == s[..|p + q|][|p|..] == q;
    }
    if HasPrefix(s[|p|..], q) {
      assert s[..|p + q|] == s[..|p|] + s[|p|..][..|q|];
    }
  }

  lemma TwoQuotedMatches(message: string, start: string, key: string, mid: string, section: string, end: string)
    requires key != [] && Free(key, '"') && section != [] && Free(section, '"')
    requires HasPrefix(message, Whole(start, key, mid, section, end))
    ensures TwoQuoted(message, start, mid, end) == Some((key, section))
  {
    var first, second := key + "\"" + mid, section + "\"" + end;
    PrefixThen(message, start + first, second);
    PrefixThen(message, start, first);
    var s := message[|start|..];
    var t := s[|first|..];
    assert s == first + t && t == second + t[|second|..];
    QuotedIff(s, mid, key, t);
    QuotedIff(t, end, section, t[|second|..]);
  }

  lemma TwoQuotedMeans(message: string, start: string, key: string, mid: string, section: string, end: string)
    requires TwoQuoted(message, start, mid, end) == Some((key, section))
    ensures key != [] && Free(key, '"') && section != [] && Free(section, '"')
    ensures HasPrefix(message, Whole(start, key, mid, section, end))
  {
    var s := After(message, start).value;
    var t := Quoted(s, mid).value.1;
    var u := Quoted(t, end).value.1;
    QuotedIff(s, mid, key, t);
    QuotedIff(t, end, section, u);
    WholeThen(start, key + "\"" + mid, section + "\"" + end, u, message);
  }

  lemma WholeThen(start: string, first: string, second: string, rest: string, message: string)
    requires HasPrefix(message, start) && message[|start|..] == first + (second + rest)
    ensures HasPrefix(message, start + first + second)
  {
    assert message == start + (first + (second + rest));
    assert start + (first + (second + rest)) == start + first + second + rest;
  }

  function Complaint(key: string, section: string): string {
    Whole("unexpected key \"", key, " for \"", section, " section")
  }

  /** The pattern matches exactly the messages that start with a complaint about a key and a section,
      both non-empty and free of quotes, and gives them. */
  lemma UnexpectedKeyIff(message: string, key: string, section: string)
    ensures UnexpectedKey(message) == Some((key, section)) <==>
              && key != [] && Free(key, '"') && section != [] && Free(section, '"')
              && HasPrefix(message, Complaint(key, section))
  {
    if UnexpectedKey(message) == Some((key, section)) {
      TwoQuotedMeans(message, "unexpected key \"", key, " for \"", section, " section");
    } else if key != [] && Free(key, '"') && section != [] && Free(section, '"') &&
              HasPrefix(message, Complaint(key, section)) {
      TwoQuotedMatches(message, "unexpected key \"", key, " for \"", section, " section");
    }
  }

  // ---- Reviewed keys ----

  datatype ReviewedKey = ReviewedKey(key: string, section: string, value: string)

  const REVIEWED_KEYS := [
    ReviewedKey("cache-mode", "workflow", "none"),
    ReviewedKey("cache-mode", "job", "none")]

  /** The diagnostic complains of a reviewed key in its section, and the first entry with that key at
      its position has the reviewed scalar. */
  ghost predicate Excused(root: Node, d: Diagnostic) {
    && d.kind == "syntax-check"
    && exists i :: 0 <= i < |REVIEWED_KEYS| && ExcusedBy(root, d, REVIEWED_KEYS[i])
  }

  ghost predicate ExcusedBy(root: Node, d: Diagnostic, k: ReviewedKey) {
    var value := FirstAt(Entries(root), d.line, d.column, k.key);
    && HasPrefix(d.message, Complaint(k.key, k.section))
    && value.Some? && value.value.kind == ScalarNode && value.value.value == k.value
  }

  lemma ReviewedKeysPlain(i: nat)
    requires i < |REVIEWED_KEYS|
    ensures var k := REVIEWED_KEYS[i];
      k.key != [] && Free(k.key, '"') && k.section != [] && Free(k.section, '"')
  {
  }

  method IsReviewed(root: Node, d: Diagnostic) returns (reviewed: bool)
    ensures reviewed <==> Excused(root, d)
  {
    ghost var m0 := UnexpectedKey(d.message);
    forall i | 0 <= i < |REVIEWED_KEYS|
      ensures ExcusedBy(root, d, REVIEWED_KEYS[i]) ==> m0 == Some((REVIEWED_KEYS[i].key, REVIEWED_KEYS[i].section))
    {
      ReviewedKeysPlain(i);
      UnexpectedKeyIff(d.message, REVIEWED_KEYS[i].key, REVIEWED_KEYS[i].section);
    }
    if d.kind != "syntax-check" { return false; }
    var m := UnexpectedKey(d.message);
    if m.None? { return false; }
    var (key, section) := m.value;
    UnexpectedKeyIff(d.message, key, section);
    var value := ValueAt(root, d.line, d.column, key);
    if value.None? || value.value.kind != ScalarNode { return false; }
    for i := 0 to |REVIEWED_KEYS|
      invariant forall j :: 0 <= j < i ==> !ExcusedBy(root, d, REVIEWED_KEYS[j])
    {
      var r := REVIEWED_KEYS[i];
      if r.key == key && r.section == section && r.value == value.value.value { return true; }
    }
    reviewed := false;
  }

  // ---- What is left ----

  ghost function Unexcused(root: Node, diags: seq<Diagnostic>): seq<Diagnostic> {
    if diags == [] then []
    else
      var n := |diags| - 1;
      Unexcused(root, diags[..n]) + if Excused(root, diags[n]) then [] else [diags[n]]
  }

  /** What still rejects the workflow, where `parse` is yaml.Unmarshal into a node: everything when the
      YAML is malformed, else every diagnostic that is not excused. */
  ghost function Rejecting(content: string, diags: seq<Diagnostic>, parse: string -> Option<Node>): seq<Diagnostic> {
    match parse(content)
    case None => diags
    case Some(root) => Unexcused(root, diags)
  }

  method UnreviewedDiagnostics(content: string, diags: seq<Diagnostic>, parse: string -> Option<Node>)
    returns (kept: seq<Diagnostic>)
    ensures kept == Rejecting(content, diags, parse)
  {
    if |diags| == 0 { return []; }
    var root := parse(content);
    if root.None? { return diags; }
    kept := [];
    for i := 0 to |diags|
      invariant kept == Unexcused(root.value, diags[..i])
    {
      var reviewed := IsReviewed(root.value, diags[i]);
      if !reviewed { kept := kept + [diags[i]]; }
      assert diags[..i + 1][..i] == diags[..i];
    }
    assert diags[..|diags|] == diags;
  }

  /** An excused diagnostic is gone, any other is there as often as before. */
  lemma {:induction false} KeptAre(root: Node, diags: seq<Diagnostic>, d: Diagnostic)
    ensures multiset(Unexcused(root, diags))[d] == if Excused(root, d) then 0 else multiset(diags)[d]
  {
    if diags != [] {
      var n := |diags| - 1;
      KeptAre(root, diags[..n], d);
      assert diags == diags[..n] + [diags[n]];
    }
  }

  /** The workflow is accepted exactly when there are no diagnostics, or the YAML is well-formed and
      every diagnostic is excused. */
  lemma AcceptedIff(content: string, diags: seq<Diagnostic>, parse: string -> Option<Node>)
    ensures Rejecting(content, diags, parse) == [] <==>
              diags == [] || (parse(content).Some? && forall d :: d in diags ==> Excused(parse(content).value, d))
  {
    if parse(content).Some? { NoneKept(parse(content).value, diags); }
  }

  lemma {:induction false} NoneKept(root: Node, diags: seq<Diagnostic>)
    ensures Unexcused(root, diags) == [] <==> forall d :: d in diags ==> Excused(root, d)
  {
    if diags != [] {
      var n := |diags| - 1;
      NoneKept(root, diags[..n]);
      assert diags == diags[..n] + [diags[n]];
    }
  }

  lemma Regroup<T>(x: seq<T>, y: seq<T>, z: seq<T>)
    ensures x + y + z == x + (y + z)
  {
  }

  lemma TakeAppended<T>(x: seq<T>, y: seq<T>, n: nat)
    requires n < |y|
    ensures (x + y)[..|x| + n] == x + y[..n] && (x + y)[|x| + n] == y[n]
  {
  }

  /** The diagnostics kept stay in order. */
  lemma {:induction false} KeptInOrder(root: Node, a: seq<Diagnostic>, b: seq<Diagnostic>)
    ensures Unexcused(root, a + b) == Unexcused(root, a) + Unexcused(root, b)
  {
    if b == [] {
      assert a + b == a;
    } else {
      var n := |b| - 1;
      KeptInOrder(root, a, b[..n]);
      Regroup(Unexcused(root, a), Unexcused(root, b[..n]), if Excused(root, b[n]) then [] else [b[n]]);
      TakeAppended(a, b, n);
    }
  }

  /** A diagnostic is excused only if the document really sets the key, at that position, to none. */
  lemma ExcusedMeansSet(root: Node, d: Diagnostic)
    requires Excused(root, d)
    ensures exists e ::
      && e in Entries(root) && At(e, d.line, d.column, "cache-mode")
      && e.value.kind == ScalarNode && e.value.value == "none"
  {
    FoundIff(Entries(root), d.line, d.column, "cache-mode");
  }
}
