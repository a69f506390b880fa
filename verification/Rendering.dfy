/** The printer of generated tickets (fleet/lib/tickets.py) and its round trip through the
    front-matter reader. */
module Rendering {
  import opened Wrappers
  import opened TextLines
  import opened FrontMatter
  import Json

  /** A tracker row. Whether it is actionable is decided by prose rules that are not modelled. */
  datatype Row = Row(
    id: string, source: string, section: string, severity: string, status: string, title: string, body: string,
    files: seq<string>, ambiguous: seq<string>, unresolved: seq<string>, related: seq<string>,
    struck: bool, actionable: bool)

  datatype Field = Field(key: string, value: Value)

  function FieldsOf(t: Row, testGlobs: seq<string>): seq<Field> {
    [ Field("id", Text(t.id)),
      Field("source", Text(t.source)),
      Field("section", Text(t.section)),
      Field("severity", Text(t.severity)),
      Field("status", Text(if t.actionable then "open" else "closed")),
      Field("original_status", Text(if t.status != "" then t.status else if t.struck then "struck" else "inferred")),
      Field("scope", Items(t.files)),
      Field("tests", Items(testGlobs)),
      Field("related", Items(t.related)),
      Field("needs_scope_review", Flag(t.ambiguous != [] || t.unresolved != [] || t.files == [])) ]
  }

  function ItemLines(items: seq<string>): seq<string> {
    seq(|items|, i requires 0 <= i < |items| => "  - " + items[i])
  }

  function PrintField(f: Field): (lines: seq<string>)
    ensures lines != []
  {
    match f.value
    case Items(xs) => if xs == [] then [f.key + ": []"] else [f.key + ":"] + ItemLines(xs)
    case Flag(b) => [f.key + ": " + if b then "true" else "false"]
    case Text(s) => [f.key + ": " + Json.Dumps(s)]
  }

  function PrintFields(fs: seq<Field>): seq<string> {
    if fs == [] then [] else PrintFields(fs[..|fs| - 1]) + PrintField(fs[|fs| - 1])
  }

  function AmbiguousLines(files: seq<string>): seq<string> {
    seq(|files|, i requires 0 <= i < |files| =>
      "- `" + files[i] + "` matched more than one tracked file; all candidates are in scope.")
  }

  function UnresolvedLines(files: seq<string>): seq<string> {
    seq(|files|, i requires 0 <= i < |files| =>
      "- `" + files[i] + "` is cited but not tracked in the code repo \U{2014} it may live in the docs repo.")
  }

  function WarningLines(t: Row): seq<string> {
    if t.ambiguous == [] && t.unresolved == [] then []
    else ["## Scope warnings", ""] + AmbiguousLines(t.ambiguous) + UnresolvedLines(t.unresolved) + [""]
  }

  function HeadLines(t: Row): seq<string> {
    ["", "# " + t.id + " \U{2014} " + t.title, "", "## Report", "",
     if t.body != "" then t.body else "_No detail captured in the tracker row._", ""]
  }

  const ACCEPTANCE: seq<string> :=
    ["## Acceptance", "",
     "- [ ] The defect described above no longer reproduces.",
     "- [ ] A test covers the fix and fails without it.",
     "- [ ] No file outside `scope` is modified.",
     ""]

  function BodyOf(t: Row): string {
    Join(HeadLines(t) + WarningLines(t) + ACCEPTANCE)
  }

  function RenderText(t: Row, testGlobs: seq<string>): string {
    Join(["---"] + PrintFields(FieldsOf(t, testGlobs)) + ["---"] + HeadLines(t) + WarningLines(t) + ACCEPTANCE)
  }

  /** The printer as it runs: one line after the other. */
  method PrintItems(xs: seq<string>) returns (lines: seq<string>)
    ensures lines == ItemLines(xs)
  {
    lines := [];
    for j := 0 to |xs|
      invariant lines == ItemLines(xs)[..j]
    {
      lines := lines + ["  - " + xs[j]];
    }
  }

  method PrintFront(fm: seq<Field>) returns (lines: seq<string>)
    ensures lines == PrintFields(fm)
  {
    lines := [];
    for i := 0 to |fm|
      invariant lines == PrintFields(fm[..i])
    {
      var key := fm[i].key;
      assert fm[..i + 1][..i] == fm[..i];
      match fm[i].value {
        case Items(xs) =>
          if xs == [] {
            lines := lines + [key + ": []"];
          } else {
            var items := PrintItems(xs);
            lines := lines + ([key + ":"] + items);
          }
        case Flag(b) => lines := lines + [key + ": " + if b then "true" else "false"];
        case Text(s) => lines := lines + [key + ": " + Json.Dumps(s)];
      }
    }
    assert fm[..|fm|] == fm;
  }

  method PrintAmbiguous(files: seq<string>) returns (lines: seq<string>)
    ensures lines == AmbiguousLines(files)
  {
    lines := [];
    for i := 0 to |files|
      invariant lines == AmbiguousLines(files)[..i]
    {
      lines := lines + ["- `" + files[i] + "` matched more than one tracked file; all candidates are in scope."];
    }
  }

  method PrintUnresolved(files: seq<string>) returns (lines: seq<string>)
    ensures lines == UnresolvedLines(files)
  {
    lines := [];
    for i := 0 to |files|
      invariant lines == UnresolvedLines(files)[..i]
    {
      lines := lines
        + ["- `" + files[i] + "` is cited but not tracked in the code repo \U{2014} it may live in the docs repo."];
    }
  }

  method PrintWarnings(t: Row) returns (lines: seq<string>)
    ensures lines == WarningLines(t)
  {
    lines := [];
    if t.ambiguous != [] || t.unresolved != [] {
      var ambiguous := PrintAmbiguous(t.ambiguous);
      var unresolved := PrintUnresolved(t.unresolved);
      lines := ["## Scope warnings", ""] + ambiguous + unresolved + [""];
    }
  }

  method Render(t: Row, testGlobs: seq<string>) returns (text: string)
    ensures text == RenderText(t, testGlobs)
  {
    var front := PrintFront(FieldsOf(t, testGlobs));
    var warnings := PrintWarnings(t);
    text := Join(["---"] + front + ["---"] + HeadLines(t) + warnings + ACCEPTANCE);
  }

  // ------------------------------------------------------------ reading a printed field

  predicate CleanKey(key: string) {
    && key != "" && Trimmed(key) && Unbroken(key) && forall i :: 0 <= i < |key| ==> key[i] != ':'
  }

  /** An item the reader can give back: one line without white space around it. */
  predicate CleanItem(x: string) {
    Unbroken(x) && Trimmed(x)
  }

  predicate CleanItems(v: Value) {
    v.Items? ==> forall i :: 0 <= i < |v.items| ==> CleanItem(v.items[i])
  }

  function FieldMap(m: map<string, Value>, fs: seq<Field>): map<string, Value> {
    if fs == [] then m else FieldMap(m, fs[..|fs| - 1])[fs[|fs| - 1].key := fs[|fs| - 1].value]
  }

  lemma {:induction false} ColonAtOf(key: string, rest: string)
    requires (forall i :: 0 <= i < |key| ==> key[i] != ':') && rest != "" && rest[0] == ':'
    ensures ColonAt(key + rest) == |key|
  {
    if key == "" {
      assert key + rest == rest;
    } else {
      ColonAtOf(key[1..], rest);
      assert (key + rest)[1..] == key[1..] + rest;
    }
  }

  /** A printed scalar line reads as its key and value. */
  lemma NoItem(line: string, key: string)
    requires CleanKey(key) && |line| >= |key| && line[..|key|] == key
    ensures !IsItem(line)
  {
    StripTrims(key);
    assert line[0] == key[0] != ' ';
    assert |line| >= 4 ==> line[..4][0] == line[0];
  }

  lemma FeedKeyLine(r: Reader, key: string, rest: string)
    requires CleanKey(key) && !r.failed
    ensures Feed(r, key + ":" + rest) == Reader(r.fields[key := ParseValue(Strip(rest))], key, false)
  {
    var line := key + ":" + rest;
    assert line == key + (":" + rest);
    ColonAtOf(key, ":" + rest);
    assert line[..|key|] == key && line[|key| + 1..] == rest;
    StripTrims(key);
    NoItem(line, key);
  }

  lemma FeedItem(r: Reader, x: string)
    requires CleanItem(x) && !r.failed
    ensures Feed(r, "  - " + x) == AddItem(r, x)
  {
    assert ("  - " + x)[..4] == "  - " && ("  - " + x)[4..] == x;
    StripTrims(x);
  }

  lemma {:induction false} FeedItems(r: Reader, key: string, xs: seq<string>, ys: seq<string>)
    requires key != "" && r.key == key && !r.failed && key in r.fields && r.fields[key] == Items(xs)
    requires forall i :: 0 <= i < |ys| ==> CleanItem(ys[i])
    ensures FeedAll(r, ItemLines(ys)) == Reader(r.fields[key := Items(xs + ys)], key, false)
    decreases |ys|
  {
    if ys == [] {
      assert xs + ys == xs && r.fields[key := Items(xs)] == r.fields;
      assert FeedAll(r, ItemLines(ys)) == r;
    } else {
      var lines := ItemLines(ys);
      assert lines[0] == "  - " + ys[0] && lines[1..] == ItemLines(ys[1..]);
      FeedItem(r, ys[0]);
      var s := Feed(r, lines[0]);
      FeedItems(s, key, xs + [ys[0]], ys[1..]);
      assert xs + [ys[0]] + ys[1..] == xs + ys;
    }
  }

  lemma DumpsTrimmed(s: string)
    ensures Trimmed(Json.Dumps(s)) && Unbroken(Json.Dumps(s))
    ensures ParseValue(Json.Dumps(s)) == Text(s)
  {
    var d := Json.Dumps(s);
    Json.EscapePrintable(s);
    Json.LoadsDumps(s);
    assert d[0] == '"' && d[|d| - 1] == '"';
    forall i | 0 <= i < |d| ensures !IsBreak(d[i]) {
      if 0 < i < |d| - 1 { assert d[i] == Json.Escape(s)[i - 1]; }
    }
  }

  lemma FeedOne(r: Reader, line: string)
    ensures FeedAll(r, [line]) == Feed(r, line)
  {
    assert [line][1..] == [];
  }

  lemma FeedScalar(r: Reader, key: string, raw: string)
    requires CleanKey(key) && Trimmed(raw) && !r.failed
    ensures FeedAll(r, [key + ": " + raw]) == Reader(r.fields[key := ParseValue(raw)], key, false)
  {
    StripSpace(raw);
    assert key + ": " + raw == key + ":" + (" " + raw);
    FeedKeyLine(r, key, " " + raw);
    FeedOne(r, key + ": " + raw);
  }

  lemma FeedList(r: Reader, key: string, xs: seq<string>)
    requires CleanKey(key) && !r.failed && xs != [] && forall i :: 0 <= i < |xs| ==> CleanItem(xs[i])
    ensures FeedAll(r, [key + ":"] + ItemLines(xs)) == Reader(r.fields[key := Items(xs)], key, false)
  {
    var head := key + ":";
    assert head == key + ":" + "" && ParseValue(Strip("")) == Items([]);
    FeedKeyLine(r, key, "");
    FeedAppend(r, [head], ItemLines(xs));
    FeedOne(r, head);
    FeedItems(Feed(r, head), key, [], xs);
    assert [] + xs == xs && r.fields[key := Items([])][key := Items(xs)] == r.fields[key := Items(xs)];
  }

  lemma FeedField(r: Reader, f: Field)
    requires CleanKey(f.key) && CleanItems(f.value) && !r.failed
    ensures FeedAll(r, PrintField(f)) == Reader(r.fields[f.key := f.value], f.key, false)
  {
    match f.value
    case Text(s) =>
      DumpsTrimmed(s);
      FeedScalar(r, f.key, Json.Dumps(s));
    case Flag(b) =>
      FeedScalar(r, f.key, if b then "true" else "false");
    case Items(xs) =>
      if xs == [] {
        FeedScalar(r, f.key, "[]");
        assert f.key + ": []" == f.key + ": " + "[]";
      } else {
        FeedList(r, f.key, xs);
      }
  }

  lemma {:induction false} FeedFields(r: Reader, fs: seq<Field>)
    requires !r.failed && forall i :: 0 <= i < |fs| ==> CleanKey(fs[i].key) && CleanItems(fs[i].value)
    ensures var s := FeedAll(r, PrintFields(fs)); s.fields == FieldMap(r.fields, fs) && !s.failed
    decreases |fs|
  {
    if fs != [] {
      var n := |fs| - 1;
      FeedFields(r, fs[..n]);
      FeedAppend(r, PrintFields(fs[..n]), PrintField(fs[n]));
      FeedField(FeedAll(r, PrintFields(fs[..n])), fs[n]);
    }
  }

  // ------------------------------------------------------------ printed lines are well formed

  predicate GoodLine(line: string) {
    Unbroken(line) && OneLine(line) && line != "---"
  }

  lemma KeyLineGood(key: string, rest: string)
    requires CleanKey(key) && Unbroken(rest)
    ensures GoodLine(key + ":" + rest)
  {
    var line := key + ":" + rest;
    assert line[|key|] == ':';
    assert forall i :: 0 <= i < |line| ==>
      line[i] == if i < |key| then key[i] else if i == |key| then ':' else rest[i - |key| - 1];
  }

  lemma ScalarLineGood(key: string, raw: string)
    requires CleanKey(key) && Unbroken(raw)
    ensures GoodLine(key + ": " + raw)
  {
    assert key + ": " + raw == key + ":" + (" " + raw);
    KeyLineGood(key, " " + raw);
  }

  lemma ItemLinesGood(xs: seq<string>)
    requires forall i :: 0 <= i < |xs| ==> CleanItem(xs[i])
    ensures forall i :: 0 <= i < |xs| ==> GoodLine(ItemLines(xs)[i])
  {
    forall i | 0 <= i < |xs| ensures GoodLine(ItemLines(xs)[i]) {
      var line := "  - " + xs[i];
      assert line[0] == ' ';
      assert forall j :: 4 <= j < |line| ==> line[j] == xs[i][j - 4];
    }
  }

  lemma FieldLinesGood(f: Field)
    requires CleanKey(f.key) && CleanItems(f.value)
    ensures forall i :: 0 <= i < |PrintField(f)| ==> GoodLine(PrintField(f)[i])
  {
    match f.value
    case Text(s) =>
      DumpsTrimmed(s);
      ScalarLineGood(f.key, Json.Dumps(s));
    case Flag(b) =>
      ScalarLineGood(f.key, if b then "true" else "false");
    case Items(xs) =>
      KeyLineGood(f.key, "");
      KeyLineGood(f.key, " []");
      assert f.key + ": []" == f.key + ":" + " []" && f.key + ":" == f.key + ":" + "";
      ItemLinesGood(xs);
  }

  lemma {:induction false} FieldsLinesGood(fs: seq<Field>)
    requires forall i :: 0 <= i < |fs| ==> CleanKey(fs[i].key) && CleanItems(fs[i].value)
    ensures forall i :: 0 <= i < |PrintFields(fs)| ==> GoodLine(PrintFields(fs)[i])
    ensures fs != [] ==> PrintFields(fs) != []
    decreases |fs|
  {
    if fs != [] {
      FieldsLinesGood(fs[..|fs| - 1]);
      FieldLinesGood(fs[|fs| - 1]);
    }
  }

  lemma {:induction false} JoinAppend(xs: seq<string>, ys: seq<string>)
    requires xs != [] && ys != []
    ensures Join(xs + ys) == Join(xs) + ("\n" + Join(ys))
    decreases |xs|
  {
    assert (xs + ys)[0] == xs[0] && (xs + ys)[1..] == xs[1..] + ys;
    if |xs| == 1 {
      assert xs[1..] + ys == ys;
    } else {
      JoinAppend(xs[1..], ys);
    }
  }

  lemma WrapLines(lines: seq<string>, body: seq<string>)
    requires lines != [] && body != []
    ensures Join(["---"] + lines + ["---"] + body) == WriteParts(Parts(lines, Join(body)))
  {
    assert ["---"] + lines + ["---"] + body == ["---"] + (lines + (["---"] + body));
    JoinAppend(["---"], body);
    JoinAppend(lines, ["---"] + body);
    JoinAppend(["---"], lines + (["---"] + body));
    assert "\n" + (("---") + ("\n" + Join(body))) == END_MARK + Join(body);
  }

  lemma FlattenLines(a: seq<string>, b: seq<string>, c: seq<string>, d: seq<string>)
    ensures a + b + c + d == a + (b + c + d)
  {}

  /** The printed text is front matter followed by the body. */
  lemma RenderParts(t: Row, testGlobs: seq<string>)
    requires PrintFields(FieldsOf(t, testGlobs)) != []
    ensures RenderText(t, testGlobs) == WriteParts(Parts(PrintFields(FieldsOf(t, testGlobs)), BodyOf(t)))
  {
    var lines := PrintFields(FieldsOf(t, testGlobs));
    FlattenLines(["---"] + lines + ["---"], HeadLines(t), WarningLines(t), ACCEPTANCE);
    WrapLines(lines, HeadLines(t) + WarningLines(t) + ACCEPTANCE);
  }

  // ------------------------------------------------------------ round trip

  /** What a ticket read from the printed text should be. */
  function Expected(t: Row, testGlobs: seq<string>): Ticket {
    Ticket(FieldMap(map[], FieldsOf(t, testGlobs)), BodyOf(t))
  }

  predicate Representable(t: Row, testGlobs: seq<string>) {
    && (forall x :: x in t.files ==> CleanItem(x))
    && (forall x :: x in testGlobs ==> CleanItem(x))
    && (forall x :: x in t.related ==> CleanItem(x))
    && '\r' !in BodyOf(t)
  }

  lemma IdentifierClean(key: string)
    requires key != "" && forall i :: 0 <= i < |key| ==> key[i] == '_' || 'a' <= key[i] <= 'z'
    ensures CleanKey(key)
  {}

  lemma KeysClean(t: Row, testGlobs: seq<string>)
    ensures forall i :: 0 <= i < |FieldsOf(t, testGlobs)| ==> CleanKey(FieldsOf(t, testGlobs)[i].key)
  {
    IdentifierClean("id");
    IdentifierClean("source");
    IdentifierClean("section");
    IdentifierClean("severity");
    IdentifierClean("status");
    IdentifierClean("original_status");
    IdentifierClean("scope");
    IdentifierClean("tests");
    IdentifierClean("related");
    IdentifierClean("needs_scope_review");
  }

  lemma {:induction false} UnbrokenLinesNoReturn(lines: seq<string>)
    requires lines != [] && AllUnbroken(lines)
    ensures '\r' !in Join(lines)
    decreases |lines|
  {
    if |lines| > 1 { UnbrokenLinesNoReturn(lines[1..]); }
    assert forall c :: c in lines[0] ==> !IsBreak(c);
  }

  /** Reading a written file, byte for byte. */
  lemma LoadWritten(p: Parts)
    requires Enclosed(p.lines) && AllUnbroken(p.lines)
    ensures var r := FeedAll(EMPTY, p.lines);
      Load(WriteParts(p)) == if r.failed then Err(ItemUnderScalar) else Ok(Ticket(r.fields, ReadText(p.body)))
  {
    UnbrokenLinesNoReturn(p.lines);
    var head := "---\n" + (Join(p.lines) + END_MARK);
    assert WriteParts(p) == head + p.body;
    ReadTextSame(head, p.body);
    var q := Parts(p.lines, ReadText(p.body));
    assert head + q.body == WriteParts(q);
    ReadWritten(q);
    FeedSplitLines(EMPTY, p.lines);
  }

  lemma RoundTrip(t: Row, testGlobs: seq<string>)
    requires Representable(t, testGlobs)
    ensures Load(RenderText(t, testGlobs)) == Ok(Expected(t, testGlobs))
  {
    var fs := FieldsOf(t, testGlobs);
    KeysClean(t, testGlobs);
    FeedFields(EMPTY, fs);
    FieldsLinesGood(fs);
    RenderParts(t, testGlobs);
    LoadWritten(Parts(PrintFields(fs), BodyOf(t)));
    ReadTextExactly(BodyOf(t));
  }

  // ------------------------------------------------------------ what no file can give back

  lemma {:induction false} SplitLinesUnbroken(s: string)
    ensures AllUnbroken(SplitLines(s))
    decreases |s|
  {
    if s != "" {
      BreakAtUnbroken(s);
      var n := BreakAt(s);
      if n < |s| { SplitLinesUnbroken(s[n + 1..]); } else { assert s[..n] == s; }
    }
  }

  lemma {:induction false} BreakAtUnbroken(s: string)
    ensures Unbroken(s[..BreakAt(s)])
  {
    if s != "" && !IsBreak(s[0]) {
      BreakAtUnbroken(s[1..]);
      var n := BreakAt(s);
      assert forall i :: 0 < i < n ==> s[..n][i] == s[1..][..n - 1][i - 1];
    }
  }

  ghost predicate ListsClean(r: Reader) {
    forall k :: k in r.fields ==> CleanItems(r.fields[k])
  }

  lemma FeedListsClean(r: Reader, line: string)
    requires ListsClean(r) && Unbroken(line)
    ensures ListsClean(Feed(r, line))
  {
    if IsItem(line) {
      var x := Strip(line[4..]);
      StripTrims(line[4..]);
      LStripTrims(line[4..]);
      RStripTrims(LStrip(line[4..]));
      assert forall i :: 0 <= i < |x| ==> x[i] in line;
      assert CleanItem(x);
    }
  }

  lemma {:induction false} FeedAllListsClean(r: Reader, lines: seq<string>)
    requires ListsClean(r) && AllUnbroken(lines)
    ensures ListsClean(FeedAll(r, lines))
    decreases |lines|
  {
    if lines != [] {
      FeedListsClean(r, lines[0]);
      FeedAllListsClean(Feed(r, lines[0]), lines[1..]);
    }
  }

  /** Whatever the file, list items come back trimmed and unbroken, and the body without
      carriage returns. */
  lemma LoadedClean(content: string)
    requires Load(content).Ok?
    ensures forall k :: k in Load(content).value.fields ==> CleanItems(Load(content).value.fields[k])
    ensures '\r' !in Load(content).value.body
  {
    var p := ReadParts(ReadText(content)).value;
    SplitLinesUnbroken(Join(p.lines));
    FeedAllListsClean(EMPTY, SplitLines(Join(p.lines)));
    ReadTextNoReturn(content);
    WriteRead(ReadText(content));
    assert forall c :: c in p.body ==> c in WriteParts(p);
  }

  lemma ReadBackIsRepresentable(t: Row, testGlobs: seq<string>)
    requires Load(RenderText(t, testGlobs)) == Ok(Expected(t, testGlobs))
    ensures Representable(t, testGlobs)
  {
    LoadedClean(RenderText(t, testGlobs));
    ExpectedLists(t, testGlobs);
    var fields := Expected(t, testGlobs).fields;
    assert CleanItems(fields["scope"]) && CleanItems(fields["tests"]) && CleanItems(fields["related"]);
  }

  /** A generated ticket reads back as it was exactly when its list items are single trimmed
      lines and its body has no carriage return. */
  lemma RoundTripExactly(t: Row, testGlobs: seq<string>)
    ensures Load(RenderText(t, testGlobs)) == Ok(Expected(t, testGlobs)) <==> Representable(t, testGlobs)
  {
    if Representable(t, testGlobs) { RoundTrip(t, testGlobs); }
    if Load(RenderText(t, testGlobs)) == Ok(Expected(t, testGlobs)) { ReadBackIsRepresentable(t, testGlobs); }
  }

  lemma ExpectedLists(t: Row, testGlobs: seq<string>)
    ensures var fields := Expected(t, testGlobs).fields;
      && "scope" in fields && fields["scope"] == Items(t.files)
      && "tests" in fields && fields["tests"] == Items(testGlobs)
      && "related" in fields && fields["related"] == Items(t.related)
  {
    var fs := FieldsOf(t, testGlobs);
    FieldMapLast(map[], fs, 6);
    FieldMapLast(map[], fs, 7);
    FieldMapLast(map[], fs, 8);
  }

  lemma {:induction false} FieldMapLast(m: map<string, Value>, fs: seq<Field>, i: nat)
    requires i < |fs| && forall j :: i < j < |fs| ==> fs[j].key != fs[i].key
    ensures fs[i].key in FieldMap(m, fs) && FieldMap(m, fs)[fs[i].key] == fs[i].value
    decreases |fs|
  {
    if i < |fs| - 1 { FieldMapLast(m, fs[..|fs| - 1], i); }
  }

  // ------------------------------------------------------------ different rows print differently

  lemma BodyCut(t: Row, head: seq<string>, text: string, warnings: seq<string>, end: seq<string>)
    requires HeadLines(t) == head + [text, ""]
    ensures HeadLines(t) + warnings + end == head + ([text] + ([""] + warnings + end))
  {}

  lemma BodyShows(t: Row)
    ensures var head := ["", "# " + t.id + " \U{2014} " + t.title, "", "## Report", ""];
      var text := if t.body != "" then t.body else "_No detail captured in the tracker row._";
      BodyOf(t) == Join(head) + ("\n" + (text + ("\n" + Join([""] + WarningLines(t) + ACCEPTANCE))))
  {
    var head := ["", "# " + t.id + " \U{2014} " + t.title, "", "## Report", ""];
    var text := if t.body != "" then t.body else "_No detail captured in the tracker row._";
    var tail := [""] + WarningLines(t) + ACCEPTANCE;
    BodyCut(t, head, text, WarningLines(t), ACCEPTANCE);
    JoinAppend(head, [text] + tail);
    JoinAppend([text], tail);
  }

  lemma SameFirstLine(a: string, x: string, b: string, y: string)
    requires OneLine(a) && OneLine(b) && a + ("\n" + x) == b + ("\n" + y)
    ensures a == b
  {
    LineLengthOf(a, "\n" + x);
    LineLengthOf(b, "\n" + y);
    assert (a + ("\n" + x))[..|a|] == a && (b + ("\n" + y))[..|b|] == b;
  }

  lemma CutSame(h: string, x: string, y: string)
    requires h + x == h + y
    ensures x == y
  {
    assert (h + x)[|h|..] == x && (h + y)[|h|..] == y;
  }

  /** Rows of one id and title with different one-line bodies have different ticket texts. */
  lemma TextsDiffer(p: Row, q: Row, testGlobs: seq<string>)
    requires Representable(p, testGlobs) && Representable(q, testGlobs)
    requires p.id == q.id && p.title == q.title && p.body != q.body
    requires p.body != "" && q.body != "" && OneLine(p.body) && OneLine(q.body)
    ensures RenderText(p, testGlobs) != RenderText(q, testGlobs)
  {
    RoundTrip(p, testGlobs);
    RoundTrip(q, testGlobs);
    BodyShows(p);
    BodyShows(q);
    var head := Join(["", "# " + p.id + " \U{2014} " + p.title, "", "## Report", ""]);
    var x, y := Join([""] + WarningLines(p) + ACCEPTANCE), Join([""] + WarningLines(q) + ACCEPTANCE);
    if BodyOf(p) == BodyOf(q) {
      CutSame(head, "\n" + (p.body + ("\n" + x)), "\n" + (q.body + ("\n" + y)));
      CutSame("\n", p.body + ("\n" + x), q.body + ("\n" + y));
      SameFirstLine(p.body, x, q.body, y);
    }
  }
}
