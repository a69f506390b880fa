/** What the editors (fleet/fleet.py) do to any ticket file that can be read, as it is read again
    afterwards: one field, a scope, children, with the body kept to the last character. */
module FileEdits {
  import opened Wrappers
  import opened TextLines
  import opened FrontMatter
  import opened Rendering
  import opened Sections
  import opened Editing
  import opened ScalarEdits
  import opened Blocks
  import opened TicketFiles
  import Json

  function PartsOf(content: string): Option<Parts> {
    ReadParts(ReadText(content))
  }

  // ------------------------------------------------------------ writing a front matter back

  predicate Plain(line: string) {
    OneLine(line) && '\r' !in line
  }

  /** Lines that a file can hold between its marks. */
  predicate Writable(lines: seq<string>) {
    && lines != [] && (forall i :: 0 <= i < |lines| ==> Plain(lines[i]))
    && forall i :: 1 <= i < |lines| ==> lines[i] != "---"
  }

  /** Lines of which none is a mark. */
  predicate Inner(lines: seq<string>) {
    forall i :: 0 <= i < |lines| ==> Plain(lines[i]) && lines[i] != "---"
  }

  lemma WritableCons(line: string, rest: seq<string>)
    requires Plain(line) && Inner(rest)
    ensures Writable([line] + rest)
    ensures line != "---" ==> Inner([line] + rest)
  {}

  lemma WritableRest(lines: seq<string>)
    requires Writable(lines)
    ensures Plain(lines[0]) && Inner(lines[1..])
  {}

  lemma {:induction false} PartsPlain(lines: seq<string>)
    requires lines != [] && '\r' !in Join(lines)
    ensures forall i :: 0 <= i < |lines| ==> '\r' !in lines[i]
    decreases |lines|
  {
    if |lines| > 1 {
      assert Join(lines) == lines[0] + ("\n" + Join(lines[1..]));
      PartsPlain(lines[1..]);
      assert forall i :: 1 <= i < |lines| ==> lines[i] == lines[1..][i - 1];
    }
  }

  lemma {:induction false} JoinPlain(lines: seq<string>)
    requires lines != [] && forall i :: 0 <= i < |lines| ==> Plain(lines[i])
    ensures '\r' !in Join(lines)
    decreases |lines|
  {
    if |lines| > 1 { JoinPlain(lines[1..]); }
  }

  /** What a file holds can be written back. */
  lemma PartsWritable(content: string)
    requires PartsOf(content).Some?
    ensures var p := PartsOf(content).value; Writable(p.lines) && '\r' !in p.body
  {
    var text, p := ReadText(content), PartsOf(content).value;
    WriteRead(text);
    ReadTextNoReturn(content);
    var head := "---\n";
    assert WriteParts(p) == head + Join(p.lines) + END_MARK + p.body;
    assert '\r' !in Join(p.lines) && '\r' !in p.body;
    PartsPlain(p.lines);
  }

  lemma WrittenParts(lines: seq<string>, body: string)
    requires Writable(lines) && '\r' !in body
    ensures PartsOf(WriteParts(Parts(lines, body))) == Some(Parts(lines, body))
  {
    var p := Parts(lines, body);
    JoinPlain(lines);
    assert '\r' !in WriteParts(p) by { assert '\r' !in "---\n" && '\r' !in END_MARK; }
    ReadTextExactly(WriteParts(p));
    ReadWritten(p);
  }

  /** Loading a file is reading its lines. */
  lemma LoadsAs(content: string)
    requires PartsOf(content).Some?
    ensures var p := PartsOf(content).value;
      p.lines != [] && Load(content) == if Read(p.lines).failed then Err(ItemUnderScalar)
                                        else Ok(Ticket(Read(p.lines).fields, p.body))
  {
    PartsWritable(content);
  }

  // ------------------------------------------------------------ edits keep lines writable

  lemma {:induction false} SubInner(lines: seq<string>, key: string, line: string, first: bool)
    requires lines != [] && Inner(lines) && Inner([line])
    ensures Inner(Sub(lines, key, line, first))
    decreases |lines|
  {
    assert Inner([line]) ==> Plain([line][0]) && [line][0] != "---";
    if |lines| > 1 {
      SubInner(lines[1..], key, line, first && !IsKeyLine(lines[0], key));
    }
  }

  lemma UpsertWritable(lines: seq<string>, key: string, line: string)
    requires Writable(lines) && Inner([line])
    ensures Writable(Upsert(lines, key, line))
  {
    assert Plain([line][0]) && [line][0] != "---";
    WritableRest(lines);
    if !HasKey(lines, key) {
      DropBlankPrefix(lines);
    } else if |lines| > 1 {
      var first := !IsKeyLine(lines[0], key);
      SubInner(lines[1..], key, line, first);
      WritableCons(lines[0], Sub(lines[1..], key, line, first));
      WritableCons(line, Sub(lines[1..], key, line, first));
    }
  }

  lemma InnerAppend(a: seq<string>, b: seq<string>)
    requires Inner(a) && Inner(b)
    ensures Inner(a + b)
  {}

  lemma {:induction false} ReplaceInner(lines: seq<string>, key: string, block: seq<string>)
    requires lines != [] && block != [] && Inner(lines) && Inner(block) && CleanKey(key)
    ensures Inner(Replace(lines, key, block))
    decreases |lines|
  {
    match MatchLines(lines, key)
    case Some(rest) =>
      var s := FeedBlock(EMPTY, lines, key);
      InnerSuffix(CutLines(lines, key), rest);
      InnerAppend(block, rest);
    case None =>
      if |lines| > 1 {
        ReplaceInner(lines[1..], key, block);
        InnerAppend([lines[0]], Replace(lines[1..], key, block));
      }
  }

  lemma InnerSuffix(a: seq<string>, b: seq<string>)
    requires Inner(a + b)
    ensures Inner(b)
  {
    assert forall i :: 0 <= i < |b| ==> b[i] == (a + b)[|a| + i];
  }

  lemma InnerWritable(lines: seq<string>)
    requires lines != [] && Inner(lines)
    ensures Writable(lines)
  {}

  lemma ReplaceWritable(lines: seq<string>, key: string, block: seq<string>)
    requires Writable(lines) && block != [] && Inner(block) && CleanKey(key)
    ensures Writable(Replace(lines, key, block))
  {
    WritableRest(lines);
    match MatchLines(lines, key)
    case Some(rest) =>
      var s := FeedBlock(EMPTY, lines, key);
      MatchedRest(lines, key);
      assert lines[1..] == CutLines(lines, key)[1..] + rest;
      InnerSuffix(CutLines(lines, key)[1..], rest);
      InnerAppend(block, rest);
      InnerWritable(block + rest);
    case None =>
      if |lines| > 1 {
        ReplaceInner(lines[1..], key, block);
        WritableCons(lines[0], Replace(lines[1..], key, block));
      }
  }

  lemma AppendWritable(lines: seq<string>, block: seq<string>)
    requires Writable(lines) && Inner(block)
    ensures Writable(lines + block)
  {}

  lemma GoodInner(lines: seq<string>)
    requires forall i :: 0 <= i < |lines| ==> GoodLine(lines[i])
    ensures Inner(lines)
  {}

  // ------------------------------------------------------------ one field

  /** `_upsert_field` on a file. */
  function UpsertContent(content: string, key: string, line: string): Option<string> {
    match PartsOf(content)
    case None => None
    case Some(Parts(lines, body)) => Some("---\n" + (UpsertText(Join(lines), key, line) + (END_MARK + body)))
  }

  lemma NamesGood(line: string, key: string, v: Value)
    requires CleanKey(key) && Names(line, key, v)
    ensures Inner([line])
  {
    OwnLine(line, key);
    assert line != "---" by { assert line == "---" ==> ColonAt(line) == |line|; }
  }

  lemma UpsertParts(content: string, key: string, line: string)
    requires PartsOf(content).Some? && OneLine(key) && Inner([line])
    ensures var p, r := PartsOf(content).value, UpsertContent(content, key, line);
      p.lines != [] && r.Some? && PartsOf(r.value) == Some(Parts(Upsert(p.lines, key, line), p.body))
  {
    var p := PartsOf(content).value;
    PartsWritable(content);
    UpsertLines(p.lines, key, line);
    UpsertWritable(p.lines, key, line);
    WrittenParts(Upsert(p.lines, key, line), p.body);
  }

  /** What is read after an edit of one field, next to what was read before. */
  ghost predicate FieldLaw(content: string, now: string, key: string, v: Value)
    requires Load(content).Ok?
  {
    var secs, was := SectionsOf(PartsOf(content).value.lines, key), Load(content).value;
    && (Load(now).Ok? <==> Bearable(secs))
    && (Load(now).Ok? ==>
          && Load(now).value.body == was.body
          && (SameBut(was.fields, Load(now).value.fields, key) <==> Undisturbed(secs, key))
          && ReadsUnless(Load(now).value.fields, key, v, LastOther(secs, key)))
  }

  /** Setting one field of any file that can be read. The file can be read again if and only if no
      items are left below the new line nor fall to a field that is no list; then its body is the
      same, the other fields are the same if and only if no items fall to one of them for good, and
      the field reads as written if and only if no unrecognised line sets it otherwise later on. */
  lemma FieldTakesExactly(content: string, key: string, line: string, v: Value)
    requires Load(content).Ok? && CleanKey(key) && Names(line, key, v)
    requires OwnUnbroken(PartsOf(content).value.lines, key)
    ensures var r := UpsertContent(content, key, line); r.Some? && FieldLaw(content, r.value, key, v)
  {
    var p := PartsOf(content).value;
    NamesGood(line, key, v);
    UpsertParts(content, key, line);
    LoadsAs(content);
    LoadsAs(UpsertContent(content, key, line).value);
    EditTakesExactly(p.lines, key, line, v);
  }

  lemma QuotedReads(raw: string, status: string)
    requires Json.Verbatim(status) && raw == "\"" + status + "\""
    ensures Trimmed(raw) && ParseValue(raw) == Text(status)
  {
    assert raw[0] == '"' && raw[|raw| - 1] == '"';
    assert raw[1..] == status + "\"";
    Json.ScanVerbatim(status);
    assert Json.Loads(raw) == Some(status);
  }

  lemma ScalarNames(key: string, raw: string, v: Value)
    requires CleanKey(key) && Trimmed(raw) && Unbroken(raw) && ParseValue(raw) == v && !v.Items?
    ensures Names(key + ": " + raw, key, v)
  {
    var line, rest := key + ": " + raw, ":" + (" " + raw);
    assert line == key + rest;
    KeyLineGood(key, " " + raw);
    assert line == key + ":" + (" " + raw);
    ColonAtOf(key, rest);
    OwnLine(line, key);
    assert line[|key| + 1..] == " " + raw;
    StripSpace(raw);
  }

  /** The status line, whose text is not escaped, names its status. */
  lemma StatusNames(status: string)
    requires Json.Verbatim(status) && Unbroken(status)
    ensures Names(StatusLine(status), "status", Text(status))
  {
    var raw := "\"" + status + "\"";
    IdentifierClean("status");
    QuotedReads(raw, status);
    QuotedUnbroken(status);
    ScalarNames("status", raw, Text(status));
    StatusLineQuoted(status);
  }

  lemma QuotedUnbroken(status: string)
    requires Unbroken(status)
    ensures Unbroken("\"" + status + "\"")
  {}

  lemma StatusLineQuoted(status: string)
    ensures StatusLine(status) == "status" + ": " + ("\"" + status + "\"")
  {}

  /** So does the line of any extra field, booleans as booleans. */
  lemma ExtraNames(x: Extra)
    requires CleanKey(x.key)
    ensures Names(ExtraLine(x), x.key, ExtraField(x).value)
  {
    if x.value == "true" || x.value == "false" {
      ScalarNames(x.key, x.value, ExtraField(x).value);
    } else {
      DumpsTrimmed(x.value);
      ScalarNames(x.key, Json.Dumps(x.value), Text(x.value));
    }
  }

  /** `set_status` on any file that can be read. */
  lemma StatusTakesExactly(content: string, status: string)
    requires Load(content).Ok? && Json.Verbatim(status) && Unbroken(status)
    requires OwnUnbroken(PartsOf(content).value.lines, "status")
    ensures var r := EditContent(content, SetStatus(status, []));
      r.Some? && FieldLaw(content, r.value, "status", Text(status))
  {
    IdentifierClean("status");
    StatusNames(status);
    FieldTakesExactly(content, "status", StatusLine(status), Text(status));
    assert EditContent(content, SetStatus(status, [])) == UpsertContent(content, "status", StatusLine(status));
  }

  lemma {:induction false} ExtrasParts(content: string, status: string, extras: seq<Extra>) returns (lines: seq<string>)
    requires PartsOf(content).Some? && Json.Verbatim(status) && Unbroken(status)
    requires forall i :: 0 <= i < |extras| ==> CleanKey(extras[i].key)
    ensures Writable(lines)
    ensures Join(lines) == EditFront(Join(PartsOf(content).value.lines), SetStatus(status, extras))
    decreases |extras|
  {
    var p := PartsOf(content).value;
    PartsWritable(content);
    if extras == [] {
      IdentifierClean("status");
      StatusNames(status);
      NamesGood(StatusLine(status), "status", Text(status));
      lines := Upsert(p.lines, "status", StatusLine(status));
      UpsertLines(p.lines, "status", StatusLine(status));
      UpsertWritable(p.lines, "status", StatusLine(status));
    } else {
      var n := |extras| - 1;
      var x := extras[n];
      var before := ExtrasParts(content, status, extras[..n]);
      ExtraNames(x);
      NamesGood(ExtraLine(x), x.key, ExtraField(x).value);
      lines := Upsert(before, x.key, ExtraLine(x));
      UpsertLines(before, x.key, ExtraLine(x));
      UpsertWritable(before, x.key, ExtraLine(x));
    }
  }

  /** With extra fields it is a status edit followed by one edit for each of them. */
  lemma ExtrasOneByOne(content: string, status: string, extras: seq<Extra>, x: Extra)
    requires PartsOf(content).Some? && Json.Verbatim(status) && Unbroken(status)
    requires forall i :: 0 <= i < |extras| ==> CleanKey(extras[i].key)
    ensures EditContent(content, SetStatus(status, extras)).Some?
    ensures EditContent(content, SetStatus(status, extras + [x]))
      == UpsertContent(EditContent(content, SetStatus(status, extras)).value, x.key, ExtraLine(x))
  {
    var p := PartsOf(content).value;
    PartsWritable(content);
    var lines := ExtrasParts(content, status, extras);
    WrittenParts(lines, p.body);
    assert EditContent(content, SetStatus(status, extras)).value == WriteParts(Parts(lines, p.body));
    assert (extras + [x])[..|extras|] == extras;
  }

  // ------------------------------------------------------------ lists

  /** What is read after an edit of a list that takes, or does not. */
  ghost predicate ListLaw(content: string, now: string, key: string, xs: seq<string>, takes: bool)
    requires Load(content).Ok?
  {
    && Load(now).Ok? && Load(now).value.body == Load(content).value.body
    && SameBut(Load(content).value.fields, Load(now).value.fields, key)
    && (Load(now).value.fields == Load(content).value.fields[key := Items(xs)] <==> takes)
  }

  lemma RewrittenParts(content: string, lines: seq<string>)
    requires PartsOf(content).Some? && Writable(lines)
    ensures var body := PartsOf(content).value.body; PartsOf(WriteParts(Parts(lines, body))) == Some(Parts(lines, body))
  {
    PartsWritable(content);
    WrittenParts(lines, PartsOf(content).value.body);
  }

  /** `set_scope` on any file that can be read: it can be read again, with the same body and the
      same other fields, and the scope reads as written if and only if the edit takes. */
  lemma ScopeTakesExactly(content: string, files: seq<string>)
    requires Load(content).Ok? && AllCleanItems(files) && BlockUnbroken(PartsOf(content).value.lines, "scope")
    ensures var r := EditContent(content, SetScope(files));
      && r.Some?
      && ListLaw(content, r.value, "scope", files,
                 Takes(PartsOf(content).value.lines, "scope", files, Load(content).value.fields))
  {
    var p, block := PartsOf(content).value, ScopeBlock(files);
    IdentifierClean("scope");
    FieldWrites("scope", files);
    FieldUnbroken("scope", files);
    FieldLinesGood(Field("scope", Items(files)));
    GoodInner(block);
    LoadsAs(content);
    PartsWritable(content);
    ReplaceAgrees(p.lines, "scope", block);
    ReplaceWritable(p.lines, "scope", block);
    RewrittenParts(content, Replace(p.lines, "scope", block));
    ReplaceTakesExactly(p.lines, "scope", block, files);
    ListLoads(content, EditContent(content, SetScope(files)).value, Replace(p.lines, "scope", block), "scope", files,
              Takes(p.lines, "scope", files, Load(content).value.fields));
  }

  /** What holds of the lines holds of the files. */
  lemma ListLoads(content: string, now: string, lines: seq<string>, key: string, xs: seq<string>, takes: bool)
    requires Load(content).Ok? && lines != [] && PartsOf(now) == Some(Parts(lines, PartsOf(content).value.body))
    requires !Read(lines).failed && SameBut(Load(content).value.fields, Read(lines).fields, key)
    requires Read(lines).fields == Load(content).value.fields[key := Items(xs)] <==> takes
    ensures ListLaw(content, now, key, xs, takes)
  {
    LoadsAs(content);
    LoadsAs(now);
  }

  lemma ChildrenInner(kids: seq<string>)
    requires AllCleanItems(kids)
    ensures Inner(ChildrenBlock(kids))
  {
    IdentifierClean("children");
    FieldLinesGood(Field("children", Items(kids)));
    assert "children" + ":" == "children:";
    GoodInner(PrintField(Field("children", Items(kids))));
  }

  lemma SetBlockWritable(lines: seq<string>, key: string, block: seq<string>)
    requires Writable(lines) && block != [] && Inner(block) && CleanKey(key)
    ensures Writable(SetBlock(lines, key, block))
  {
    ReplaceWritable(lines, key, block);
    AppendWritable(lines, block);
  }

  lemma ChildrenParts(content: string, kids: seq<string>)
    requires PartsOf(content).Some? && AllCleanItems(kids)
    ensures var r, p := EditContent(content, FileChildren(kids)), PartsOf(content).value;
      p.lines != [] && r.Some? && PartsOf(r.value) == Some(Parts(SetChildren(p.lines, kids), p.body))
  {
    var p := PartsOf(content).value;
    IdentifierClean("children");
    ChildrenInner(kids);
    PartsWritable(content);
    ChildrenAgrees(p.lines, kids);
    SetBlockWritable(p.lines, "children", ChildrenBlock(kids));
    RewrittenParts(content, SetChildren(p.lines, kids));
  }

  /** `set_children` on any file that can be read, for any children or none: a missing field is
      appended and always reads as written, an existing one is edited like a scope. */
  lemma ChildrenTakeExactly(content: string, kids: seq<string>)
    requires Load(content).Ok? && AllCleanItems(kids) && BlockUnbroken(PartsOf(content).value.lines, "children")
    ensures var r, lines := EditContent(content, FileChildren(kids)), PartsOf(content).value.lines;
      && r.Some?
      && ListLaw(content, r.value, "children", kids,
                 !HasKey(lines, "children") || Takes(lines, "children", kids, Load(content).value.fields))
  {
    var p, block := PartsOf(content).value, ChildrenBlock(kids);
    IdentifierClean("children");
    ChildrenWrite(kids);
    LoadsAs(content);
    ChildrenParts(content, kids);
    SetTakesExactly(p.lines, "children", block, kids);
    ListLoads(content, EditContent(content, FileChildren(kids)).value, SetChildren(p.lines, kids), "children", kids,
              !HasKey(p.lines, "children") || Takes(p.lines, "children", kids, Load(content).value.fields));
  }

  // ------------------------------------------------------------ files that an edit harms

  lemma GrowItem(secs: seq<Section>, x: string, key: string)
    requires secs != [] && CleanItem(x) && CleanKey(key)
    ensures GrowAll(secs, SplitLines("  - " + x), IsKeyLine("  - " + x, key)) == AddItems(secs, [x])
  {
    var line := "  - " + x;
    assert line[..4] == "  - " && line[4..] == x;
    StripTrims(x);
    ItemGood(x);
    UnbrokenWhole(line);
    assert [line][1..] == [];
  }

  lemma ItemGood(x: string)
    requires CleanItem(x)
    ensures GoodLine("  - " + x)
  {
    var line := "  - " + x;
    assert forall i :: 0 <= i < |line| ==> line[i] == if i < 4 then "  - "[i] else x[i - 4];
    assert line[0] == ' ';
  }

  lemma NameLine(key: string)
    requires CleanKey(key)
    ensures IsKeyLine(key + ":", key) && GoodLine(key + ":")
    ensures ColonAt(key + ":") < |key + ":"| && ValueOf(key + ":") == Items([])
  {
    KeyLineGood(key, "");
    assert key + ":" == key + ":" + "";
    ColonAtOf(key, ":");
    assert (key + ":")[|key| + 1..] == "";
  }

  /** A line that only names a field opens an empty list. */
  lemma GrowName(secs: seq<Section>, name: string, key: string)
    requires secs != [] && CleanKey(name) && CleanKey(key)
    ensures var own := IsKeyLine(name + ":", key);
      GrowAll(secs, SplitLines(name + ":"), own) == secs + [Section(name, Items([]), [], name == key)]
  {
    NameLine(name);
    if IsKeyLine(name + ":", key) {
      HeadKey(name, "", key);
      assert name + ":" + "" == name + ":";
    } else {
      NameLine(key);
    }
    GrowOne(secs, name + ":", name, name == key);
  }

  lemma GrowNamed(secs: seq<Section>, name: string, rest: seq<string>, key: string)
    requires secs != [] && CleanKey(name) && CleanKey(key)
    ensures GrowLines(secs, [name + ":"] + rest, key)
      == GrowLines(secs + [Section(name, Items([]), [], name == key)], rest, key)
  {
    GrowName(secs, name, key);
    GrowCons(secs, name + ":", rest, key);
  }

  lemma GrowListed(secs: seq<Section>, s: Section, x: string, key: string)
    requires CleanItem(x) && CleanKey(key) && s.items == []
    ensures GrowLines(secs + [s], ["  - " + x], key) == secs + [s.(items := [x])]
  {
    GrowItem(secs + [s], x, key);
    GrowCons(secs + [s], "  - " + x, [], key);
    assert ["  - " + x] + [] == ["  - " + x];
    AddToLast(secs, s, [x]);
    assert [] + [x] == [x];
  }

  lemma WritableFile(lines: seq<string>, key: string, body: string)
    requires Writable(lines) && '\r' !in body
    ensures var content := WriteParts(Parts(lines, body));
      PartsOf(content) == Some(Parts(lines, body)) && (Load(content).Ok? <==> Sound(SectionsOf(lines, key)))
  {
    WrittenParts(lines, body);
    ReadsAsSections(lines, key);
    LoadsAs(WriteParts(Parts(lines, body)));
  }

  /** A file of good lines is read as its sections. */
  lemma GoodFile(lines: seq<string>, key: string, body: string)
    requires lines != [] && '\r' !in body && forall i :: 0 <= i < |lines| ==> GoodLine(lines[i])
    ensures var content := WriteParts(Parts(lines, body));
      && PartsOf(content) == Some(Parts(lines, body)) && OwnUnbroken(lines, key)
      && (Load(content).Ok? <==> Sound(SectionsOf(lines, key)))
  {
    GoodInner(lines);
    InnerWritable(lines);
    WritableFile(lines, key, body);
  }

  function Listed(key: string, x: string): seq<string> {
    [key + ":"] + ["  - " + x]
  }

  lemma OneOwnList(key: string, x: string)
    requires CleanKey(key) && CleanItem(x)
    ensures SectionsOf(Listed(key, x), key) == [PREAMBLE] + [Section(key, Items([]), [x], true)]
    ensures forall i :: 0 <= i < |Listed(key, x)| ==> GoodLine(Listed(key, x)[i])
  {
    GrowNamed([PREAMBLE], key, ["  - " + x], key);
    GrowListed([PREAMBLE], Section(key, Items([]), [], true), x, key);
    NameLine(key);
    ItemGood(x);
  }

  lemma OwnListUnbearable(key: string, x: string)
    ensures var secs := [PREAMBLE] + [Section(key, Items([]), [x], true)]; Sound(secs) && !Bearable(secs)
  {
    var secs := [PREAMBLE] + [Section(key, Items([]), [x], true)];
    assert secs[1].mine && secs[1].items != [] && !AnyMine(secs[..1]);
  }

  /** A list where the status should be: once the status is set the file cannot be read any more. */
  lemma ListUnderStatus(x: string, body: string, status: string)
    requires CleanItem(x) && '\r' !in body && Json.Verbatim(status) && Unbroken(status)
    ensures var content := WriteParts(Parts(Listed("status", x), body));
      var r := EditContent(content, SetStatus(status, []));
      Load(content).Ok? && r.Some? && Load(r.value).Err?
  {
    IdentifierClean("status");
    OneOwnList("status", x);
    OwnListUnbearable("status", x);
    GoodFile(Listed("status", x), "status", body);
    StatusTakesExactly(WriteParts(Parts(Listed("status", x), body)), status);
  }

  function Twice(key: string, other: string, x: string): seq<string> {
    [key + ":"] + ([other + ":"] + ([key + ":"] + ["  - " + x]))
  }

  function TwiceSections(key: string, other: string, x: string): seq<Section> {
    var front := [PREAMBLE] + [Section(key, Items([]), [], true)] + [Section(other, Items([]), [], false)];
    front + [Section(key, Items([]), [x], true)]
  }

  lemma TwiceRead(key: string, other: string, x: string)
    requires CleanKey(key) && CleanKey(other) && key != other && CleanItem(x)
    ensures SectionsOf(Twice(key, other, x), key) == TwiceSections(key, other, x)
  {
    var a := [PREAMBLE] + [Section(key, Items([]), [], true)];
    var b := a + [Section(other, Items([]), [], false)];
    GrowNamed([PREAMBLE], key, [other + ":"] + ([key + ":"] + ["  - " + x]), key);
    GrowNamed(a, other, [key + ":"] + ["  - " + x], key);
    GrowNamed(b, key, ["  - " + x], key);
    GrowListed(b, Section(key, Items([]), [], true), x, key);
  }

  lemma TwiceGood(key: string, other: string, x: string)
    requires CleanKey(key) && CleanKey(other) && CleanItem(x)
    ensures forall i :: 0 <= i < |Twice(key, other, x)| ==> GoodLine(Twice(key, other, x)[i])
  {
    NameLine(key);
    NameLine(other);
    ItemGood(x);
  }

  lemma TwiceDisturbs(key: string, other: string, x: string)
    requires key != other && other != ""
    ensures var secs := TwiceSections(key, other, x);
      Sound(secs) && Bearable(secs) && !Undisturbed(secs, key)
  {
    var secs := TwiceSections(key, other, x);
    assert AnyMine(secs[..3]) by { assert secs[..3][1].mine; }
    assert Host(secs, 3) == 2;
    assert FallsTo(secs, 3, other);
    assert Disturbed(secs, other);
  }

  /** Another field changes: the second line of the status vanishes, and the item below it joins the
      field before. */
  lemma ItemChangesField(x: string, body: string, status: string)
    requires CleanItem(x) && '\r' !in body && Json.Verbatim(status) && Unbroken(status)
    ensures var content := WriteParts(Parts(Twice("status", "related", x), body));
      var r := EditContent(content, SetStatus(status, []));
      && Load(content).Ok? && r.Some? && Load(r.value).Ok?
      && !SameBut(Load(content).value.fields, Load(r.value).value.fields, "status")
  {
    var lines := Twice("status", "related", x);
    IdentifierClean("status");
    IdentifierClean("related");
    TwiceRead("status", "related", x);
    TwiceGood("status", "related", x);
    TwiceDisturbs("status", "related", x);
    GoodFile(lines, "status", body);
    StatusTakesExactly(WriteParts(Parts(lines, body)), status);
  }

  /** A line break for the reader that is none for the editors. */
  const RARE_BREAK: string := "\U{2028}"

  lemma SplitRare(a: string, b: string)
    requires Unbroken(a) && Unbroken(b) && a != "" && b != ""
    ensures SplitLines(a + (RARE_BREAK + b)) == [a, b]
  {
    var s := a + (RARE_BREAK + b);
    BreakAtOf(a, RARE_BREAK + b);
    assert s[..|a|] == a && s[|a| + 1..] == b;
    UnbrokenWhole(b);
  }

  lemma RarePlain(a: string, b: string)
    requires GoodLine(a) && GoodLine(b)
    ensures Plain(a + (RARE_BREAK + b)) && a + (RARE_BREAK + b) != "---"
  {
    var s := a + (RARE_BREAK + b);
    assert s[|a|] == RARE_BREAK[0];
    assert forall i :: 0 <= i < |s| ==>
      s[i] == if i < |a| then a[i] else if i == |a| then RARE_BREAK[0] else b[i - |a| - 1];
  }

  lemma RareSections(secs: seq<Section>, b: string, name: string, key: string, mine: bool)
    requires secs != [] && CleanKey(name) && CleanKey(key) && Unbroken(b) && IsKeyLine(b, key)
    ensures Sets(b) && GrowAll(secs, SplitLines(name + ":" + (RARE_BREAK + b)), mine)
      == secs + [Section(name, Items([]), [], mine)] + [Section(key, ValueOf(b), [], mine)]
  {
    var first, mid := name + ":", secs + [Section(name, Items([]), [], mine)];
    NameLine(name);
    SplitRare(first, b);
    GrowOne(secs, first, name, mine);
    GrowOne(mid, b, key, mine);
    OwnLine(first, name);
    OwnLine(b, key);
    assert [first, b][1..] == [b];
  }

  /** A line of the field that only the reader sees, behind a rarer line break. */
  function Hidden(key: string, other: string, b: string): seq<string> {
    [key + ": []"] + [other + ":" + (RARE_BREAK + b)]
  }

  lemma HiddenMatch(key: string, other: string, b: string)
    requires CleanKey(key) && CleanKey(other) && key != other && Unbroken(b) && IsKeyLine(b, key)
    ensures var lines, second := Hidden(key, other, b), [other + ":" + (RARE_BREAK + b)];
      HasBlock(lines, key) && AfterBlock(lines, key) == second && BlockLines(lines, key) == [key + ": []"]
  {
    var second := other + ":" + (RARE_BREAK + b);
    EmptyRefound(key);
    NoItem(second, other);
    assert MatchLines([key + ": []"] + [second], key) == Some([second]);
    assert CutLines(Hidden(key, other, b), key) == [key + ": []"];
  }

  lemma HiddenReset(key: string, other: string, b: string)
    requires CleanKey(key) && CleanKey(other) && key != other && Unbroken(b) && IsKeyLine(b, key)
    requires Sets(b) && !ValueOf(b).Items?
    ensures Reset(Pieces([other + ":" + (RARE_BREAK + b)]), key) == Some(ValueOf(b))
  {
    var first := other + ":";
    NameLine(other);
    OwnLine(b, key);
    OwnLine(first, other);
    SplitRare(first, b);
    var all := [first + (RARE_BREAK + b)];
    assert all[0] == first + (RARE_BREAK + b) && all[1..] == [];
    assert Pieces(all) == [first, b] + [];
    ResetLast(b, key);
    assert ([first, b] + [])[1..] == [b];
  }

  lemma ResetLast(b: string, key: string)
    requires SetsField(b, key) && !ValueOf(b).Items?
    ensures Reset([b], key) == Some(ValueOf(b))
  {
    assert [b][1..] == [];
  }

  lemma RareLine(name: string, b: string, key: string)
    requires CleanKey(name) && CleanKey(key) && Unbroken(b) && IsKeyLine(b, key)
    ensures Plain(name + ":" + (RARE_BREAK + b)) && name + ":" + (RARE_BREAK + b) != "---"
  {
    NameLine(name);
    assert b != "---" by { assert b == "---" ==> ColonAt(b) == |b|; OwnLine(b, key); }
    RarePlain(name + ":", b);
  }

  lemma HiddenSections(key: string, other: string, b: string)
    requires CleanKey(key) && CleanKey(other) && key != other && Unbroken(b) && IsKeyLine(b, key)
    ensures Sound(SectionsOf(Hidden(key, other, b), key))
  {
    var first, second := key + ": []", other + ":" + (RARE_BREAK + b);
    FieldUnbroken(key, []);
    assert PrintField(Field(key, Items([])))[0] == first;
    assert first[..|key| + 1] == key + ":";
    GrowOne([PREAMBLE], first, key, true);
    var secs := [PREAMBLE] + [Section(key, ValueOf(first), [], true)];
    GrowCons([PREAMBLE], first, [second], key);
    HeaderSound(key, ValueOf(first));
    SecondSound(secs, second, key, other, b);
  }

  lemma HeaderSound(key: string, v: Value)
    ensures Sound([PREAMBLE] + [Section(key, v, [], true)])
  {}

  lemma SecondSound(secs: seq<Section>, second: string, key: string, other: string, b: string)
    requires secs != [] && Sound(secs) && second == other + ":" + (RARE_BREAK + b)
    requires CleanKey(key) && CleanKey(other) && Unbroken(b) && IsKeyLine(b, key)
    ensures Sound(GrowLines(secs, [second], key))
  {
    var mine := IsKeyLine(second, key);
    RareSections(secs, b, other, key, mine);
    GrowCons(secs, second, [], key);
    assert [second] + [] == [second];
    var s := Section(other, Items([]), [], mine);
    SoundSnoc(secs, s);
    SoundSnoc(secs + [s], Section(key, ValueOf(b), [], mine));
  }

  /** A scope set behind a rarer line break stays what the reader sees, whatever scope is set. */
  lemma HiddenScopeStays(other: string, b: string, body: string, files: seq<string>)
    requires CleanKey(other) && other != "scope" && Unbroken(b) && IsKeyLine(b, "scope")
    requires Sets(b) && !ValueOf(b).Items?
    requires '\r' !in body && AllCleanItems(files)
    ensures var content := WriteParts(Parts(Hidden("scope", other, b), body));
      var r := EditContent(content, SetScope(files));
      && Load(content).Ok? && r.Some? && Load(r.value).Ok?
      && Load(r.value).value.fields != Load(content).value.fields["scope" := Items(files)]
  {
    var lines := Hidden("scope", other, b);
    IdentifierClean("scope");
    FieldUnbroken("scope", []);
    FieldLinesGood(Field("scope", Items([])));
    assert PrintField(Field("scope", Items([]))) == ["scope" + ": []"];
    RareLine(other, b, "scope");
    WritableCons(lines[0], [lines[1]]);
    HiddenSections("scope", other, b);
    WritableFile(lines, "scope", body);
    HiddenMatch("scope", other, b);
    HiddenReset("scope", other, b);
    ScopeTakesExactly(WriteParts(Parts(lines, body)), files);
  }

  /** A field set behind a rarer line break in the line of the status is lost with it: this is what
      the laws ask to be absent from the lines that an edit replaces. */
  lemma LineTakesFieldAlong(other: string, b: string, body: string, status: string)
    requires CleanKey(other) && other != "status" && Unbroken(b) && IsKeyLine(b, other)
    requires '\r' !in body && Json.Verbatim(status) && Unbroken(status)
    ensures var content := WriteParts(Parts(["status:" + (RARE_BREAK + b)], body));
      var r := EditContent(content, SetStatus(status, []));
      && Load(content).Ok? && other in Load(content).value.fields
      && r.Some? && Load(r.value).Ok? && other !in Load(r.value).value.fields
  {
    var line, key := "status" + ":" + (RARE_BREAK + b), "status";
    var content, now := WriteParts(Parts([line], body)), [StatusLine(status), ""];
    IdentifierClean(key);
    RareLine(key, b, other);
    WritableCons(line, []);
    assert [line] + [] == [line] && line == "status:" + (RARE_BREAK + b);
    WritableFile([line], other, body);
    OneLineAlong(line, b, other);
    StatusNames(status);
    NamesGood(StatusLine(status), key, Text(status));
    assert line[..7] == "status:";
    assert Upsert([line], key, StatusLine(status)) == now by { assert IsKeyLine([line][0], key); }
    UpsertParts(content, key, StatusLine(status));
    OnlyStatus(StatusLine(status), Text(status));
    ReadsAsSections(now, key);
    ReadsAsSections([line], other);
    LoadsAs(content);
    assert EditContent(content, SetStatus(status, [])) == UpsertContent(content, key, StatusLine(status));
    LoadsAs(UpsertContent(content, key, StatusLine(status)).value);
  }

  lemma OneLineAlong(line: string, b: string, other: string)
    requires line == "status" + ":" + (RARE_BREAK + b) && CleanKey(other) && Unbroken(b) && IsKeyLine(b, other)
    ensures var secs := SectionsOf([line], other); Sound(secs) && other in Contents(secs)
  {
    IdentifierClean("status");
    RareSections([PREAMBLE], b, "status", other, IsKeyLine(line, other));
    GrowCons([PREAMBLE], line, [], other);
    assert [line] + [] == [line];
    var mine := IsKeyLine(line, other);
    ContentsSnoc([PREAMBLE] + [Section("status", Items([]), [], mine)], Section(other, ValueOf(b), [], mine));
  }

  lemma OnlyStatus(line: string, v: Value)
    requires Names(line, "status", v)
    ensures Contents(SectionsOf([line, ""], "status")) == map["status" := v]
    ensures Sound(SectionsOf([line, ""], "status"))
  {
    IdentifierClean("status");
    GrowOne([PREAMBLE], line, "status", true);
    GrowCons([PREAMBLE], line, [""], "status");
    assert [line] + [""] == [line, ""];
    var s := Section("status", v, [], true);
    GrowBlank([PREAMBLE] + [s], "status");
    ContentsSnoc([PREAMBLE], s);
  }
}
