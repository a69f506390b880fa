/** A ticket file over its life (fleet/fleet.py): generated once, then edited in place any number
    of times, by status, scope and children. */
module TicketFiles {
  import opened Wrappers
  import opened TextLines
  import opened FrontMatter
  import opened Rendering
  import opened Editing
  import opened Blocks
  import opened Sections
  import opened Sequences
  import Json

  // ------------------------------------------------------------ the edits, on the text of a file

  datatype Extra = Extra(key: string, value: string)

  datatype Edit =
    | SetStatus(status: string, extras: seq<Extra>)
    | SetScope(files: seq<string>)
    | FileChildren(kids: seq<string>)

  function StatusLine(status: string): string {
    "status: \"" + status + "\""
  }

  /** Booleans stay bare, so that they read back as booleans. */
  function ExtraLine(x: Extra): string {
    x.key + ": " + if x.value == "true" || x.value == "false" then x.value else Json.Dumps(x.value)
  }

  function EditExtras(fm: string, extras: seq<Extra>): string {
    if extras == [] then fm
    else
      var n := |extras| - 1;
      UpsertText(EditExtras(fm, extras[..n]), extras[n].key, ExtraLine(extras[n]))
  }

  function EditFront(fm: string, e: Edit): string {
    match e
    case SetStatus(status, extras) => EditExtras(UpsertText(fm, "status", StatusLine(status)), extras)
    case SetScope(files) => ScopeText(fm, files)
    case FileChildren(kids) => ChildrenText(fm, kids)
  }

  /** The file after an edit; a file without front matter makes the editor fail. */
  function EditContent(content: string, e: Edit): Option<string> {
    match ReadParts(ReadText(content))
    case None => None
    case Some(Parts(lines, body)) => Some("---\n" + (EditFront(Join(lines), e) + (END_MARK + body)))
  }

  function EditAll(content: string, edits: seq<Edit>): Option<string> {
    if edits == [] then Some(content)
    else match EditAll(content, edits[..|edits| - 1])
      case Some(c) => EditContent(c, edits[|edits| - 1])
      case None => None
  }

  /** A ticket file on disk and the three editors. */
  class TicketFile {
    var content: string

    constructor (text: string)
      ensures content == text
    {
      content := text;
    }

    method SetStatusField(status: string, extras: seq<Extra>) returns (ok: bool)
      modifies this
      ensures var r := EditContent(old(content), SetStatus(status, extras));
        ok == r.Some? && content == r.GetOr(old(content))
    {
      match ReadParts(ReadText(content)) {
        case None => ok := false;
        case Some(Parts(lines, body)) =>
          var fm := UpsertText(Join(lines), "status", StatusLine(status));
          ghost var start := fm;
          for i := 0 to |extras|
            invariant fm == EditExtras(start, extras[..i])
            invariant content == old(content)
          {
            fm := UpsertText(fm, extras[i].key, ExtraLine(extras[i]));
            assert extras[..i + 1][..i] == extras[..i];
          }
          assert extras[..|extras|] == extras;
          content := "---\n" + (fm + (END_MARK + body));
          ok := true;
      }
    }

    method SetScopeBlock(files: seq<string>) returns (ok: bool)
      modifies this
      ensures var r := EditContent(old(content), SetScope(files));
        ok == r.Some? && content == r.GetOr(old(content))
    {
      match ReadParts(ReadText(content)) {
        case None => ok := false;
        case Some(Parts(lines, body)) =>
          content := "---\n" + (ScopeText(Join(lines), files) + (END_MARK + body));
          ok := true;
      }
    }

    method SetChildrenBlock(kids: seq<string>) returns (ok: bool)
      modifies this
      ensures var r := EditContent(old(content), FileChildren(kids));
        ok == r.Some? && content == r.GetOr(old(content))
    {
      match ReadParts(ReadText(content)) {
        case None => ok := false;
        case Some(Parts(lines, body)) =>
          content := "---\n" + (ChildrenText(Join(lines), kids) + (END_MARK + body));
          ok := true;
      }
    }
  }

  // ------------------------------------------------------------ front matter as entries

  datatype Entry = Blank | Kept(field: Field) {
    predicate Has(key: string) {
      Kept? && field.key == key
    }
  }

  function EntryLines(e: Entry): (lines: seq<string>)
    ensures lines != []
  {
    match e
    case Blank => [""]
    case Kept(f) => PrintField(f)
  }

  function Lines(es: seq<Entry>): seq<string> {
    if es == [] then [] else Lines(es[..|es| - 1]) + EntryLines(es[|es| - 1])
  }

  function Fields(m: map<string, Value>, es: seq<Entry>): map<string, Value> {
    if es == [] then m
    else
      var before := Fields(m, es[..|es| - 1]);
      match es[|es| - 1]
      case Blank => before
      case Kept(f) => before[f.key := f.value]
  }

  const LIST_KEYS: set<string> := {"scope", "tests", "related", "children", "depends_on"}

  predicate CleanEntry(e: Entry) {
    e.Kept? ==>
      CleanKey(e.field.key) && CleanItems(e.field.value) && (e.field.value.Items? <==> e.field.key in LIST_KEYS)
  }

  /** Fields are distinct, and lists exactly where the program keeps lists. */
  predicate Tidy(es: seq<Entry>) {
    && es != [] && (forall i :: 0 <= i < |es| ==> CleanEntry(es[i]))
    && forall i, j :: 0 <= i < j < |es| && es[i].Kept? ==> !es[j].Has(es[i].field.key)
  }

  predicate Lacks(es: seq<Entry>, key: string) {
    forall i :: 0 <= i < |es| ==> !es[i].Has(key)
  }

  function IndexOf(es: seq<Entry>, key: string): (i: nat)
    ensures i <= |es| && (i < |es| ==> es[i].Has(key)) && Lacks(es[..i], key)
  {
    if es == [] || es[0].Has(key) then 0
    else
      var i := 1 + IndexOf(es[1..], key);
      assert forall k :: 0 < k < i ==> es[..i][k] == es[1..][..i - 1][k - 1];
      i
  }

  function Trim(es: seq<Entry>): seq<Entry> {
    if es != [] && es[|es| - 1].Blank? then Trim(es[..|es| - 1]) else es
  }

  /** What a one-line edit does to the entries. */
  function PutScalar(es: seq<Entry>, f: Field): seq<Entry> {
    var i := IndexOf(es, f.key);
    if i < |es| then es[..i] + [Kept(f)] + if i + 1 == |es| then [Blank] else es[i + 1..]
    else (if Trim(es) == [] then [Blank] else Trim(es)) + [Kept(f)]
  }

  /** What a block edit does; `append` says whether a missing field is added. */
  function PutList(es: seq<Entry>, f: Field, append: bool): seq<Entry> {
    var i := IndexOf(es, f.key);
    if i < |es| then es[..i] + [Kept(f)] + es[i + 1..]
    else if append then es + [Kept(f)]
    else es
  }

  // ------------------------------------------------------------ lines of entries

  lemma {:induction false} LinesAppend(a: seq<Entry>, b: seq<Entry>)
    ensures Lines(a + b) == Lines(a) + Lines(b)
    decreases |b|
  {
    if b == [] {
      assert a + b == a && Lines(a) + [] == Lines(a);
    } else {
      var n := |b| - 1;
      LinesAppend(a, b[..n]);
      SnocPrefix(a, b);
      Assoc(Lines(a), Lines(b[..n]), EntryLines(b[n]));
    }
  }

  lemma LinesOne(e: Entry)
    ensures Lines([e]) == EntryLines(e)
  {
    assert [e][..0] == [];
  }

  lemma HeadKey(key: string, rest: string, other: string)
    requires CleanKey(key) && CleanKey(other) && IsKeyLine(key + ":" + rest, other)
    ensures key == other
  {
    var line := key + ":" + rest;
    var more := line[|other| + 1..];
    ColonAtOf(key, ":" + rest);
    assert line == key + (":" + rest);
    ColonAtOf(other, ":" + more);
    assert line == line[..|other| + 1] + more == other + (":" + more);
    assert line[..|key|] == key && line[..|other|] == other;
  }

  lemma ItemNotKey(x: string, key: string)
    requires CleanKey(key)
    ensures !IsKeyLine("  - " + x, key)
  {
    var line := "  - " + x;
    assert line[0] == ' ';
    if |key| < |line| { assert line[..|key| + 1][0] == ' ' != key[0]; }
  }

  lemma FieldLacks(f: Field, key: string)
    requires CleanKey(f.key) && CleanKey(key) && f.key != key
    ensures !HasKey(PrintField(f), key)
  {
    var lines := PrintField(f);
    forall i | 0 <= i < |lines| ensures !IsKeyLine(lines[i], key) {
      if i > 0 {
        ItemNotKey(f.value.items[i - 1], key);
      } else if IsKeyLine(lines[0], key) {
        var rest := lines[0][|f.key| + 1..];
        assert lines[0] == f.key + ":" + rest;
        HeadKey(f.key, rest, key);
      }
    }
  }

  predicate NamedCleanly(es: seq<Entry>) {
    forall i :: 0 <= i < |es| && es[i].Kept? ==> CleanKey(es[i].field.key)
  }

  lemma HasKeyAppend(a: seq<string>, b: seq<string>, key: string)
    ensures HasKey(a + b, key) <==> HasKey(a, key) || HasKey(b, key)
  {
    CountAppend(a, b, key);
    CountZero(a, key);
    CountZero(b, key);
    CountZero(a + b, key);
  }

  lemma {:induction false} LinesLack(es: seq<Entry>, key: string)
    requires NamedCleanly(es) && CleanKey(key) && Lacks(es, key)
    ensures !HasKey(Lines(es), key)
    decreases |es|
  {
    if es != [] {
      var n := |es| - 1;
      LinesLack(es[..n], key);
      if es[n].Kept? { FieldLacks(es[n].field, key); }
      HasKeyAppend(Lines(es[..n]), EntryLines(es[n]), key);
    }
  }

  lemma ScalarLine(f: Field)
    requires !f.value.Items?
    ensures |PrintField(f)| == 1 && IsKeyLine(PrintField(f)[0], f.key)
  {
    assert PrintField(f)[0][..|f.key| + 1] == f.key + ":";
  }

  /** Lines that do not name the field are passed over. */
  lemma {:induction false} SubAfter(head: seq<string>, lines: seq<string>, key: string, line: string, first: bool)
    requires lines != [] && !HasKey(head, key)
    ensures Sub(head + lines, key, line, first) == head + Sub(lines, key, line, first)
    decreases |head|
  {
    var all, sub := head + lines, Sub(lines, key, line, first);
    if head == [] {
      assert all == lines && head + sub == sub;
    } else {
      HasKeyCons(head, key);
      assert all[0] == head[0] && all[1..] == head[1..] + lines;
      SubAfter(head[1..], lines, key, line, first);
      assert [head[0]] + (head[1..] + sub) == head + sub;
    }
  }

  lemma {:induction false} SubNone(lines: seq<string>, key: string, line: string, first: bool)
    requires lines != [] && !HasKey(lines, key)
    ensures Sub(lines, key, line, first) == lines
  {
    HasKeyCons(lines, key);
    if |lines| > 1 { SubNone(lines[1..], key, line, first); }
  }

  lemma LastNotBlank(f: Field)
    ensures var b := PrintField(f); b[|b| - 1] != ""
  {}

  lemma {:induction false} TrimLines(es: seq<Entry>)
    ensures DropBlank(Lines(es)) == Lines(Trim(es))
    decreases |es|
  {
    if es != [] {
      var n := |es| - 1;
      var a, b := Lines(es[..n]), EntryLines(es[n]);
      assert (a + b)[|a + b| - 1] == b[|b| - 1];
      if es[n].Blank? {
        TrimLines(es[..n]);
        assert (a + b)[..|a|] == a;
      } else {
        LastNotBlank(es[n].field);
      }
    }
  }

  lemma {:induction false} TrimPrefix(es: seq<Entry>)
    ensures |Trim(es)| <= |es| && Trim(es) == es[..|Trim(es)|]
  {
    if es != [] && es[|es| - 1].Blank? { TrimPrefix(es[..|es| - 1]); }
  }

  // ------------------------------------------------------------ an edit of the text is an edit of the entries

  lemma LacksAfter(es: seq<Entry>, key: string)
    requires Tidy(es) && IndexOf(es, key) < |es|
    ensures Lacks(es[IndexOf(es, key) + 1..], key)
  {
    var i := IndexOf(es, key);
    var after := es[i + 1..];
    forall j | 0 <= j < |after| ensures !after[j].Has(key) {
      assert es[i].Kept? && !es[i + 1 + j].Has(es[i].field.key);
    }
  }

  /** One line among others that do not name the field. */
  lemma UpsertMiddle(a: seq<string>, was: string, b: seq<string>, key: string, line: string)
    requires IsKeyLine(was, key) && !HasKey(a, key) && !HasKey(b, key)
    ensures Upsert(a + ([was] + b), key, line) == a + ([line] + if b == [] then [""] else b)
  {
    var mid := [was] + b;
    assert mid[0] == was && mid[1..] == b;
    HasKeyAt(mid, 0, key);
    HasKeyAppend(a, mid, key);
    SubAfter(a, mid, key, line, true);
    if b != [] { SubNone(b, key, line, false); }
  }

  lemma {:induction false} LinesEmpty(es: seq<Entry>)
    ensures Lines(es) == [] <==> es == []
  {}

  /** The lines of three runs of entries. */
  lemma LinesAround(a: seq<Entry>, e: Entry, b: seq<Entry>)
    ensures Lines(a + [e] + b) == Lines(a) + (EntryLines(e) + Lines(b))
  {
    LinesAppend(a + [e], b);
    LinesAppend(a, [e]);
    LinesOne(e);
  }

  lemma ScalarReplaced(a: seq<Entry>, g: Field, b: seq<Entry>, f: Field)
    requires NamedCleanly(a) && NamedCleanly(b) && CleanKey(f.key) && g.key == f.key
    requires Lacks(a, f.key) && Lacks(b, f.key) && !f.value.Items? && !g.value.Items?
    ensures Lines(a + [Kept(g)] + b) != []
    ensures Upsert(Lines(a + [Kept(g)] + b), f.key, PrintField(f)[0])
      == Lines(a + [Kept(f)] + if b == [] then [Blank] else b)
  {
    var was, line := PrintField(g)[0], PrintField(f)[0];
    LinesAround(a, Kept(g), b);
    LinesAround(a, Kept(f), if b == [] then [Blank] else b);
    LinesOne(Blank);
    LinesEmpty(b);
    LinesLack(a, f.key);
    LinesLack(b, f.key);
    ScalarLine(g);
    assert PrintField(g) == [was] && PrintField(f) == [line];
    UpsertMiddle(Lines(a), was, Lines(b), f.key, line);
  }

  lemma ScalarAppended(es: seq<Entry>, f: Field)
    requires es != [] && NamedCleanly(es) && CleanKey(f.key) && Lacks(es, f.key) && !f.value.Items?
    ensures Lines(es) != []
    ensures Upsert(Lines(es), f.key, PrintField(f)[0])
      == Lines((if Trim(es) == [] then [Blank] else Trim(es)) + [Kept(f)])
  {
    LinesEmpty(es);
    LinesLack(es, f.key);
    TrimLines(es);
    LinesEmpty(Trim(es));
    LinesOne(Blank);
    LinesOne(Kept(f));
    LinesAppend(if Trim(es) == [] then [Blank] else Trim(es), [Kept(f)]);
    assert PrintField(f) == [PrintField(f)[0]];
  }

  lemma PutScalarLines(es: seq<Entry>, f: Field)
    requires Tidy(es) && CleanEntry(Kept(f)) && !f.value.Items?
    ensures Lines(es) != [] && Upsert(Lines(es), f.key, PrintField(f)[0]) == Lines(PutScalar(es, f))
  {
    var i := IndexOf(es, f.key);
    if i < |es| {
      LacksAfter(es, f.key);
      assert CleanEntry(es[i]);
      assert es == es[..i] + [Kept(es[i].field)] + es[i + 1..];
      ScalarReplaced(es[..i], es[i].field, es[i + 1..], f);
    } else {
      assert es[..i] == es;
      ScalarAppended(es, f);
    }
  }

  lemma {:induction false} LinesHead(es: seq<Entry>)
    requires NamedCleanly(es)
    ensures Lines(es) == [] || !IsItem(Lines(es)[0])
    decreases |es|
  {
    if es != [] {
      var n := |es| - 1;
      LinesHead(es[..n]);
      if Lines(es[..n]) == [] && es[n].Kept? {
        var key := es[n].field.key;
        assert PrintField(es[n].field)[0][0] == key[0] != ' ';
        assert ("  - ")[0] == ' ';
      }
    }
  }

  lemma ListReplaced(a: seq<Entry>, g: Field, b: seq<Entry>, f: Field)
    requires NamedCleanly(a) && NamedCleanly(b) && CleanKey(f.key) && g.key == f.key
    requires Lacks(a, f.key) && Lacks(b, f.key) && f.value.Items? && g.value.Items?
    ensures var lines := Lines(a + [Kept(g)] + b);
      lines != [] && HasKey(lines, f.key) && Replace(lines, f.key, PrintField(f)) == Lines(a + [Kept(f)] + b)
  {
    var key, la, lb := f.key, Lines(a), Lines(b);
    var was, block := PrintField(g), PrintField(f);
    var rest := was + lb;
    LinesAround(a, Kept(g), b);
    LinesAround(a, Kept(f), b);
    LinesLack(a, key);
    LinesHead(b);
    FieldRefound(key, g.value.items);
    assert MatchLines(rest, key) == Some(lb);
    ReplaceAfter(la, rest, key, block);
    HasKeyAt(rest, 0, key);
    HasKeyAppend(la, rest, key);
  }

  lemma ListMissing(es: seq<Entry>, f: Field)
    requires es != [] && NamedCleanly(es) && CleanKey(f.key) && Lacks(es, f.key) && f.value.Items?
    ensures var lines := Lines(es);
      && lines != [] && !HasKey(lines, f.key)
      && Replace(lines, f.key, PrintField(f)) == lines && lines + PrintField(f) == Lines(es + [Kept(f)])
  {
    LinesEmpty(es);
    LinesLack(es, f.key);
    NoKeyNoBlock(Lines(es), f.key);
    ReplaceNone(Lines(es), f.key, PrintField(f));
    LinesAppend(es, [Kept(f)]);
    LinesOne(Kept(f));
  }

  lemma PutListLines(es: seq<Entry>, f: Field)
    requires Tidy(es) && CleanEntry(Kept(f)) && f.value.Items?
    ensures Lines(es) != [] && Replace(Lines(es), f.key, PrintField(f)) == Lines(PutList(es, f, false))
    ensures SetBlock(Lines(es), f.key, PrintField(f)) == Lines(PutList(es, f, true))
  {
    var i := IndexOf(es, f.key);
    if i < |es| {
      LacksAfter(es, f.key);
      assert CleanEntry(es[i]);
      assert es == es[..i] + [Kept(es[i].field)] + es[i + 1..];
      ListReplaced(es[..i], es[i].field, es[i + 1..], f);
    } else {
      assert es[..i] == es;
      ListMissing(es, f);
    }
  }

  lemma {:induction false} NoKeyNoBlock(lines: seq<string>, key: string)
    requires !HasKey(lines, key)
    ensures !HasBlock(lines, key)
  {
    if lines != [] {
      HasKeyCons(lines, key);
      NoKeyNoBlock(lines[1..], key);
    }
  }

  // ------------------------------------------------------------ what an edit of the entries means

  lemma {:induction false} FieldsAppend(m: map<string, Value>, a: seq<Entry>, b: seq<Entry>)
    ensures Fields(m, a + b) == Fields(Fields(m, a), b)
    decreases |b|
  {
    if b == [] {
      assert a + b == a;
    } else {
      FieldsAppend(m, a, b[..|b| - 1]);
      assert (a + b)[..|a + b| - 1] == a + b[..|b| - 1];
    }
  }

  lemma FieldsOne(m: map<string, Value>, e: Entry)
    ensures Fields(m, [e]) == if e.Kept? then m[e.field.key := e.field.value] else m
  {
    assert [e][..0] == [];
  }

  lemma {:induction false} FieldsCommute(m: map<string, Value>, key: string, v: Value, es: seq<Entry>)
    requires Lacks(es, key)
    ensures Fields(m[key := v], es) == Fields(m, es)[key := v]
    decreases |es|
  {
    if es != [] {
      var n := |es| - 1;
      FieldsCommute(m, key, v, es[..n]);
      assert !es[n].Has(key);
    }
  }

  lemma {:induction false} FieldsTrim(m: map<string, Value>, es: seq<Entry>)
    ensures Fields(m, Trim(es)) == Fields(m, es)
    decreases |es|
  {
    if es != [] && es[|es| - 1].Blank? { FieldsTrim(m, es[..|es| - 1]); }
  }

  lemma FieldsAround(m: map<string, Value>, a: seq<Entry>, f: Field, b: seq<Entry>)
    requires Lacks(b, f.key)
    ensures Fields(m, a + [Kept(f)] + b) == Fields(Fields(m, a), b)[f.key := f.value]
  {
    FieldsAppend(m, a + [Kept(f)], b);
    FieldsAppend(m, a, [Kept(f)]);
    FieldsOne(Fields(m, a), Kept(f));
    FieldsCommute(Fields(m, a), f.key, f.value, b);
  }

  lemma FieldsSwapped(m: map<string, Value>, a: seq<Entry>, g: Field, b: seq<Entry>, f: Field)
    requires g.key == f.key && Lacks(b, f.key)
    ensures Fields(m, a + [Kept(f)] + b) == Fields(m, a + [Kept(g)] + b)[f.key := f.value]
  {
    FieldsAround(m, a, f, b);
    FieldsAround(m, a, g, b);
    var base := Fields(Fields(m, a), b);
    assert base[f.key := g.value][f.key := f.value] == base[f.key := f.value];
  }

  lemma AroundIndex(es: seq<Entry>, key: string)
    requires IndexOf(es, key) < |es|
    ensures var i := IndexOf(es, key); es == es[..i] + [Kept(es[i].field)] + es[i + 1..] && es[i].field.key == key
  {
    SplitAt(es, IndexOf(es, key));
  }

  /** Replacing an entry where it stands sets its field and nothing else. */
  lemma FieldsReplaced(m: map<string, Value>, es: seq<Entry>, f: Field)
    requires Tidy(es) && IndexOf(es, f.key) < |es|
    ensures var i := IndexOf(es, f.key);
      Fields(m, es[..i] + [Kept(f)] + es[i + 1..]) == Fields(m, es)[f.key := f.value]
  {
    var i := IndexOf(es, f.key);
    AroundIndex(es, f.key);
    LacksAfter(es, f.key);
    FieldsSwapped(m, es[..i], es[i].field, es[i + 1..], f);
  }

  lemma {:induction false} FieldPresent(es: seq<Entry>, key: string)
    ensures key in Fields(map[], es) <==> IndexOf(es, key) < |es|
  {
    FieldPresentLacks(es, key);
    if IndexOf(es, key) == |es| { assert es[..|es|] == es; }
  }

  lemma {:induction false} FieldPresentLacks(es: seq<Entry>, key: string)
    ensures key in Fields(map[], es) <==> !Lacks(es, key)
    decreases |es|
  {
    if es != [] {
      var n := |es| - 1;
      FieldPresentLacks(es[..n], key);
      assert Lacks(es, key) <==> Lacks(es[..n], key) && !es[n].Has(key) by {
        assert forall i :: 0 <= i < n ==> es[..n][i] == es[i];
      }
    }
  }

  lemma PutScalarFields(es: seq<Entry>, f: Field)
    requires Tidy(es)
    ensures Fields(map[], PutScalar(es, f)) == Fields(map[], es)[f.key := f.value]
  {
    var i := IndexOf(es, f.key);
    if i < |es| {
      FieldsReplaced(map[], es, f);
      var a := es[..i] + [Kept(f)];
      if i + 1 == |es| {
        assert a + es[i + 1..] == a;
        FieldsAppend(map[], a, [Blank]);
        FieldsOne(Fields(map[], a), Blank);
      }
    } else {
      FieldsTrim(map[], es);
      FieldsOne(map[], Blank);
      var kept := if Trim(es) == [] then [Blank] else Trim(es);
      FieldsAppend(map[], kept, [Kept(f)]);
      FieldsOne(Fields(map[], kept), Kept(f));
    }
  }

  lemma PutListFields(es: seq<Entry>, f: Field, append: bool)
    requires Tidy(es)
    ensures var m := Fields(map[], es);
      Fields(map[], PutList(es, f, append)) == if f.key in m || append then m[f.key := f.value] else m
  {
    FieldPresent(es, f.key);
    if IndexOf(es, f.key) < |es| {
      FieldsReplaced(map[], es, f);
    } else {
      FieldsAppend(map[], es, [Kept(f)]);
      FieldsOne(Fields(map[], es), Kept(f));
    }
  }

  lemma TidySnoc(es: seq<Entry>, e: Entry)
    requires es == [] || Tidy(es)
    requires CleanEntry(e) && (e.Kept? ==> Lacks(es, e.field.key))
    ensures Tidy(es + [e])
  {}

  lemma TidyUpdated(es: seq<Entry>, i: nat, f: Field)
    requires Tidy(es) && CleanEntry(Kept(f)) && i < |es| && es[i].Has(f.key)
    ensures Tidy(es[i := Kept(f)])
  {
    var us := es[i := Kept(f)];
    forall j, k | 0 <= j < k < |us| && us[j].Kept? ensures !us[k].Has(us[j].field.key) {
      assert us[j].field.key == es[j].field.key && !es[k].Has(es[j].field.key);
    }
  }

  lemma TidyReplaced(es: seq<Entry>, f: Field)
    requires Tidy(es) && CleanEntry(Kept(f)) && IndexOf(es, f.key) < |es|
    ensures var i := IndexOf(es, f.key); Tidy(es[..i] + [Kept(f)] + es[i + 1..])
  {
    TidyUpdated(es, IndexOf(es, f.key), f);
    UpdateConcat(es, IndexOf(es, f.key), Kept(f));
  }

  lemma PutScalarTidy(es: seq<Entry>, f: Field)
    requires Tidy(es) && CleanEntry(Kept(f))
    ensures Tidy(PutScalar(es, f))
  {
    var i := IndexOf(es, f.key);
    if i < |es| {
      TidyReplaced(es, f);
      if i + 1 == |es| {
        var a := es[..i] + [Kept(f)];
        assert a + es[i + 1..] == a;
        TidySnoc(a, Blank);
      }
    } else {
      assert es[..i] == es;
      TrimPrefix(es);
      TidySnoc(if Trim(es) == [] then [Blank] else Trim(es), Kept(f));
    }
  }

  lemma PutListTidy(es: seq<Entry>, f: Field, append: bool)
    requires Tidy(es) && CleanEntry(Kept(f))
    ensures Tidy(PutList(es, f, append))
  {
    var i := IndexOf(es, f.key);
    if i < |es| {
      TidyReplaced(es, f);
    } else {
      assert es[..i] == es;
      TidySnoc(es, Kept(f));
    }
  }

  // ------------------------------------------------------------ every run of edits

  function ExtraField(x: Extra): Field {
    Field(x.key, if x.value == "true" || x.value == "false" then Flag(x.value == "true") else Text(x.value))
  }

  /** What the program passes to its editors: statuses of plain letters and dashes, scalar names as
      keywords, single-line list items, and never an empty list of children. */
  predicate EditOk(e: Edit) {
    match e
    case SetStatus(status, extras) =>
      Json.Plain(status) && forall i :: 0 <= i < |extras| ==> CleanKey(extras[i].key) && extras[i].key !in LIST_KEYS
    case SetScope(files) => forall i :: 0 <= i < |files| ==> CleanItem(files[i])
    case FileChildren(kids) => kids != [] && forall i :: 0 <= i < |kids| ==> CleanItem(kids[i])
  }

  /** What an edit should do to the fields a reader sees. */
  function Meaning(m: map<string, Value>, e: Edit): map<string, Value> {
    match e
    case SetStatus(status, extras) => ExtrasMeaning(m["status" := Text(status)], extras)
    case SetScope(files) => if "scope" in m then m["scope" := Items(files)] else m
    case FileChildren(kids) => m["children" := Items(kids)]
  }

  function ExtrasMeaning(m: map<string, Value>, extras: seq<Extra>): map<string, Value> {
    if extras == [] then m
    else
      var n := |extras| - 1;
      ExtrasMeaning(m, extras[..n])[extras[n].key := ExtraField(extras[n]).value]
  }

  function RunMeaning(m: map<string, Value>, edits: seq<Edit>): map<string, Value> {
    if edits == [] then m else Meaning(RunMeaning(m, edits[..|edits| - 1]), edits[|edits| - 1])
  }

  function PutExtras(es: seq<Entry>, extras: seq<Extra>): seq<Entry> {
    if extras == [] then es
    else
      var n := |extras| - 1;
      PutScalar(PutExtras(es, extras[..n]), ExtraField(extras[n]))
  }

  function Put(es: seq<Entry>, e: Edit): seq<Entry> {
    match e
    case SetStatus(status, extras) => PutExtras(PutScalar(es, Field("status", Text(status))), extras)
    case SetScope(files) => PutList(es, Field("scope", Items(files)), false)
    case FileChildren(kids) => PutList(es, Field("children", Items(kids)), true)
  }

  function FileOf(es: seq<Entry>, body: string): string
    requires Lines(es) != []
  {
    WriteParts(Parts(Lines(es), body))
  }

  lemma PlainChar(c: char)
    requires Json.Plain([c])
    ensures Json.EscapeChar(c) == [c]
  {
    assert [c][0] == c;
  }

  lemma {:induction false} PlainEscape(s: string)
    requires Json.Plain(s)
    ensures Json.Escape(s) == s
  {
    if s != "" {
      assert Json.Plain(s[1..]);
      PlainEscape(s[1..]);
      PlainChar(s[0]);
      assert [s[0]] + s[1..] == s;
    }
  }

  lemma StatusLineIs(status: string)
    requires Json.Plain(status)
    ensures StatusLine(status) == PrintField(Field("status", Text(status)))[0]
  {
    PlainEscape(status);
    assert "status: \"" + status + "\"" == "status" + ": " + ("\"" + status + "\"");
  }

  lemma {:induction false} LinesGood(es: seq<Entry>)
    requires forall i :: 0 <= i < |es| ==> CleanEntry(es[i])
    ensures forall i :: 0 <= i < |Lines(es)| ==> GoodLine(Lines(es)[i])
    decreases |es|
  {
    if es != [] {
      var n := |es| - 1;
      LinesGood(es[..n]);
      if es[n].Kept? { FieldLinesGood(es[n].field); }
    }
  }

  lemma {:induction false} FeedEntries(es: seq<Entry>)
    requires forall i :: 0 <= i < |es| ==> CleanEntry(es[i])
    ensures var r := FeedAll(EMPTY, Lines(es)); !r.failed && r.fields == Fields(map[], es)
    decreases |es|
  {
    if es != [] {
      var n := |es| - 1;
      FeedEntries(es[..n]);
      var r := FeedAll(EMPTY, Lines(es[..n]));
      FeedAppend(EMPTY, Lines(es[..n]), EntryLines(es[n]));
      match es[n]
      case Blank => FeedBlank(r);
      case Kept(f) => FeedField(r, f);
    }
  }

  /** A tidy file reads as its entries, and the editors see its lines and body. */
  lemma TidyReads(es: seq<Entry>, body: string)
    requires Tidy(es) && '\r' !in body
    ensures Lines(es) != [] && AllOneLine(Lines(es))
    ensures Load(FileOf(es, body)) == Ok(Ticket(Fields(map[], es), body))
    ensures ReadParts(ReadText(FileOf(es, body))) == Some(Parts(Lines(es), body))
  {
    var p := Parts(Lines(es), body);
    LinesEmpty(es);
    LinesGood(es);
    FeedEntries(es);
    LoadWritten(p);
    ReadTextExactly(body);
    WrittenHasNoReturn(p);
    ReadTextExactly(WriteParts(p));
    ReadWritten(p);
  }

  lemma WrittenHasNoReturn(p: Parts)
    requires p.lines != [] && AllUnbroken(p.lines) && '\r' !in p.body
    ensures '\r' !in WriteParts(p)
  {
    UnbrokenLinesNoReturn(p.lines);
    assert '\r' !in "---\n" && '\r' !in END_MARK;
  }

  lemma ScalarPuts(es: seq<Entry>, f: Field)
    requires Tidy(es) && CleanEntry(Kept(f)) && !f.value.Items? && OneLine(f.key)
    ensures var lines := Lines(es);
      && lines != [] && Lines(PutScalar(es, f)) != []
      && UpsertText(Join(lines), f.key, PrintField(f)[0]) == Join(Lines(PutScalar(es, f)))
    ensures Tidy(PutScalar(es, f)) && Fields(map[], PutScalar(es, f)) == Fields(map[], es)[f.key := f.value]
  {
    PutScalarLines(es, f);
    PutScalarTidy(es, f);
    PutScalarFields(es, f);
    LinesGood(es);
    UpsertLines(Lines(es), f.key, PrintField(f)[0]);
  }

  lemma {:induction false} ExtrasPut(es: seq<Entry>, extras: seq<Extra>)
    requires Tidy(es) && forall i :: 0 <= i < |extras| ==> CleanKey(extras[i].key) && extras[i].key !in LIST_KEYS
    ensures var us := PutExtras(es, extras);
      && Tidy(us) && Lines(es) != [] && Lines(us) != []
      && EditExtras(Join(Lines(es)), extras) == Join(Lines(us))
      && Fields(map[], us) == ExtrasMeaning(Fields(map[], es), extras)
    decreases |extras|
  {
    LinesEmpty(es);
    if extras != [] {
      var n := |extras| - 1;
      ExtrasPut(es, extras[..n]);
      assert OneLine(extras[n].key) by { assert CleanKey(extras[n].key); }
      ScalarPuts(PutExtras(es, extras[..n]), ExtraField(extras[n]));
    }
  }

  lemma ListPuts(es: seq<Entry>, f: Field)
    requires Tidy(es) && f.key in {"scope", "children"} && f.value.Items? && CleanItems(f.value)
    ensures Lines(es) != [] && SetBlock(Lines(es), f.key, PrintField(f)) == Lines(PutList(es, f, true))
    ensures Replace(Lines(es), f.key, PrintField(f)) == Lines(PutList(es, f, false))
    ensures Tidy(PutList(es, f, true)) && Tidy(PutList(es, f, false))
    ensures var m := Fields(map[], es);
      && Fields(map[], PutList(es, f, true)) == m[f.key := f.value]
      && Fields(map[], PutList(es, f, false)) == if f.key in m then m[f.key := f.value] else m
  {
    IdentifierClean(f.key);
    PutListLines(es, f);
    PutListTidy(es, f, true);
    PutListTidy(es, f, false);
    PutListFields(es, f, true);
    PutListFields(es, f, false);
  }

  /** What every edit of a tidy file is: tidy again, with the same text, and meaning what it should. */
  ghost predicate Faithful(es: seq<Entry>, e: Edit) {
    var us := Put(es, e);
    && Tidy(us) && Lines(es) != [] && Lines(us) != []
    && EditFront(Join(Lines(es)), e) == Join(Lines(us))
    && Fields(map[], us) == Meaning(Fields(map[], es), e)
  }

  lemma StatusPuts(es: seq<Entry>, status: string, extras: seq<Extra>)
    requires Tidy(es) && EditOk(SetStatus(status, extras))
    ensures Faithful(es, SetStatus(status, extras))
  {
    var f := Field("status", Text(status));
    IdentifierClean("status");
    StatusLineIs(status);
    ScalarPuts(es, f);
    ExtrasPut(PutScalar(es, f), extras);
  }

  lemma ScopePuts(es: seq<Entry>, files: seq<string>)
    requires Tidy(es) && EditOk(SetScope(files))
    ensures Faithful(es, SetScope(files))
  {
    var f := Field("scope", Items(files));
    ListPuts(es, f);
    LinesEmpty(es);
    LinesEmpty(PutList(es, f, false));
    LinesGood(es);
    ReplaceAgrees(Lines(es), "scope", ScopeBlock(files));
  }

  lemma ChildrenPuts(es: seq<Entry>, kids: seq<string>)
    requires Tidy(es) && EditOk(FileChildren(kids))
    ensures Faithful(es, FileChildren(kids))
  {
    var f := Field("children", Items(kids));
    ListPuts(es, f);
    LinesEmpty(es);
    LinesEmpty(PutList(es, f, true));
    LinesGood(es);
    assert "children" + ":" == "children:";
    ChildrenAgrees(Lines(es), kids);
  }

  lemma EditPuts(es: seq<Entry>, e: Edit)
    requires Tidy(es) && EditOk(e)
    ensures Faithful(es, e)
  {
    match e
    case SetStatus(status, extras) => StatusPuts(es, status, extras);
    case SetScope(files) => ScopePuts(es, files);
    case FileChildren(kids) => ChildrenPuts(es, kids);
  }

  lemma {:induction false} RunPuts(es: seq<Entry>, body: string, edits: seq<Edit>) returns (us: seq<Entry>)
    requires Tidy(es) && '\r' !in body && forall i :: 0 <= i < |edits| ==> EditOk(edits[i])
    ensures Tidy(us) && Lines(es) != [] && Lines(us) != []
    ensures EditAll(FileOf(es, body), edits) == Some(FileOf(us, body))
    ensures Fields(map[], us) == RunMeaning(Fields(map[], es), edits)
    decreases |edits|
  {
    LinesEmpty(es);
    us := es;
    if edits != [] {
      var n := |edits| - 1;
      var before := RunPuts(es, body, edits[..n]);
      TidyReads(before, body);
      EditPuts(before, edits[n]);
      us := Put(before, edits[n]);
    }
  }

  // ------------------------------------------------------------ from the generated ticket on

  function Entries(fs: seq<Field>): seq<Entry> {
    seq(|fs|, i requires 0 <= i < |fs| => Kept(fs[i]))
  }

  lemma {:induction false} EntriesPrint(m: map<string, Value>, fs: seq<Field>)
    ensures Lines(Entries(fs)) == PrintFields(fs) && Fields(m, Entries(fs)) == FieldMap(m, fs)
    decreases |fs|
  {
    if fs != [] {
      var n := |fs| - 1;
      EntriesPrint(m, fs[..n]);
      assert Entries(fs)[..n] == Entries(fs[..n]);
    }
  }

  lemma EntryAt(fs: seq<Field>, i: nat)
    requires i < |fs|
    ensures Entries(fs)[i] == Kept(fs[i])
  {}

  lemma EntriesTidy(fs: seq<Field>)
    requires fs != [] && forall i :: 0 <= i < |fs| ==> CleanEntry(Kept(fs[i]))
    requires forall i, j :: 0 <= i < j < |fs| ==> fs[i].key != fs[j].key
    ensures Tidy(Entries(fs))
  {
    var es := Entries(fs);
    forall i | 0 <= i < |es| ensures CleanEntry(es[i]) {
      EntryAt(fs, i);
    }
    forall i, j | 0 <= i < j < |es| ensures !es[j].Has(es[i].field.key) {
      EntryAt(fs, i);
      EntryAt(fs, j);
    }
  }

  lemma FieldsClean(t: Row, testGlobs: seq<string>)
    requires Representable(t, testGlobs)
    ensures var fs := FieldsOf(t, testGlobs);
      fs != [] && forall i :: 0 <= i < |fs| ==> CleanEntry(Kept(fs[i]))
  {
    Rendering.KeysClean(t, testGlobs);
  }

  lemma FieldsDistinct(t: Row, testGlobs: seq<string>)
    ensures var fs := FieldsOf(t, testGlobs); forall i, j :: 0 <= i < j < |fs| ==> fs[i].key != fs[j].key
  {}

  lemma GeneratedTidy(t: Row, testGlobs: seq<string>)
    requires Representable(t, testGlobs)
    ensures Tidy(Entries(FieldsOf(t, testGlobs)))
  {
    FieldsClean(t, testGlobs);
    FieldsDistinct(t, testGlobs);
    EntriesTidy(FieldsOf(t, testGlobs));
  }

  /** A generated ticket, after any run of edits, reads as the fields it was generated with, each
      edited one as last written, and with the body it was generated with. */
  lemma EditedTicketReads(t: Row, testGlobs: seq<string>, edits: seq<Edit>)
    requires Representable(t, testGlobs) && forall i :: 0 <= i < |edits| ==> EditOk(edits[i])
    ensures var r := EditAll(RenderText(t, testGlobs), edits);
      r.Some? && Load(r.value) == Ok(Ticket(RunMeaning(Expected(t, testGlobs).fields, edits), BodyOf(t)))
  {
    var fs := FieldsOf(t, testGlobs);
    var es := Entries(fs);
    EntriesPrint(map[], fs);
    GeneratedTidy(t, testGlobs);
    LinesEmpty(es);
    RenderParts(t, testGlobs);
    var us := RunPuts(es, BodyOf(t), edits);
    TidyReads(us, BodyOf(t));
  }
}
