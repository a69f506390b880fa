/** In-place edits of the list blocks of a ticket's front matter (fleet/fleet.py: `set_scope`,
    `set_children`): the first block that the regular expression finds is replaced where it stands. */
module Blocks {
  import opened Wrappers
  import opened TextLines
  import opened FrontMatter
  import opened Rendering
  import opened Editing
  import opened Sections
  import opened Sequences

  // ------------------------------------------------------------ on the text

  predicate AtEnd(s: string) {
    s == "" || s[0] == '\n'
  }

  /** What is left after `(\n  - .*)*`. */
  function ItemsRest(s: string): string
    decreases |s|
  {
    if StartsWith(s, "\n  - ") then ItemsRest(s[1 + LineLength(s[1..])..]) else s
  }

  /** What is left after `key:(\s*\[\])?(\n  - .*)*$` at the head of the text. */
  function MatchText(s: string, key: string): Option<string> {
    if !IsKeyLine(s, key) then None
    else
      var t := s[|key| + 1..];
      var u := LStrip(t);
      if StartsWith(u, "[]") && AtEnd(u[2..]) then Some(ItemsRest(u[2..]))
      else if AtEnd(t) then Some(ItemsRest(t))
      else None
  }

  function ReplaceText(s: string, key: string, block: string): string
    decreases |s|
  {
    match MatchText(s, key)
    case Some(rest) => block + rest
    case None =>
      var n := LineLength(s);
      if n < |s| then s[..n] + ("\n" + ReplaceText(s[n + 1..], key, block)) else s
  }

  function ScopeText(fm: string, files: seq<string>): string {
    ReplaceText(fm, "scope", Join(ScopeBlock(files)))
  }

  function ChildrenText(fm: string, kids: seq<string>): string {
    if HasKeyText(fm, "children") then ReplaceText(fm, "children", Join(ChildrenBlock(kids)))
    else fm + ("\n" + Join(ChildrenBlock(kids)))
  }

  // ------------------------------------------------------------ the same on lines

  function ScopeBlock(files: seq<string>): (block: seq<string>)
    ensures block != []
  {
    PrintField(Field("scope", Items(files)))
  }

  /** With no children a blank line follows the field's name. */
  function ChildrenBlock(kids: seq<string>): (block: seq<string>)
    ensures block != []
  {
    ["children:"] + if kids == [] then [""] else ItemLines(kids)
  }

  function DropItems(lines: seq<string>): seq<string> {
    if lines != [] && IsItem(lines[0]) then DropItems(lines[1..]) else lines
  }

  /** The lines after `\s*\[\]`, which may lie some blank lines further down. */
  function EmptyList(lines: seq<string>): Option<seq<string>> {
    if lines == [] then None
    else if LStrip(lines[0]) == "[]" then Some(lines[1..])
    else if LStrip(lines[0]) == "" then EmptyList(lines[1..])
    else None
  }

  function MatchLines(lines: seq<string>, key: string): Option<seq<string>> {
    if lines == [] || !IsKeyLine(lines[0], key) then None
    else
      var t := lines[0][|key| + 1..];
      match EmptyList([t] + lines[1..])
      case Some(rest) => Some(DropItems(rest))
      case None => if t == "" then Some(DropItems(lines[1..])) else None
  }

  predicate HasBlock(lines: seq<string>, key: string) {
    lines != [] && (MatchLines(lines, key).Some? || HasBlock(lines[1..], key))
  }

  function Replace(lines: seq<string>, key: string, block: seq<string>): (r: seq<string>)
    requires lines != [] && block != []
    ensures r != []
  {
    match MatchLines(lines, key)
    case Some(rest) => block + rest
    case None => if |lines| == 1 then lines else [lines[0]] + Replace(lines[1..], key, block)
  }

  function SetBlock(lines: seq<string>, key: string, block: seq<string>): (r: seq<string>)
    requires lines != [] && block != []
    ensures r != []
  {
    if HasKey(lines, key) then Replace(lines, key, block) else lines + block
  }

  function SetChildren(lines: seq<string>, kids: seq<string>): (r: seq<string>)
    requires lines != []
    ensures r != []
  {
    SetBlock(lines, "children", ChildrenBlock(kids))
  }

  // ------------------------------------------------------------ text and lines agree

  function Tail(lines: seq<string>): string {
    if lines == [] then "" else "\n" + Join(lines)
  }

  lemma TailOf(lines: seq<string>)
    requires lines != []
    ensures Join(lines) == lines[0] + Tail(lines[1..])
  {
    assert lines[0] + "" == lines[0];
    assert |lines| > 1 ==> lines[0] + "\n" + Join(lines[1..]) == lines[0] + ("\n" + Join(lines[1..]));
  }

  lemma {:induction false} LStripAll(line: string, rest: string)
    ensures LStrip(line) != "" ==> LStrip(line + rest) == LStrip(line) + rest
    ensures LStrip(line) == "" ==> LStrip(line + rest) == LStrip(rest)
    decreases |line|
  {
    if line == "" {
      assert line + rest == rest;
    } else {
      LStripAll(line[1..], rest);
      assert (line + rest)[1..] == line[1..] + rest;
    }
  }

  /** Whether a text starts with `[]` and a line end. */
  predicate Brackets(s: string) {
    StartsWith(s, "[]") && AtEnd(s[2..])
  }

  lemma BracketsLine(line: string, rest: string)
    requires OneLine(line) && line != "" && AtEnd(rest)
    ensures Brackets(line + rest) <==> line == "[]"
    ensures line == "[]" ==> (line + rest)[2..] == rest
  {
    var s := line + rest;
    if |line| == 1 {
      assert |s| >= 2 ==> s[1] == '\n' && s[..2][1] == '\n';
    } else {
      assert s[..2] == line[..2];
      if |line| > 2 { assert s[2..][0] == line[2] != '\n'; }
    }
  }

  lemma {:induction false} EmptyListText(lines: seq<string>)
    requires AllOneLine(lines)
    ensures var u := LStrip(Tail(lines));
      && (Brackets(u) <==> EmptyList(lines).Some?)
      && (Brackets(u) ==> u[2..] == Tail(EmptyList(lines).value))
    decreases |lines|
  {
    if lines != [] {
      var line, rest := lines[0], Tail(lines[1..]);
      TailOf(lines);
      assert Tail(lines)[1..] == line + rest;
      LStripAll(line, rest);
      LStripTrims(line);
      var t := LStrip(line);
      if t == "" {
        EmptyListText(lines[1..]);
      } else {
        assert OneLine(t) by { assert forall i :: 0 <= i < |t| ==> t[i] == line[|line| - |t| + i]; }
        BracketsLine(t, rest);
      }
    }
  }

  lemma ItemAhead(line: string, rest: string)
    requires OneLine(line) && AtEnd(rest)
    ensures StartsWith("\n" + (line + rest), "\n  - ") <==> IsItem(line)
  {
    var s := "\n" + (line + rest);
    if |line| >= 4 {
      assert s[..5] == "\n" + line[..4];
      assert s[..5][1..] == line[..4];
    } else if |s| >= 5 {
      assert s[..5][1 + |line|] == '\n';
    }
  }

  lemma ItemRest(line: string, rest: string)
    requires OneLine(line) && AtEnd(rest)
    ensures ItemsRest("\n" + (line + rest)) == if IsItem(line) then ItemsRest(rest) else "\n" + (line + rest)
  {
    var s := "\n" + (line + rest);
    ItemAhead(line, rest);
    LineLengthOf(line, rest);
    assert s[1..] == line + rest && s[1 + |line|..] == rest;
  }

  lemma {:induction false} DropItemsText(lines: seq<string>)
    requires AllOneLine(lines)
    ensures ItemsRest(Tail(lines)) == Tail(DropItems(lines))
    decreases |lines|
  {
    if lines != [] {
      TailOf(lines);
      ItemRest(lines[0], Tail(lines[1..]));
      if IsItem(lines[0]) { DropItemsText(lines[1..]); }
    }
  }

  lemma EmptyListKeyLine(t: string, rest: seq<string>)
    requires OneLine(t) && AllOneLine(rest)
    ensures var u, r := LStrip(t + Tail(rest)), EmptyList([t] + rest);
      && (Brackets(u) <==> r.Some?)
      && (r.Some? ==> u[2..] == Tail(r.value) && AllOneLine(r.value))
  {
    var lines := [t] + rest;
    assert lines[1..] == rest;
    TailOf(lines);
    EmptyListText(lines);
    assert Tail(lines)[1..] == Join(lines);
    EmptyListWhere(lines);
  }

  lemma {:induction false} EmptyListWhere(lines: seq<string>)
    ensures var r := EmptyList(lines); r.Some? ==> |r.value| < |lines| && r.value == lines[|lines| - |r.value|..]
  {
    if lines != [] && LStrip(lines[0]) != "[]" && LStrip(lines[0]) == "" { EmptyListWhere(lines[1..]); }
  }

  lemma MatchAgrees(lines: seq<string>, key: string)
    requires lines != [] && AllOneLine(lines) && OneLine(key)
    ensures MatchText(Join(lines), key)
      == match MatchLines(lines, key) case Some(rest) => Some(Tail(rest)) case None => None
  {
    var line, rest := lines[0], lines[1..];
    TailOf(lines);
    KeyLineAhead(line, Tail(rest), key);
    if IsKeyLine(line, key) {
      var t := line[|key| + 1..];
      var s := line + Tail(rest);
      assert s[|key| + 1..] == t + Tail(rest);
      EmptyListKeyLine(t, rest);
      DropItemsText(rest);
      match EmptyList([t] + rest)
      case Some(after) => DropItemsText(after);
      case None => assert t == "" ==> t + Tail(rest) == Tail(rest);
    }
  }

  lemma JoinTail(block: seq<string>, rest: seq<string>)
    requires block != []
    ensures Join(block + rest) == Join(block) + Tail(rest)
  {
    if rest == [] {
      assert block + rest == block && Join(block) + "" == Join(block);
    } else {
      JoinAppend(block, rest);
    }
  }

  /** The regular expression does to the text what `Replace` does to its lines. */
  lemma {:induction false} ReplaceAgrees(lines: seq<string>, key: string, block: seq<string>)
    requires lines != [] && AllOneLine(lines) && OneLine(key) && block != []
    ensures ReplaceText(Join(lines), key, Join(block)) == Join(Replace(lines, key, block))
    decreases |lines|
  {
    MatchAgrees(lines, key);
    match MatchLines(lines, key)
    case Some(rest) => JoinTail(block, rest);
    case None =>
      if |lines| == 1 {
        OnlyLine(lines[0]);
      } else {
        FirstLine(lines, key);
        ReplaceAgrees(lines[1..], key, block);
        JoinCons(lines[0], Replace(lines[1..], key, block));
      }
  }

  lemma ChildrenAgrees(lines: seq<string>, kids: seq<string>)
    requires lines != [] && AllOneLine(lines)
    ensures ChildrenText(Join(lines), kids) == Join(SetChildren(lines, kids))
  {
    HasKeyLines(lines, "children");
    if HasKey(lines, "children") {
      ReplaceAgrees(lines, "children", ChildrenBlock(kids));
    } else {
      JoinAppend(lines, ChildrenBlock(kids));
    }
  }

  // ------------------------------------------------------------ repeating an edit

  /** A block that the next edit of the same field finds again, and no more than it. */
  ghost predicate Refound(block: seq<string>, key: string) {
    forall rest: seq<string> :: rest == [] || !IsItem(rest[0]) ==> MatchLines(block + rest, key) == Some(rest)
  }

  lemma {:induction false} DropItemsDone(lines: seq<string>)
    ensures var r := DropItems(lines); r == [] || !IsItem(r[0])
  {
    if lines != [] && IsItem(lines[0]) { DropItemsDone(lines[1..]); }
  }

  lemma {:induction false} DropItemLines(xs: seq<string>, rest: seq<string>)
    requires rest == [] || !IsItem(rest[0])
    ensures DropItems(ItemLines(xs) + rest) == rest
    decreases |xs|
  {
    var lines := ItemLines(xs) + rest;
    if xs == [] {
      assert lines == rest;
    } else {
      assert lines[0][..4] == "  - ";
      DropItemLines(xs[1..], rest);
      assert lines[1..] == ItemLines(xs[1..]) + rest;
    }
  }

  lemma ItemNotBrackets(x: string, more: seq<string>)
    ensures EmptyList(["  - " + x] + more) == None
  {
    var line := "  - " + x;
    assert line[1..] == " - " + x && line[1..][1..] == "- " + x;
    assert LStrip(line) == LStrip(line[1..]) == LStrip(line[1..][1..]) == "- " + x;
    assert ("- " + x)[0] == '-';
  }

  lemma ListRefound(key: string, xs: seq<string>)
    requires xs != []
    ensures Refound([key + ":"] + ItemLines(xs), key)
  {
    var block := [key + ":"] + ItemLines(xs);
    forall rest: seq<string> | rest == [] || !IsItem(rest[0]) ensures MatchLines(block + rest, key) == Some(rest) {
      var lines := block + rest;
      assert lines[0] == key + ":" && lines[1..] == ItemLines(xs) + rest;
      assert lines[0][|key| + 1..] == "";
      assert [""] + lines[1..] == ["", "  - " + xs[0]] + lines[2..];
      EmptyListSkips(lines[1..]);
      ItemNotBrackets(xs[0], lines[2..]);
      assert lines[1..] == ["  - " + xs[0]] + lines[2..];
      DropItemLines(xs, rest);
    }
  }

  lemma EmptyListSkips(lines: seq<string>)
    ensures EmptyList([""] + lines) == EmptyList(lines)
  {
    assert ([""] + lines)[1..] == lines;
  }

  lemma EmptyRefound(key: string)
    ensures Refound([key + ": []"], key)
  {
    var block := [key + ": []"];
    forall rest: seq<string> | rest == [] || !IsItem(rest[0]) ensures MatchLines(block + rest, key) == Some(rest) {
      var lines := block + rest;
      assert lines[1..] == rest && lines[0][..|key| + 1] == key + ":";
      assert lines[0][|key| + 1..] == " []" && " []"[1..] == "[]";
      assert ([" []"] + rest)[1..] == rest;
    }
  }

  lemma FieldRefound(key: string, xs: seq<string>)
    ensures Refound(PrintField(Field(key, Items(xs))), key)
  {
    if xs == [] { EmptyRefound(key); } else { ListRefound(key, xs); }
  }

  /** A line that is not the start of a block stays so when a block further down is replaced. */
  lemma StaysUnmatched(line: string, rest: seq<string>, key: string, block: seq<string>)
    requires rest != [] && block != [] && key != "" && !IsSpace(key[0]) && key[0] != '[' && IsKeyLine(block[0], key)
    requires MatchLines([line] + rest, key) == None
    ensures MatchLines([line] + Replace(rest, key, block), key) == None
  {
    if IsKeyLine(line, key) {
      var t := line[|key| + 1..];
      assert ([line] + rest)[1..] == rest;
      var sub := Replace(rest, key, block);
      assert ([line] + sub)[1..] == sub;
      StaysNotEmpty(t, rest, key, block);
    }
  }

  lemma {:induction false} StaysNotEmpty(t: string, rest: seq<string>, key: string, block: seq<string>)
    requires rest != [] && block != [] && key != "" && !IsSpace(key[0]) && key[0] != '[' && IsKeyLine(block[0], key)
    requires EmptyList([t] + rest) == None
    ensures EmptyList([t] + Replace(rest, key, block)) == None
    decreases |rest|
  {
    var sub := Replace(rest, key, block);
    assert ([t] + rest)[1..] == rest && ([t] + sub)[1..] == sub;
    if LStrip(t) == "" {
      if MatchLines(rest, key).Some? {
        assert sub[0] == block[0] && block[0][0] == block[0][..|key| + 1][0] == key[0];
        assert LStrip(block[0]) == block[0];
      } else if |rest| > 1 {
        assert rest == [rest[0]] + rest[1..];
        StaysNotEmpty(rest[0], rest[1..], key, block);
      }
    }
  }

  lemma ReplaceMatched(lines: seq<string>, key: string, block: seq<string>)
    requires lines != [] && block != [] && MatchLines(lines, key).Some?
    ensures Replace(lines, key, block) == block + MatchLines(lines, key).value
  {}

  lemma ReplaceOver(line: string, rest: seq<string>, key: string, block: seq<string>)
    requires rest != [] && block != [] && MatchLines([line] + rest, key) == None
    ensures Replace([line] + rest, key, block) == [line] + Replace(rest, key, block)
  {
    assert ([line] + rest)[1..] == rest;
  }

  lemma {:induction false} ReplaceTwice(lines: seq<string>, key: string, block: seq<string>)
    requires lines != [] && block != [] && Refound(block, key)
    requires key != "" && !IsSpace(key[0]) && key[0] != '[' && IsKeyLine(block[0], key)
    ensures var once := Replace(lines, key, block); Replace(once, key, block) == once
    decreases |lines|
  {
    match MatchLines(lines, key)
    case Some(rest) =>
      MatchedRest(lines, key);
      ReplaceMatched(lines, key, block);
      ReplaceMatched(block + rest, key, block);
    case None =>
      if |lines| > 1 {
        ReplaceTwice(lines[1..], key, block);
        assert lines == [lines[0]] + lines[1..];
        StaysUnmatched(lines[0], lines[1..], key, block);
        ReplaceOver(lines[0], lines[1..], key, block);
        ReplaceOver(lines[0], Replace(lines[1..], key, block), key, block);
      }
  }

  lemma MatchedRest(lines: seq<string>, key: string)
    requires MatchLines(lines, key).Some?
    ensures var rest := MatchLines(lines, key).value; |rest| < |lines| && (rest == [] || !IsItem(rest[0]))
  {
    var t := lines[0][|key| + 1..];
    EmptyListWhere([t] + lines[1..]);
    DropItemsDone(lines[1..]);
    DropItemsShorter(lines[1..]);
    if EmptyList([t] + lines[1..]).Some? {
      DropItemsDone(EmptyList([t] + lines[1..]).value);
      DropItemsShorter(EmptyList([t] + lines[1..]).value);
    }
  }

  lemma {:induction false} DropItemsShorter(lines: seq<string>)
    ensures |DropItems(lines)| <= |lines|
  {
    if lines != [] && IsItem(lines[0]) { DropItemsShorter(lines[1..]); }
  }

  /** Setting the same scope twice is setting it once, whatever the file held. */
  lemma ScopeFixedPoint(lines: seq<string>, files: seq<string>)
    requires lines != []
    ensures var once := Replace(lines, "scope", ScopeBlock(files)); Replace(once, "scope", ScopeBlock(files)) == once
  {
    FieldRefound("scope", files);
    ReplaceTwice(lines, "scope", ScopeBlock(files));
  }

  lemma {:induction false} ReplaceNone(lines: seq<string>, key: string, block: seq<string>)
    requires lines != [] && block != [] && !HasBlock(lines, key)
    ensures Replace(lines, key, block) == lines
  {
    if |lines| > 1 { ReplaceNone(lines[1..], key, block); }
  }

  /** Lines that do not name the field are passed over. */
  lemma {:induction false} ReplaceAfter(head: seq<string>, lines: seq<string>, key: string, block: seq<string>)
    requires lines != [] && block != [] && !HasKey(head, key)
    ensures Replace(head + lines, key, block) == head + Replace(lines, key, block)
    ensures HasBlock(head + lines, key) <==> HasBlock(lines, key)
    decreases |head|
  {
    var all := head + lines;
    if head == [] {
      assert all == lines && head + Replace(lines, key, block) == Replace(lines, key, block);
    } else {
      assert all[0] == head[0] && all[1..] == head[1..] + lines;
      assert !HasKey(head[1..], key) by { HasKeyCons(head, key); }
      assert !IsKeyLine(head[0], key) by { HasKeyCons(head, key); }
      ReplaceAfter(head[1..], lines, key, block);
      var sub := Replace(lines, key, block);
      assert [head[0]] + (head[1..] + sub) == head + sub;
    }
  }

  const NO_CHILDREN: seq<string> := ["children:", ""]

  lemma NoChildrenMatch(rest: seq<string>)
    requires rest == [] || !IsItem(rest[0])
    ensures MatchLines(NO_CHILDREN + rest, "children").Some?
    ensures |MatchLines(NO_CHILDREN + rest, "children").value| != |rest|
  {
    var lines := NO_CHILDREN + rest;
    assert lines[0] == "children:" && lines[1..] == [""] + rest && lines[0][9..] == "";
    EmptyListSkips([""] + rest);
    EmptyListSkips(rest);
    EmptyListWhere(rest);
    assert DropItems([""] + rest) == [""] + rest;
    if EmptyList(rest).Some? { DropItemsShorter(EmptyList(rest).value); }
  }

  lemma {:induction false} NoChildrenDrifts(lines: seq<string>)
    requires HasBlock(lines, "children")
    ensures var once := Replace(lines, "children", NO_CHILDREN); Replace(once, "children", NO_CHILDREN) != once
    decreases |lines|
  {
    var key := "children";
    match MatchLines(lines, key)
    case Some(rest) =>
      MatchedRest(lines, key);
      NoChildrenMatch(rest);
    case None =>
      var sub := Replace(lines[1..], key, NO_CHILDREN);
      NoChildrenDrifts(lines[1..]);
      assert lines == [lines[0]] + lines[1..];
      StaysUnmatched(lines[0], lines[1..], key, NO_CHILDREN);
      assert ([lines[0]] + sub)[1..] == sub;
  }

  lemma RefoundAlone(block: seq<string>, key: string)
    requires block != [] && Refound(block, key)
    ensures Replace(block, key, block) == block
  {
    assert block + [] == block;
    assert MatchLines(block + [], key) == Some([]);
  }

  lemma SetTwice(lines: seq<string>, key: string, block: seq<string>)
    requires lines != [] && block != [] && Refound(block, key) && IsKeyLine(block[0], key)
    requires key != "" && !IsSpace(key[0]) && key[0] != '['
    ensures var once := SetBlock(lines, key, block); SetBlock(once, key, block) == once
  {
    if HasKey(lines, key) {
      ReplaceTwice(lines, key, block);
      ReplaceKeepsKey(lines, key, block);
    } else {
      HasKeyAt(lines + block, |lines|, key);
      ReplaceAfter(lines, block, key, block);
      RefoundAlone(block, key);
    }
  }

  lemma ListSetTwice(lines: seq<string>, key: string, xs: seq<string>)
    requires lines != [] && xs != [] && key != "" && !IsSpace(key[0]) && key[0] != '['
    ensures var block := [key + ":"] + ItemLines(xs);
      var once := SetBlock(lines, key, block);
      SetBlock(once, key, block) == once
  {
    var block := [key + ":"] + ItemLines(xs);
    ListRefound(key, xs);
    assert block[0] == key + ":";
    SetTwice(lines, key, block);
  }

  lemma HasKeyAt(lines: seq<string>, i: nat, key: string)
    requires i < |lines| && IsKeyLine(lines[i], key)
    ensures HasKey(lines, key)
  {}

  lemma {:induction false} ReplaceKeepsKey(lines: seq<string>, key: string, block: seq<string>)
    requires lines != [] && block != [] && IsKeyLine(block[0], key)
    ensures HasKey(Replace(lines, key, block), key) || Replace(lines, key, block) == lines
  {
    if MatchLines(lines, key).Some? {
      HasKeyAt(Replace(lines, key, block), 0, key);
    } else if |lines| > 1 {
      ReplaceKeepsKey(lines[1..], key, block);
      HasKeyCons(Replace(lines, key, block), key);
    }
  }

  /** Filing the same children twice is filing them once exactly when there are any, or when the
      field is there in a form the editor does not recognise. An empty list gains a blank line
      (or swallows some) every time. */
  lemma ChildrenFixedPointExactly(lines: seq<string>, kids: seq<string>)
    requires lines != []
    ensures var once := SetChildren(lines, kids);
      SetChildren(once, kids) == once <==>
      kids != [] || (HasKey(lines, "children") && !HasBlock(lines, "children"))
  {
    var key := "children";
    if kids != [] {
      ListSetTwice(lines, key, kids);
      assert key + ":" == "children:";
    } else {
      assert ChildrenBlock(kids) == NO_CHILDREN;
      if HasKey(lines, key) && HasBlock(lines, key) {
        NoChildrenDrifts(lines);
        ReplaceKeepsKey(lines, key, NO_CHILDREN);
      } else if HasKey(lines, key) {
        ReplaceNone(lines, key, NO_CHILDREN);
      } else {
        HasKeyAt(lines + NO_CHILDREN, |lines|, key);
        ReplaceAfter(lines, NO_CHILDREN, key, NO_CHILDREN);
        NoChildrenMatch([]);
        assert NO_CHILDREN + [] == NO_CHILDREN;
      }
    }
  }

  // ------------------------------------------------------------ what a block edit reads back as

  /** The items read into the list before the next field starts. */
  function Joined(lines: seq<string>): seq<string> {
    if lines == [] then []
    else if IsItem(lines[0]) then [Strip(lines[0][4..])] + Joined(lines[1..])
    else if ColonAt(lines[0]) < |lines[0]| then []
    else Joined(lines[1..])
  }

  function WithItems(v: Value, more: seq<string>): Value {
    if v.Items? then Items(v.items + more) else v
  }

  /** What the last of the lines that set the field leaves in it, with the items that follow it. */
  function Reset(lines: seq<string>, key: string): Option<Value> {
    if lines == [] then None
    else
      var later := Reset(lines[1..], key);
      if later.Some? || !SetsField(lines[0], key) then later
      else Some(WithItems(ValueOf(lines[0]), Joined(lines[1..])))
  }

  /** The lines after the first block, which the edit leaves as they are. */
  function AfterBlock(lines: seq<string>, key: string): seq<string>
    requires HasBlock(lines, key)
  {
    match MatchLines(lines, key)
    case Some(rest) => rest
    case None => AfterBlock(lines[1..], key)
  }

  /** What a reader makes of the field over some lines: their items join its list until the next
      field starts, and a line that sets it sets it anew. */
  lemma {:induction false} LeftInField(q: Reader, lines: seq<string>, key: string)
    requires key != "" && key in q.fields && !q.failed && !FeedAll(q, lines).failed
    ensures var s := FeedAll(q, lines);
      key in s.fields
      && s.fields[key] == Reset(lines, key).GetOr(WithItems(q.fields[key], if q.key == key then Joined(lines) else []))
    decreases |lines|
  {
    if lines == [] {
      assert q.fields[key].Items? ==> q.fields[key].items + [] == q.fields[key].items;
    } else {
      var p := Feed(q, lines[0]);
      if p.failed { FeedFailed(p, lines[1..]); }
      LeftInField(p, lines[1..], key);
      WithMore(q.fields[key], lines);
    }
  }

  lemma WithMore(v: Value, lines: seq<string>)
    requires lines != []
    ensures IsItem(lines[0]) && v.Items? ==>
      WithItems(Items(v.items + [Strip(lines[0][4..])]), Joined(lines[1..])) == WithItems(v, Joined(lines))
    ensures WithItems(v, []) == v
  {
    if v.Items? {
      assert v.items + [] == v.items;
      if IsItem(lines[0]) {
        var item := [Strip(lines[0][4..])];
        assert v.items + item + Joined(lines[1..]) == v.items + (item + Joined(lines[1..]));
      }
    }
  }

  /** Two readers at the same place that differ at most in one field, and there both hold lists or
      the same value. */
  ghost predicate Alike(r: Reader, q: Reader, key: string) {
    && !r.failed && !q.failed && r.key == q.key && SameBut(r.fields, q.fields, key)
    && key in r.fields && key in q.fields
    && (r.fields[key] == q.fields[key] || (r.fields[key].Items? && q.fields[key].Items?))
  }

  lemma AddAlike(r: Reader, q: Reader, item: string, key: string)
    requires Alike(r, q, key) && !r.failed && !AddItem(r, item).failed
    ensures Alike(AddItem(r, item), AddItem(q, item), key)
  {}

  lemma StepAlike(r: Reader, q: Reader, line: string, key: string)
    requires Alike(r, q, key) && !Feed(r, line).failed
    ensures Alike(Feed(r, line), Feed(q, line), key)
  {
    if IsItem(line) { AddAlike(r, q, Strip(line[4..]), key); }
  }

  lemma {:induction false} AlikeOn(r: Reader, q: Reader, lines: seq<string>, key: string)
    requires Alike(r, q, key) && !FeedAll(r, lines).failed
    ensures Alike(FeedAll(r, lines), FeedAll(q, lines), key)
    decreases |lines|
  {
    if lines != [] {
      if Feed(r, lines[0]).failed { FeedFailed(Feed(r, lines[0]), lines[1..]); }
      StepAlike(r, q, lines[0], key);
      AlikeOn(Feed(r, lines[0]), Feed(q, lines[0]), lines[1..], key);
    }
  }

  /** White space, with or without `[]` behind it, says nothing to the reader. */
  lemma {:induction false} SilentLine(r: Reader, line: string)
    requires LStrip(line) == "" || LStrip(line) == "[]"
    ensures ColonAt(line) == |line| && !IsItem(line) && Feed(r, line) == r
  {
    var t := LStrip(line);
    LStripTrims(line);
    SpaceBefore(line);
    var n := |line| - |t|;
    assert forall i :: n <= i < |line| ==> line[i] == t[i - n];
    if |line| >= 4 { assert line[..4][2] == line[2]; }
  }

  lemma {:induction false} SpaceBefore(s: string)
    ensures forall i :: 0 <= i < |s| - |LStrip(s)| ==> IsSpace(s[i])
  {
    LStripTrims(s);
    if s != "" && IsSpace(s[0]) {
      SpaceBefore(s[1..]);
      assert forall i :: 0 < i < |s| ==> s[i] == s[1..][i - 1];
    }
  }

  lemma {:induction false} FeedEmptyList(r: Reader, lines: seq<string>)
    requires EmptyList(lines).Some?
    ensures var rest := EmptyList(lines).value;
      var m := |lines| - |rest|;
      1 <= m && lines[m..] == rest && FeedAll(r, lines[..m]) == r
    decreases |lines|
  {
    SilentLine(r, lines[0]);
    EmptyListWhere(lines);
    var m := |lines| - |EmptyList(lines).value|;
    assert lines[..m] == [lines[0]] + lines[1..][..m - 1];
    assert ([lines[0]] + lines[1..][..m - 1])[1..] == lines[1..][..m - 1];
    if LStrip(lines[0]) == "" {
      FeedEmptyList(r, lines[1..]);
    } else {
      assert lines[1..][..0] == [];
    }
  }

  /** A reader in the middle of the field's list. */
  predicate InList(r: Reader, key: string) {
    !r.failed && r.key == key && key != "" && key in r.fields && r.fields[key].Items?
  }

  lemma ItemKeepsList(r: Reader, line: string, key: string)
    requires InList(r, key) && IsItem(line)
    ensures InList(Feed(r, line), key) && SameBut(r.fields, Feed(r, line).fields, key)
  {}

  lemma FeedHead(r: Reader, lines: seq<string>, k: nat)
    requires lines != [] && k < |lines|
    ensures FeedAll(r, lines[..k + 1]) == FeedAll(Feed(r, lines[0]), lines[1..][..k])
    ensures lines[1..][k..] == lines[k + 1..]
  {
    assert lines[..k + 1][0] == lines[0] && lines[..k + 1][1..] == lines[1..][..k];
  }

  lemma {:induction false} FeedItemsOff(r: Reader, lines: seq<string>, key: string) returns (s: Reader, k: nat)
    requires InList(r, key)
    ensures InList(s, key) && SameBut(r.fields, s.fields, key)
    ensures k <= |lines| && lines[k..] == DropItems(lines) && FeedAll(r, lines[..k]) == s
    decreases |lines|
  {
    s, k := r, 0;
    assert lines[..0] == [];
    if lines != [] && IsItem(lines[0]) {
      ItemKeepsList(r, lines[0], key);
      s, k := FeedItemsOff(Feed(r, lines[0]), lines[1..], key);
      FeedHead(r, lines, k);
      k := k + 1;
    }
  }

  /** The lines that the edit cuts out. */
  function CutLines(lines: seq<string>, key: string): seq<string>
    requires MatchLines(lines, key).Some?
  {
    MatchedRest(lines, key);
    lines[..|lines| - |MatchLines(lines, key).value|]
  }

  /** The lines from the header's empty list to the first item. */
  lemma BelowHeader(h: Reader, lines: seq<string>, key: string) returns (m: nat)
    requires MatchLines(lines, key).Some? && InList(h, key)
    ensures 1 <= m <= |lines| && FeedAll(h, lines[1..m]) == h
    ensures MatchLines(lines, key).value == DropItems(lines[m..])
  {
    var t := lines[0][|key| + 1..];
    var all := [t] + lines[1..];
    assert all[1..] == lines[1..];
    m := 1;
    if EmptyList(all).Some? && LStrip(t) != "[]" {
      FeedEmptyList(h, lines[1..]);
      var rest := EmptyList(lines[1..]).value;
      m := |lines| - |rest|;
      assert lines[1..m] == lines[1..][..m - 1] && lines[m..] == lines[1..][m - 1..];
    } else {
      assert lines[1..1] == [];
    }
  }

  lemma FeedTwo(h: Reader, lines: seq<string>, m: nat, k: nat)
    requires 1 <= m && m + k <= |lines| && FeedAll(h, lines[1..m]) == h
    ensures FeedAll(h, lines[1..m + k]) == FeedAll(h, lines[m..][..k]) && lines[m..][k..] == lines[m + k..]
  {
    FeedAppend(h, lines[1..m], lines[m..][..k]);
    assert lines[1..m + k] == lines[1..m] + lines[m..][..k];
  }

  lemma FeedBelow(h: Reader, lines: seq<string>, key: string) returns (s: Reader, c: nat)
    requires MatchLines(lines, key).Some? && InList(h, key)
    ensures 1 <= c <= |lines| && InList(s, key) && SameBut(h.fields, s.fields, key)
    ensures FeedAll(h, lines[1..c]) == s && lines[c..] == MatchLines(lines, key).value
  {
    var m, k;
    m := BelowHeader(h, lines, key);
    s, k := FeedItemsOff(h, lines[m..], key);
    c := m + k;
    FeedTwo(h, lines, m, k);
  }

  lemma HeaderOpens(r: Reader, lines: seq<string>, key: string)
    requires CleanKey(key) && !r.failed && MatchLines(lines, key).Some?
    ensures InList(Feed(r, lines[0]), key) && SameBut(r.fields, Feed(r, lines[0]).fields, key)
  {
    var t := lines[0][|key| + 1..];
    assert lines[0] == key + ":" + t;
    FeedKeyLine(r, key, t);
    HeaderIsList(lines, key);
  }

  /** The old block leaves the reader in the field's list, with every other field as before. */
  lemma FeedBlock(r: Reader, lines: seq<string>, key: string) returns (s: Reader)
    requires CleanKey(key) && !r.failed && MatchLines(lines, key).Some?
    ensures InList(s, key) && SameBut(r.fields, s.fields, key)
    ensures FeedAll(r, CutLines(lines, key)) == s && lines == CutLines(lines, key) + MatchLines(lines, key).value
  {
    var c;
    HeaderOpens(r, lines, key);
    s, c := FeedBelow(Feed(r, lines[0]), lines, key);
    assert CutLines(lines, key) == lines[..c];
    assert lines[..c][0] == lines[0] && lines[..c][1..] == lines[1..c];
  }

  lemma HeaderIsList(lines: seq<string>, key: string)
    requires MatchLines(lines, key).Some?
    ensures ParseValue(Strip(lines[0][|key| + 1..])) == Items([])
  {
    var t := lines[0][|key| + 1..];
    assert ([t] + lines[1..])[0] == t;
    if LStrip(t) == "[]" { assert RStrip("[]") == "[]"; }
  }

  /** The block, wherever it is read, sets the field to the list. */
  ghost predicate WritesList(block: seq<string>, key: string, xs: seq<string>) {
    forall r: Reader :: !r.failed ==> FeedAll(r, block) == Reader(r.fields[key := Items(xs)], key, false)
  }

  predicate AllCleanItems(xs: seq<string>) {
    forall i :: 0 <= i < |xs| ==> CleanItem(xs[i])
  }

  lemma FieldWrites(key: string, xs: seq<string>)
    requires CleanKey(key) && AllCleanItems(xs)
    ensures WritesList(PrintField(Field(key, Items(xs))), key, xs)
  {
    forall r: Reader | !r.failed
      ensures FeedAll(r, PrintField(Field(key, Items(xs)))) == Reader(r.fields[key := Items(xs)], key, false)
    {
      FeedField(r, Field(key, Items(xs)));
    }
  }

  lemma EmptyWrites(key: string)
    requires CleanKey(key)
    ensures WritesList([key + ":", ""], key, [])
  {
    forall r: Reader | !r.failed
      ensures FeedAll(r, [key + ":", ""]) == Reader(r.fields[key := Items([])], key, false)
    {
      assert key + ":" == key + ":" + "";
      FeedKeyLine(r, key, "");
      FeedBlank(Feed(r, key + ":"));
      assert [key + ":", ""][1..] == [""];
    }
  }

  /** The edited field reads as the block's list with the items that join it behind the block, or
      as what a later line sets it to. */
  lemma BlockReads(r: Reader, lines: seq<string>, key: string, block: seq<string>, xs: seq<string>)
    requires CleanKey(key) && !r.failed && MatchLines(lines, key).Some? && AllUnbroken(CutLines(lines, key))
    requires !FeedAll(r, Pieces(lines)).failed && WritesList(block, key, xs) && AllUnbroken(block)
    ensures var rest := Pieces(MatchLines(lines, key).value);
      var was, now := FeedAll(r, Pieces(lines)), FeedAll(r, Pieces(block + MatchLines(lines, key).value));
      && !now.failed && SameBut(was.fields, now.fields, key) && key in now.fields
      && now.fields[key] == Reset(rest, key).GetOr(Items(xs + Joined(rest)))
  {
    var after := MatchLines(lines, key).value;
    var rest := Pieces(after);
    var s := FeedBlock(r, lines, key);
    var q := Reader(r.fields[key := Items(xs)], key, false);
    assert FeedAll(r, block) == q;
    FeedWhole(r, CutLines(lines, key), after);
    FeedWhole(r, block, after);
    ListsAlike(r, s, q, key, xs);
    AlikeOn(s, q, rest, key);
    LeftInField(q, rest, key);
  }

  lemma FeedWhole(r: Reader, a: seq<string>, b: seq<string>)
    requires AllUnbroken(a)
    ensures FeedAll(r, Pieces(a + b)) == FeedAll(FeedAll(r, a), Pieces(b))
  {
    PiecesAppend(a, b);
    FeedAppend(r, Pieces(a), Pieces(b));
    PiecesUnbroken(r, a);
  }

  lemma ListsAlike(r: Reader, s: Reader, q: Reader, key: string, xs: seq<string>)
    requires InList(s, key) && SameBut(r.fields, s.fields, key) && q == Reader(r.fields[key := Items(xs)], key, false)
    ensures Alike(s, q, key)
  {}

  /** The block that the edit would replace. */
  function BlockLines(lines: seq<string>, key: string): seq<string>
    requires HasBlock(lines, key)
  {
    if MatchLines(lines, key).Some? then CutLines(lines, key) else BlockLines(lines[1..], key)
  }

  lemma {:induction false} ReplaceReads(r: Reader, lines: seq<string>, key: string, block: seq<string>, xs: seq<string>)
    requires CleanKey(key) && !r.failed && HasBlock(lines, key) && AllUnbroken(BlockLines(lines, key))
    requires !FeedAll(r, Pieces(lines)).failed && block != [] && WritesList(block, key, xs) && AllUnbroken(block)
    ensures var rest := Pieces(AfterBlock(lines, key));
      var was, now := FeedAll(r, Pieces(lines)), FeedAll(r, Pieces(Replace(lines, key, block)));
      && !now.failed && SameBut(was.fields, now.fields, key) && key in now.fields
      && now.fields[key] == Reset(rest, key).GetOr(Items(xs + Joined(rest)))
    decreases |lines|
  {
    if MatchLines(lines, key).Some? {
      BlockReads(r, lines, key, block, xs);
    } else {
      var here, sub := SplitLines(lines[0]), Replace(lines[1..], key, block);
      FeedAppend(r, here, Pieces(lines[1..]));
      FeedAppend(r, here, Pieces(sub));
      if FeedAll(r, here).failed { FeedFailed(FeedAll(r, here), Pieces(lines[1..])); }
      ReplaceReads(FeedAll(r, here), lines[1..], key, block, xs);
      ConsSuffix([lines[0]], sub);
    }
  }

  /** Nothing behind the first block speaks of the field again, or the last line that does says
      the same; or, without a block the editor recognises, the field read so before. */
  predicate Takes(lines: seq<string>, key: string, xs: seq<string>, was: map<string, Value>) {
    if HasBlock(lines, key) then
      match Reset(Pieces(AfterBlock(lines, key)), key)
      case Some(v) => v == Items(xs)
      case None => Joined(Pieces(AfterBlock(lines, key))) == []
    else key in was && was[key] == Items(xs)
  }

  lemma FieldTakes(
      was: map<string, Value>, now: map<string, Value>, key: string, xs: seq<string>,
      reset: Option<Value>, more: seq<string>)
    requires SameBut(was, now, key) && key in now && now[key] == reset.GetOr(Items(xs + more))
    ensures now == was[key := Items(xs)] <==> match reset case Some(v) => v == Items(xs) case None => more == []
  {
    SetField(was, now, key, now[key]);
    assert |xs + more| == |xs| + |more|;
    if more == [] { assert xs + [] == xs; }
  }

  /** The block that an edit replaces, if any, holds none of the rarer line breaks. */
  predicate BlockUnbroken(lines: seq<string>, key: string) {
    HasBlock(lines, key) ==> AllUnbroken(BlockLines(lines, key))
  }

  /** After a block edit of any readable front matter, none of whose lines that the edit replaces
      holds one of the rarer line breaks, it is readable and every other field reads as before. The
      field itself reads as written if and only if the edit takes: where no block is recognised
      nothing is written at all. */
  lemma ReplaceTakesExactly(lines: seq<string>, key: string, block: seq<string>, xs: seq<string>)
    requires lines != [] && block != [] && CleanKey(key) && WritesList(block, key, xs) && AllUnbroken(block)
    requires BlockUnbroken(lines, key) && !Read(lines).failed
    ensures var was, now := Read(lines), Read(Replace(lines, key, block));
      && !now.failed && SameBut(was.fields, now.fields, key)
      && (now.fields == was.fields[key := Items(xs)] <==> Takes(lines, key, xs, was.fields))
  {
    var was, now := Read(lines), Read(Replace(lines, key, block));
    FeedPieces(EMPTY, lines);
    FeedPieces(EMPTY, Replace(lines, key, block));
    if HasBlock(lines, key) {
      var rest := Pieces(AfterBlock(lines, key));
      ReplaceReads(EMPTY, lines, key, block, xs);
      FieldTakes(was.fields, now.fields, key, xs, Reset(rest, key), Joined(rest));
    } else {
      ReplaceNone(lines, key, block);
      if key in was.fields && was.fields[key] == Items(xs) { SetField(was.fields, was.fields, key, Items(xs)); }
    }
  }

  lemma AppendBlockReads(lines: seq<string>, key: string, block: seq<string>, xs: seq<string>)
    requires lines != [] && WritesList(block, key, xs) && AllUnbroken(block) && !Read(lines).failed
    ensures Read(lines + block) == Reader(Read(lines).fields[key := Items(xs)], key, false)
  {
    FeedPieces(EMPTY, lines);
    FeedPieces(EMPTY, lines + block);
    PiecesAppend(lines, block);
    FeedAppend(EMPTY, Pieces(lines), Pieces(block));
    PiecesUnbroken(Read(lines), block);
  }

  lemma FieldUnbroken(key: string, xs: seq<string>)
    requires CleanKey(key) && AllCleanItems(xs)
    ensures AllUnbroken(PrintField(Field(key, Items(xs))))
  {
    FieldLinesGood(Field(key, Items(xs)));
    var lines := PrintField(Field(key, Items(xs)));
    assert forall i :: 0 <= i < |lines| ==> GoodLine(lines[i]);
  }

  lemma ChildrenWrite(kids: seq<string>)
    requires AllCleanItems(kids)
    ensures WritesList(ChildrenBlock(kids), "children", kids) && AllUnbroken(ChildrenBlock(kids))
  {
    IdentifierClean("children");
    FieldUnbroken("children", kids);
    assert "children" + ":" == "children:";
    if kids == [] {
      EmptyWrites("children");
      assert ChildrenBlock(kids) == ["children" + ":", ""];
    } else {
      FieldWrites("children", kids);
    }
  }

  /** A missing field is appended and always reads as written; an existing one is replaced. */
  lemma SetTakesExactly(lines: seq<string>, key: string, block: seq<string>, xs: seq<string>)
    requires lines != [] && block != [] && CleanKey(key) && WritesList(block, key, xs) && AllUnbroken(block)
    requires BlockUnbroken(lines, key) && !Read(lines).failed
    ensures var was, now := Read(lines), Read(SetBlock(lines, key, block));
      && !now.failed && SameBut(was.fields, now.fields, key)
      && (now.fields == was.fields[key := Items(xs)] <==> !HasKey(lines, key) || Takes(lines, key, xs, was.fields))
  {
    if HasKey(lines, key) {
      ReplaceTakesExactly(lines, key, block, xs);
    } else {
      AppendBlockReads(lines, key, block, xs);
    }
  }

  /** A list with a blank line in it. */
  function Parted(key: string, x: string, y: string): seq<string> {
    [key + ":"] + ItemLines([x]) + ["", "  - " + y]
  }

  lemma PartedMatch(key: string, x: string, y: string)
    ensures MatchLines(Parted(key, x, y), key) == Some(["", "  - " + y])
  {
    ListRefound(key, [x]);
    assert !IsItem("");
  }

  /** An edit that does not take: an item after a blank line is outside the block for the editor,
      but joins the new list for the reader. */
  lemma BlankLineJoinsLists(key: string, x: string, y: string)
    requires CleanKey(key) && CleanItem(x) && CleanItem(y)
    ensures var now := Read(Replace(Parted(key, x, y), key, PrintField(Field(key, Items([])))));
      key in now.fields && now.fields[key] == Items([y])
  {
    PartedMatch(key, x, y);
    FieldWrites(key, []);
    FieldUnbroken(key, []);
    JoinsBelow(Parted(key, x, y), key, PrintField(Field(key, Items([]))), y);
  }

  lemma JoinsBelow(lines: seq<string>, key: string, block: seq<string>, y: string)
    requires lines != [] && block != [] && MatchLines(lines, key) == Some(["", "  - " + y])
    requires key != "" && WritesList(block, key, []) && AllUnbroken(block) && CleanItem(y)
    ensures var now := Read(Replace(lines, key, block)); key in now.fields && now.fields[key] == Items([y])
  {
    ReplaceMatched(lines, key, block);
    EmptyThenItem(block, key, y);
  }

  lemma TailUnbroken(y: string)
    requires CleanItem(y)
    ensures AllUnbroken(["", "  - " + y])
  {
    var line := "  - " + y;
    assert forall i :: 0 <= i < |line| ==> line[i] == if i < 4 then "  - "[i] else y[i - 4];
  }

  lemma EmptyThenItem(block: seq<string>, key: string, y: string)
    requires key != "" && WritesList(block, key, []) && AllUnbroken(block) && CleanItem(y)
    ensures var now := Read(block + ["", "  - " + y]); key in now.fields && now.fields[key] == Items([y])
  {
    var tail := ["", "  - " + y];
    assert FeedAll(EMPTY, block) == Reader(EMPTY.fields[key := Items([])], key, false);
    TailUnbroken(y);
    FeedPieces(EMPTY, block + tail);
    FeedWhole(EMPTY, block, tail);
    PiecesUnbroken(FeedAll(EMPTY, block), tail);
    OneItemAfterBlank(FeedAll(EMPTY, block), key, y);
  }

  lemma OneItemAfterBlank(r: Reader, key: string, y: string)
    requires InList(r, key) && r.fields[key] == Items([]) && CleanItem(y)
    ensures var s := FeedAll(r, ["", "  - " + y]); key in s.fields && s.fields[key] == Items([y])
  {
    FeedBlank(r);
    FeedItem(r, y);
    assert ["", "  - " + y][1..] == ["  - " + y];
    FeedOne(r, "  - " + y);
    assert [] + [y] == [y];
  }
}
