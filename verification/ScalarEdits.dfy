/** What a one-line edit of a ticket's front matter (fleet/fleet.py) reads back as, on any readable
    file: with items below the lines it replaces, lines it does not recognise, and whatever line
    breaks the other lines hold. */
module ScalarEdits {
  import opened Wrappers
  import opened TextLines
  import opened FrontMatter
  import opened Rendering
  import opened Editing
  import opened Sections
  import opened Sequences

  // ------------------------------------------------------------ what a scalar edit reads back as

  /** A line that both the editor and the reader take for the field's, with a value that is no list. */
  predicate Names(line: string, key: string, v: Value) {
    Unbroken(line) && IsKeyLine(line, key) && Sets(line) && ValueOf(line) == v && !v.Items?
  }

  predicate AnyMine(secs: seq<Section>) {
    exists i :: 0 <= i < |secs| && secs[i].mine
  }

  /** What becomes of the sections: the first of the field's own takes the new value, the others
      vanish, and the items below them fall to the section before. */
  function Edited(secs: seq<Section>, v: Value): (r: seq<Section>)
    ensures secs != [] && !secs[0].mine ==> r != []
  {
    if secs == [] then []
    else
      var n := |secs| - 1;
      var before, s := Edited(secs[..n], v), secs[n];
      if !s.mine then before + [s]
      else if !AnyMine(secs[..n]) || before == [] then before + [s.(value := v)]
      else AddItems(before, s.items)
  }

  lemma AnyMineSnoc(secs: seq<Section>, s: Section)
    ensures AnyMine(secs + [s]) <==> AnyMine(secs) || s.mine
  {
    var all := secs + [s];
    if AnyMine(secs) {
      var i :| 0 <= i < |secs| && secs[i].mine;
      assert all[i].mine;
    }
    if s.mine { assert all[|secs|].mine; }
  }

  lemma EditedSnoc(secs: seq<Section>, s: Section, v: Value)
    ensures Edited(secs + [s], v) == (
      var before := Edited(secs, v);
      if !s.mine then before + [s]
      else if !AnyMine(secs) || before == [] then before + [s.(value := v)]
      else AddItems(before, s.items))
  {
    assert (secs + [s])[..|secs|] == secs;
  }

  lemma AddTwice(secs: seq<Section>, a: seq<string>, b: seq<string>)
    requires secs != []
    ensures AddItems(AddItems(secs, a), b) == AddItems(secs, a + b)
  {
    var n := |secs| - 1;
    assert secs[n].items + a + b == secs[n].items + (a + b);
  }

  lemma AddNone(secs: seq<Section>)
    requires secs != []
    ensures AddItems(secs, []) == secs
  {
    var n := |secs| - 1;
    assert secs[n].items + [] == secs[n].items;
    SplitLast(secs);
  }

  lemma AddToLast(secs: seq<Section>, s: Section, items: seq<string>)
    ensures AddItems(secs + [s], items) == secs + [s.(items := s.items + items)]
  {
    assert (secs + [s])[..|secs|] == secs;
  }

  /** An item is read into the same place after the edit as before, or where its section's items went. */
  lemma EditedAdd(secs: seq<Section>, items: seq<string>, v: Value)
    requires secs != [] && Edited(secs, v) != []
    ensures Edited(AddItems(secs, items), v) == AddItems(Edited(secs, v), items)
  {
    var n := |secs| - 1;
    var front, s := secs[..n], secs[n];
    var before := Edited(front, v);
    SplitLast(secs);
    EditedSnoc(front, s, v);
    EditedSnoc(front, s.(items := s.items + items), v);
    if !s.mine {
      AddToLast(before, s, items);
    } else if !AnyMine(front) || before == [] {
      AddToLast(before, s.(value := v), items);
    } else {
      AddTwice(before, s.items, items);
    }
  }

  predicate Begun(secs: seq<Section>) {
    secs != [] && !secs[0].mine && secs[0].key == ""
  }

  lemma EditedGrow(secs: seq<Section>, piece: string, v: Value)
    requires Begun(secs)
    ensures Edited(Grow(secs, piece, false), v) == Grow(Edited(secs, v), piece, false)
  {
    if IsItem(piece) {
      EditedAdd(secs, [Strip(piece[4..])], v);
    } else if Sets(piece) {
      EditedSnoc(secs, Section(NameOf(piece), ValueOf(piece), [], false), v);
    }
  }

  lemma {:induction false} EditedGrowAll(secs: seq<Section>, pieces: seq<string>, v: Value)
    requires Begun(secs)
    ensures Begun(GrowAll(secs, pieces, false)) && (AnyMine(GrowAll(secs, pieces, false)) <==> AnyMine(secs))
    ensures Edited(GrowAll(secs, pieces, false), v) == GrowAll(Edited(secs, v), pieces, false)
    decreases |pieces|
  {
    if pieces != [] {
      EditedGrow(secs, pieces[0], v);
      GrowKeepsMine(secs, pieces[0], false);
      EditedGrowAll(Grow(secs, pieces[0], false), pieces[1..], v);
    }
  }

  lemma GrowKeepsMine(secs: seq<Section>, piece: string, mine: bool)
    requires secs != []
    ensures AnyMine(Grow(secs, piece, mine)) <==> AnyMine(secs) || (mine && Sets(piece))
    ensures Begun(secs) ==> Begun(Grow(secs, piece, mine))
  {
    if IsItem(piece) {
      var n := |secs| - 1;
      SplitLast(secs);
      AnyMineSnoc(secs[..n], secs[n]);
      AnyMineSnoc(secs[..n], secs[n].(items := secs[n].items + [Strip(piece[4..])]));
    } else if Sets(piece) {
      AnyMineSnoc(secs, Section(NameOf(piece), ValueOf(piece), [], mine));
    }
  }

  lemma OwnLine(line: string, key: string)
    requires CleanKey(key) && Unbroken(line) && IsKeyLine(line, key)
    ensures SplitLines(line) == [line] && Sets(line) && NameOf(line) == key
  {
    var rest := line[|key| + 1..];
    assert line == key + (":" + rest);
    ColonAtOf(key, ":" + rest);
    NoItem(line, key);
    StripTrims(key);
    UnbrokenWhole(line);
  }

  lemma GrowOne(secs: seq<Section>, line: string, key: string, mine: bool)
    requires secs != [] && CleanKey(key) && Unbroken(line) && IsKeyLine(line, key)
    ensures Sets(line) && GrowAll(secs, SplitLines(line), mine) == secs + [Section(key, ValueOf(line), [], mine)]
  {
    OwnLine(line, key);
    assert [line][1..] == [];
  }

  /** The lines an edit replaces. */
  predicate OwnUnbroken(lines: seq<string>, key: string) {
    forall i :: 0 <= i < |lines| && IsKeyLine(lines[i], key) ==> Unbroken(lines[i])
  }

  function EditedAll(secs: seq<Section>, key: string, v: Value): seq<Section> {
    if AnyMine(secs) then Edited(secs, v) else secs + [Section(key, v, [], true)]
  }

  lemma EditedOwn(secs: seq<Section>, head: string, key: string, line: string, v: Value)
    requires Begun(secs) && CleanKey(key) && Names(line, key, v) && IsKeyLine(head, key) && Unbroken(head)
    ensures var now := GrowAll(secs, SplitLines(head), true);
      && Begun(now) && AnyMine(now)
      && Edited(now, v) == if AnyMine(secs) then Edited(secs, v) else GrowAll(Edited(secs, v), SplitLines(line), true)
  {
    GrowOne(secs, head, key, true);
    GrowOne(Edited(secs, v), line, key, true);
    var s := Section(key, ValueOf(head), [], true);
    AnyMineSnoc(secs, s);
    EditedSnoc(secs, s, v);
    AddNone(Edited(secs, v));
  }

  /** One line of the old text, and what it became. */
  lemma EditedLine(secs: seq<Section>, head: string, key: string, line: string, v: Value)
    requires Begun(secs) && CleanKey(key) && Names(line, key, v) && (IsKeyLine(head, key) ==> Unbroken(head))
    ensures var own := IsKeyLine(head, key);
      var now := GrowAll(secs, SplitLines(head), own);
      && Begun(now) && (AnyMine(now) <==> AnyMine(secs) || own)
      && Edited(now, v) == if !own then GrowAll(Edited(secs, v), SplitLines(head), false)
                           else if AnyMine(secs) then Edited(secs, v)
                           else GrowAll(Edited(secs, v), SplitLines(line), true)
  {
    if IsKeyLine(head, key) {
      EditedOwn(secs, head, key, line, v);
    } else {
      EditedGrowAll(secs, SplitLines(head), v);
    }
  }

  lemma GrowBlank(secs: seq<Section>, key: string)
    requires secs != []
    ensures GrowLines(secs, [""], key) == secs
  {
    assert [""][1..] == [];
  }

  lemma GrowCons(secs: seq<Section>, line: string, rest: seq<string>, key: string)
    requires secs != []
    ensures GrowLines(secs, [line] + rest, key)
      == GrowLines(GrowAll(secs, SplitLines(line), IsKeyLine(line, key)), rest, key)
  {
    assert ([line] + rest)[1..] == rest;
  }

  /** Reading what replaced a text, its first line and then the rest. */
  lemma GrowSub(secs: seq<Section>, lines: seq<string>, key: string, line: string, first: bool)
    requires secs != [] && lines != [] && IsKeyLine(line, key)
    ensures var head, rest := lines[0], lines[1..];
      var own := IsKeyLine(head, key);
      var now := if !own then GrowAll(secs, SplitLines(head), false)
                 else if first then GrowAll(secs, SplitLines(line), true) else secs;
      GrowLines(secs, Sub(lines, key, line, first), key)
        == if rest == [] then now else GrowLines(now, Sub(rest, key, line, first && !own), key)
  {
    var head, rest := lines[0], lines[1..];
    if rest == [] {
      GrowBlank(secs, key);
      if !IsKeyLine(head, key) {
        GrowCons(secs, head, [], key);
        assert [head] + [] == lines;
      } else if first {
        GrowCons(secs, line, [""], key);
        GrowBlank(GrowAll(secs, SplitLines(line), true), key);
        assert [line] + [""] == [line, ""];
      }
    } else {
      var sub := Sub(rest, key, line, first && !IsKeyLine(head, key));
      GrowCons(secs, head, sub, key);
      GrowCons(secs, line, sub, key);
      assert [] + sub == sub;
    }
  }

  lemma {:induction false} SubSections(secs: seq<Section>, lines: seq<string>, key: string, line: string, v: Value)
    requires Begun(secs) && lines != [] && CleanKey(key) && Names(line, key, v) && OwnUnbroken(lines, key)
    ensures GrowLines(Edited(secs, v), Sub(lines, key, line, !AnyMine(secs)), key)
      == Edited(GrowLines(secs, lines, key), v)
    ensures AnyMine(GrowLines(secs, lines, key)) <==> AnyMine(secs) || HasKey(lines, key)
    decreases |lines|
  {
    var now := GrowAll(secs, SplitLines(lines[0]), IsKeyLine(lines[0], key));
    EditedLine(secs, lines[0], key, line, v);
    GrowSub(Edited(secs, v), lines, key, line, !AnyMine(secs));
    HasKeyCons(lines, key);
    if |lines| > 1 { SubSections(now, lines[1..], key, line, v); }
  }

  lemma {:induction false} GrowAppend(secs: seq<Section>, a: seq<string>, b: seq<string>, key: string)
    requires secs != []
    ensures GrowLines(secs, a + b, key) == GrowLines(GrowLines(secs, a, key), b, key)
    decreases |a|
  {
    if a == [] {
      assert a + b == b;
    } else {
      ConsSuffix(a, b);
      GrowAppend(GrowAll(secs, SplitLines(a[0]), IsKeyLine(a[0], key)), a[1..], b, key);
    }
  }

  lemma {:induction false} GrowDropBlank(secs: seq<Section>, lines: seq<string>, key: string)
    requires secs != []
    ensures GrowLines(secs, DropBlank(lines), key) == GrowLines(secs, lines, key)
    decreases |lines|
  {
    if lines != [] && lines[|lines| - 1] == "" {
      var before := lines[..|lines| - 1];
      GrowDropBlank(secs, before, key);
      GrowAppend(secs, before, [""], key);
      assert before + [""] == lines;
      GrowBlank(GrowLines(secs, before, key), key);
    }
  }

  lemma AppendSections(lines: seq<string>, key: string, line: string, v: Value)
    requires CleanKey(key) && Names(line, key, v)
    ensures SectionsOf(Append(lines, line), key) == SectionsOf(lines, key) + [Section(key, v, [], true)]
  {
    var kept := DropBlank(lines);
    var head, secs := if kept == [] then [""] else kept, SectionsOf(lines, key);
    GrowDropBlank([PREAMBLE], lines, key);
    GrowBlank([PREAMBLE], key);
    GrowAppend([PREAMBLE], head, [line], key);
    assert SectionsOf(head, key) == secs;
    GrowCons(secs, line, [], key);
    assert [line] + [] == [line];
    GrowOne(secs, line, key, true);
  }

  /** The sections of an edited text are the edited sections. */
  lemma UpsertSections(lines: seq<string>, key: string, line: string, v: Value)
    requires lines != [] && CleanKey(key) && Names(line, key, v) && OwnUnbroken(lines, key)
    ensures SectionsOf(Upsert(lines, key, line), key) == EditedAll(SectionsOf(lines, key), key, v)
    ensures Begun(SectionsOf(lines, key)) && (AnyMine(SectionsOf(lines, key)) <==> HasKey(lines, key))
  {
    SubSections([PREAMBLE], lines, key, line, v);
    assert Edited([PREAMBLE], v) == [PREAMBLE] by { assert [PREAMBLE][..0] == []; }
    GrowLinesBegun([PREAMBLE], lines, key);
    if !HasKey(lines, key) { AppendSections(lines, key, line, v); }
  }

  lemma {:induction false} GrowLinesBegun(secs: seq<Section>, lines: seq<string>, key: string)
    requires Begun(secs)
    ensures Begun(GrowLines(secs, lines, key))
    decreases |lines|
  {
    if lines != [] {
      GrowAllBegun(secs, SplitLines(lines[0]), IsKeyLine(lines[0], key));
      GrowLinesBegun(GrowAll(secs, SplitLines(lines[0]), IsKeyLine(lines[0], key)), lines[1..], key);
    }
  }

  lemma {:induction false} GrowAllBegun(secs: seq<Section>, pieces: seq<string>, mine: bool)
    requires Begun(secs)
    ensures Begun(GrowAll(secs, pieces, mine))
    decreases |pieces|
  {
    if pieces != [] {
      GrowKeepsMine(secs, pieces[0], mine);
      GrowAllBegun(Grow(secs, pieces[0], mine), pieces[1..], mine);
    }
  }
  // ------------------------------------------------------------ when it reads back as it should

  predicate OwnNamed(secs: seq<Section>, key: string) {
    forall i :: 0 <= i < |secs| && secs[i].mine ==> secs[i].key == key
  }

  /** A section of the field that the edit takes away. */
  predicate Vanishes(secs: seq<Section>, j: nat)
    requires j < |secs|
  {
    secs[j].mine && AnyMine(secs[..j])
  }

  /** The section to which the items below a section fall. */
  function Host(secs: seq<Section>, j: nat): (h: nat)
    requires j < |secs|
    ensures h <= j
  {
    if j == 0 || !Vanishes(secs, j) then j else Host(secs, j - 1)
  }

  /** No item is left below the new line, nor falls to a field that is not a list. */
  ghost predicate Bearable(secs: seq<Section>) {
    forall j :: 0 <= j < |secs| && secs[j].mine && secs[j].items != [] ==>
      Vanishes(secs, j) && var h := secs[Host(secs, j)]; !h.mine && (h.key == "" || h.value.Items?)
  }

  ghost predicate FallsTo(secs: seq<Section>, j: nat, other: string)
    requires j < |secs|
  {
    Vanishes(secs, j) && secs[j].items != [] && secs[Host(secs, j)].key == other && SetLast(secs, Host(secs, j))
  }

  /** Items fall to the other field, which is not set again afterwards. */
  ghost predicate Disturbed(secs: seq<Section>, other: string) {
    && other != ""
    && exists j :: 0 <= j < |secs| && FallsTo(secs, j, other)
  }

  predicate SetLast(secs: seq<Section>, h: nat)
    requires h < |secs|
  {
    forall p :: h < p < |secs| ==> secs[p].key != secs[h].key
  }

  /** What the field is set to by the last line of it, after the first one that the editor
      recognises, that the editor does not recognise: its name is not flush with the left margin,
      has a space before the colon, or follows one of the rarer line breaks. */
  function LastOther(secs: seq<Section>, key: string): Option<Value> {
    if secs == [] then None
    else
      var n := |secs| - 1;
      if !secs[n].mine && secs[n].key == key && AnyMine(secs[..n]) then Some(secs[n].value)
      else LastOther(secs[..n], key)
  }

  lemma HostSnoc(secs: seq<Section>, s: Section, j: nat)
    requires j < |secs|
    ensures Host(secs + [s], j) == Host(secs, j) && Vanishes(secs + [s], j) == Vanishes(secs, j)
  {
    assert (secs + [s])[..j] == secs[..j];
    if j > 0 && Vanishes(secs, j) { HostSnoc(secs, s, j - 1); }
  }

  lemma HostOfLast(secs: seq<Section>, s: Section)
    ensures Vanishes(secs + [s], |secs|) == (s.mine && AnyMine(secs))
    ensures Host(secs + [s], |secs|) == if |secs| > 0 && s.mine && AnyMine(secs) then Host(secs, |secs| - 1) else |secs|
  {
    assert (secs + [s])[..|secs|] == secs;
    if |secs| > 0 { HostSnoc(secs, s, |secs| - 1); }
  }

  /** The last section of the edited text is the one the items of the last section fall to. */
  ghost predicate EndsAtHost(secs: seq<Section>, now: seq<Section>, v: Value) {
    && secs != [] && now != []
    && var h, t := secs[Host(secs, |secs| - 1)], now[|now| - 1];
       t.key == h.key && t.mine == h.mine && t.value == (if h.mine then v else h.value) && |t.items| >= |h.items|
  }

  lemma {:induction false} EditedEnds(secs: seq<Section>, v: Value)
    requires Begun(secs)
    ensures EndsAtHost(secs, Edited(secs, v), v)
    decreases |secs|
  {
    var n := |secs| - 1;
    HostOfLast(secs[..n], secs[n]);
    SplitLast(secs);
    EditedSnoc(secs[..n], secs[n], v);
    if n > 0 {
      EditedEnds(secs[..n], v);
      HostOfMine(secs, n);
    }
  }

  lemma HostOfMine(secs: seq<Section>, j: nat)
    requires Begun(secs) && j < |secs|
    ensures !Vanishes(secs, Host(secs, j))
  {
    if j > 0 && Vanishes(secs, j) { HostOfMine(secs, j - 1); }
  }

  lemma BearableSnoc(secs: seq<Section>, s: Section)
    requires Begun(secs)
    ensures Bearable(secs + [s]) <==> Bearable(secs) && (s.mine && s.items != [] ==>
      AnyMine(secs) && var h := secs[Host(secs, |secs| - 1)]; !h.mine && (h.key == "" || h.value.Items?))
  {
    var all := secs + [s];
    HostOfLast(secs, s);
    assert all[|secs|] == s;
    forall j | 0 <= j < |secs|
      ensures Vanishes(all, j) == Vanishes(secs, j) && Host(all, j) == Host(secs, j) && all[j] == secs[j]
    {
      HostSnoc(secs, s, j);
    }
    if Bearable(all) {
      forall j | 0 <= j < |secs| && secs[j].mine && secs[j].items != []
        ensures Vanishes(secs, j) && var h := secs[Host(secs, j)]; !h.mine && (h.key == "" || h.value.Items?)
      {
        assert all[j].mine && all[j].items != [];
        assert all[Host(all, j)] == secs[Host(secs, j)];
      }
    }
  }

  lemma SoundMoves(secs: seq<Section>, s: Section, v: Value)
    requires Begun(secs) && s.mine && AnyMine(secs) && !v.Items? && (secs[Host(secs, |secs| - 1)].mine ==> s.key != "")
    requires secs[Host(secs, |secs| - 1)].mine ==> secs[Host(secs, |secs| - 1)].key == s.key
    ensures Sound(AddItems(Edited(secs, v), s.items)) <==> Sound(Edited(secs, v)) && (s.items != [] ==>
      var h := secs[Host(secs, |secs| - 1)]; !h.mine && (h.key == "" || h.value.Items?))
  {
    EditedEnds(secs, v);
    SoundAdd(Edited(secs, v), s.items);
  }

  lemma SoundStep(secs: seq<Section>, s: Section, key: string, v: Value)
    requires Begun(secs) && OwnNamed(secs, key) && (s.mine ==> s.key == key) && key != "" && !v.Items? && !s.Broken()
    requires Sound(Edited(secs, v)) <==> Bearable(secs)
    ensures Sound(Edited(secs + [s], v)) <==> Bearable(secs + [s])
  {
    EditedSnoc(secs, s, v);
    EditedEnds(secs, v);
    BearableSnoc(secs, s);
    if s.mine && AnyMine(secs) {
      SoundMoves(secs, s, v);
    } else {
      SoundSnoc(Edited(secs, v), if s.mine then s.(value := v) else s);
    }
  }

  /** The edited text can be read exactly when its items are bearable. */
  lemma {:induction false} SoundExactly(secs: seq<Section>, key: string, v: Value)
    requires Begun(secs) && Sound(secs) && OwnNamed(secs, key) && key != "" && !v.Items?
    ensures Sound(Edited(secs, v)) <==> Bearable(secs)
    decreases |secs|
  {
    var n := |secs| - 1;
    SplitLast(secs);
    if n == 0 {
      EditedOne(secs[0], v);
      SoundSnoc([], secs[0]);
    } else {
      SoundSnoc(secs[..n], secs[n]);
      SoundExactly(secs[..n], key, v);
      SoundStep(secs[..n], secs[n], key, v);
    }
  }

  lemma EditedOne(s: Section, v: Value)
    requires !s.mine
    ensures Edited([s], v) == [s]
  {
    assert [] + [s] == [s];
    EditedSnoc([], s, v);
  }

  /** A field is the same in both readings. */
  predicate SameAt(f: map<string, Value>, g: map<string, Value>, k: string) {
    (k in f <==> k in g) && (k in f ==> f[k] == g[k])
  }

  lemma DisturbedBefore(secs: seq<Section>, s: Section, other: string)
    requires Disturbed(secs + [s], other)
    ensures s.key != other
    ensures Disturbed(secs, other) || (s.mine && AnyMine(secs) && s.items != [] && HostIs(secs, other))
  {
    var all := secs + [s];
    var j :| 0 <= j < |all| && FallsTo(all, j, other);
    HostOfLast(secs, s);
    if j < |secs| {
      FallsSnoc(secs, s, j, other);
    } else {
      assert all[|secs|] == s;
      AnyMineSome(secs);
      SetLastSnoc(secs, s, Host(secs, |secs| - 1));
    }
  }

  lemma AnyMineSome(secs: seq<Section>)
    ensures AnyMine(secs) ==> secs != []
  {}

  lemma DisturbedAfter(secs: seq<Section>, s: Section, other: string)
    requires s.key != other && other != ""
    requires Disturbed(secs, other) || (s.mine && AnyMine(secs) && s.items != [] && HostIs(secs, other))
    ensures Disturbed(secs + [s], other)
  {
    if Disturbed(secs, other) {
      var j :| 0 <= j < |secs| && FallsTo(secs, j, other);
      FallsSnoc(secs, s, j, other);
    } else {
      HostOfLast(secs, s);
      SetLastSnoc(secs, s, Host(secs, |secs| - 1));
      assert (secs + [s])[|secs|] == s && FallsTo(secs + [s], |secs|, other);
    }
  }

  lemma FallsSnoc(secs: seq<Section>, s: Section, j: nat, other: string)
    requires j < |secs|
    ensures FallsTo(secs + [s], j, other) <==> FallsTo(secs, j, other) && s.key != other
  {
    HostSnoc(secs, s, j);
    SetLastSnoc(secs, s, Host(secs, j));
  }

  /** The section that the next item falls to is the other field's last. */
  ghost predicate HostIs(secs: seq<Section>, other: string) {
    secs != [] && var h := Host(secs, |secs| - 1); secs[h].key == other && SetLast(secs, h)
  }

  lemma SetLastSnoc(secs: seq<Section>, s: Section, h: nat)
    requires h < |secs|
    ensures SetLast(secs + [s], h) <==> SetLast(secs, h) && s.key != secs[h].key
  {
    var all := secs + [s];
    assert all[|secs|] == s && all[h] == secs[h];
    assert forall p :: 0 <= p < |secs| ==> all[p] == secs[p];
    if SetLast(all, h) {
      assert forall p :: h < p < |secs| ==> all[p].key == secs[p].key;
    }
  }

  lemma {:induction false} EditedBegun(secs: seq<Section>, v: Value)
    requires Begun(secs)
    ensures Begun(Edited(secs, v))
    decreases |secs|
  {
    var n := |secs| - 1;
    SplitLast(secs);
    EditedSnoc(secs[..n], secs[n], v);
    if n > 0 { EditedBegun(secs[..n], v); }
  }

  lemma {:induction false} AfterHost(secs: seq<Section>, j: nat)
    requires j < |secs|
    ensures forall p :: Host(secs, j) < p <= j ==> secs[p].mine
  {
    if j > 0 && Vanishes(secs, j) { AfterHost(secs, j - 1); }
  }

  lemma HostLast(secs: seq<Section>, key: string, other: string)
    requires secs != [] && OwnNamed(secs, key) && other != key
    ensures HostIs(secs, other) <==> secs[Host(secs, |secs| - 1)].key == other
  {
    AfterHost(secs, |secs| - 1);
  }

  lemma {:induction false} ContentOfLast(secs: seq<Section>, h: nat)
    requires 0 < h < |secs| && SetLast(secs, h)
    ensures secs[h].key in Contents(secs) && Contents(secs)[secs[h].key] == secs[h].Holds()
    decreases |secs|
  {
    var n := |secs| - 1;
    if h < n {
      SplitLast(secs);
      SetLastSnoc(secs[..n], secs[n], h);
      ContentOfLast(secs[..n], h);
    }
  }

  /** Items that fall to a list make it longer. */
  lemma HostGrows(secs: seq<Section>, before: seq<Section>, items: seq<string>, v: Value, k: string)
    requires Begun(secs) && Begun(before) && EndsAtHost(secs, before, v) && HostIs(secs, k) && items != [] && k != ""
    requires var h := secs[Host(secs, |secs| - 1)]; !h.mine && h.value.Items?
    ensures !SameAt(Contents(secs), Contents(AddItems(before, items)), k)
  {
    var h, n := Host(secs, |secs| - 1), |before| - 1;
    ContentOfLast(secs, h);
    ContentsAdd(before, items);
    var xs, ys := secs[h].value.items + secs[h].items, before[n].value.items + (before[n].items + items);
    assert |ys| > |xs|;
  }

  lemma OthersKept(before: seq<Section>, items: seq<string>, k: string)
    requires before != [] && (items == [] || before[|before| - 1].key != k || k == "")
    ensures SameAt(Contents(before), Contents(AddItems(before, items)), k)
  {
    var n := |before| - 1;
    SplitLast(before);
    if items == [] {
      AddNone(before);
    } else {
      ContentsAdd(before, items);
      if n > 0 { ContentsSnoc(before[..n], before[n]); }
    }
  }

  /** A section that stays, or is the first of the field's own. */
  lemma FieldStays(secs: seq<Section>, before: seq<Section>, s: Section, t: Section, k: string)
    requires secs != [] && before != [] && t.key == s.key && (t == s || s.key != k)
    ensures SameAt(Contents(secs + [s]), Contents(before + [t]), k) <==>
      s.key == k || SameAt(Contents(secs), Contents(before), k)
  {
    ContentsSnoc(secs, s);
    ContentsSnoc(before, t);
  }

  /** A section whose items fall to the one before. */
  lemma FieldVanishes(secs: seq<Section>, s: Section, v: Value, k: string)
    requires Begun(secs) && s.mine && AnyMine(secs) && s.key != k && Bearable(secs + [s])
    requires HostIs(secs, k) <==> secs[Host(secs, |secs| - 1)].key == k
    ensures SameAt(Contents(secs + [s]), Contents(AddItems(Edited(secs, v), s.items)), k) <==>
      (s.items == [] || !HostIs(secs, k) || k == "") && SameAt(Contents(secs), Contents(Edited(secs, v)), k)
  {
    var before := Edited(secs, v);
    EditedBegun(secs, v);
    EditedEnds(secs, v);
    BearableSnoc(secs, s);
    ContentsSnoc(secs, s);
    if s.items != [] && HostIs(secs, k) && k != "" {
      HostGrows(secs, before, s.items, v, k);
    } else {
      OthersKept(before, s.items, k);
    }
  }

  lemma DisturbedIs(secs: seq<Section>, s: Section, key: string, k: string)
    requires (s.mine ==> s.key == key) && k != key
    ensures Disturbed(secs + [s], k) <==>
      s.key != k && (Disturbed(secs, k) || (s.mine && AnyMine(secs) && s.items != [] && HostIs(secs, k) && k != ""))
  {
    if Disturbed(secs + [s], k) { DisturbedBefore(secs, s, k); }
    if s.key != k && k != "" && (Disturbed(secs, k) || (s.mine && AnyMine(secs) && s.items != [] && HostIs(secs, k))) {
      DisturbedAfter(secs, s, k);
    }
  }

  lemma FieldSnoc(secs: seq<Section>, s: Section, key: string, v: Value, k: string)
    requires Begun(secs) && OwnNamed(secs, key) && (s.mine ==> s.key == key) && k != key && Bearable(secs + [s])
    requires SameAt(Contents(secs), Contents(Edited(secs, v)), k) <==> !Disturbed(secs, k)
    ensures SameAt(Contents(secs + [s]), Contents(Edited(secs + [s], v)), k) <==> !Disturbed(secs + [s], k)
  {
    EditedSnoc(secs, s, v);
    EditedBegun(secs, v);
    HostLast(secs, key, k);
    DisturbedIs(secs, s, key, k);
    if s.mine && AnyMine(secs) {
      FieldVanishes(secs, s, v, k);
    } else {
      FieldStays(secs, Edited(secs, v), s, if s.mine then s.(value := v) else s, k);
    }
  }

  /** Another field reads as before exactly when no items fall to it for good. */
  lemma {:induction false} FieldExactly(secs: seq<Section>, key: string, v: Value, k: string)
    requires Begun(secs) && OwnNamed(secs, key) && key != "" && k != key && Bearable(secs)
    ensures SameAt(Contents(secs), Contents(Edited(secs, v)), k) <==> !Disturbed(secs, k)
    decreases |secs|
  {
    var n := |secs| - 1;
    SplitLast(secs);
    if n == 0 {
      EditedOne(secs[0], v);
    } else {
      BearableSnoc(secs[..n], secs[n]);
      FieldExactly(secs[..n], key, v, k);
      FieldSnoc(secs[..n], secs[n], key, v, k);
    }
  }

  /** What the field itself reads as. */
  ghost predicate ReadsUnless(m: map<string, Value>, key: string, v: Value, other: Option<Value>) {
    key in m && (m[key] == v <==> other == None || other == Some(v))
  }

  lemma LastOtherSnoc(secs: seq<Section>, s: Section, key: string)
    ensures LastOther(secs + [s], key)
      == if !s.mine && s.key == key && AnyMine(secs) then Some(s.value) else LastOther(secs, key)
  {
    assert (secs + [s])[..|secs|] == secs;
  }

  lemma NoneBefore(secs: seq<Section>, key: string)
    requires !AnyMine(secs)
    ensures LastOther(secs, key) == None
  {
    if secs != [] {
      var n := |secs| - 1;
      SplitLast(secs);
      AnyMineSnoc(secs[..n], secs[n]);
      NoneBefore(secs[..n], key);
    }
  }

  lemma OwnKept(before: seq<Section>, items: seq<string>, key: string, v: Value, other: Option<Value>)
    requires Begun(before) && key != "" && !v.Items? && ReadsUnless(Contents(before), key, v, other)
    ensures ReadsUnless(Contents(AddItems(before, items)), key, v, other)
  {
    var n := |before| - 1;
    ContentsAdd(before, items);
    if n > 0 {
      SplitLast(before);
      ContentsSnoc(before[..n], before[n]);
    }
  }

  lemma OwnStays(before: seq<Section>, s: Section, key: string, v: Value, other: Option<Value>)
    requires before != [] && key != "" && !v.Items?
    requires s.key == key || ReadsUnless(Contents(before), key, v, other)
    ensures ReadsUnless(Contents(before + [s]), key, v, if s.key == key then Some(s.value) else other)
  {
    ContentsSnoc(before, s);
  }

  lemma OwnSnoc(secs: seq<Section>, s: Section, key: string, v: Value)
    requires Begun(secs) && (s.mine ==> s.key == key) && key != "" && !v.Items? && (AnyMine(secs) || s.mine)
    requires AnyMine(secs) ==> ReadsUnless(Contents(Edited(secs, v)), key, v, LastOther(secs, key))
    ensures ReadsUnless(Contents(Edited(secs + [s], v)), key, v, LastOther(secs + [s], key))
  {
    var before := Edited(secs, v);
    EditedSnoc(secs, s, v);
    LastOtherSnoc(secs, s, key);
    EditedBegun(secs, v);
    if !s.mine {
      OwnStays(before, s, key, v, LastOther(secs, key));
    } else if AnyMine(secs) {
      OwnKept(before, s.items, key, v, LastOther(secs, key));
    } else {
      NoneBefore(secs, key);
      OwnStays(before, s.(value := v), key, v, None);
    }
  }

  /** The field reads as written exactly when no later line sets it otherwise. */
  lemma {:induction false} OwnExactly(secs: seq<Section>, key: string, v: Value)
    requires Begun(secs) && OwnNamed(secs, key) && key != "" && !v.Items? && AnyMine(secs)
    ensures ReadsUnless(Contents(Edited(secs, v)), key, v, LastOther(secs, key))
    decreases |secs|
  {
    var n := |secs| - 1;
    SplitLast(secs);
    AnyMineSnoc(secs[..n], secs[n]);
    if AnyMine(secs[..n]) { OwnExactly(secs[..n], key, v); }
    OwnSnoc(secs[..n], secs[n], key, v);
  }

  lemma {:induction false} GrowLinesNamed(secs: seq<Section>, lines: seq<string>, key: string)
    requires secs != [] && CleanKey(key) && OwnNamed(secs, key) && OwnUnbroken(lines, key)
    ensures OwnNamed(GrowLines(secs, lines, key), key)
    decreases |lines|
  {
    if lines != [] {
      if IsKeyLine(lines[0], key) {
        GrowOne(secs, lines[0], key, true);
      } else {
        GrowAllNamed(secs, SplitLines(lines[0]), key);
      }
      GrowLinesNamed(GrowAll(secs, SplitLines(lines[0]), IsKeyLine(lines[0], key)), lines[1..], key);
    }
  }

  lemma {:induction false} GrowAllNamed(secs: seq<Section>, pieces: seq<string>, key: string)
    requires secs != [] && OwnNamed(secs, key)
    ensures OwnNamed(GrowAll(secs, pieces, false), key)
    decreases |pieces|
  {
    if pieces != [] { GrowAllNamed(Grow(secs, pieces[0], false), pieces[1..], key); }
  }

  ghost predicate Undisturbed(secs: seq<Section>, key: string) {
    forall k :: k != key ==> !Disturbed(secs, k)
  }

  lemma SameButAll(f: map<string, Value>, g: map<string, Value>, key: string)
    ensures SameBut(f, g, key) <==> forall k :: k != key ==> SameAt(f, g, k)
  {
    if forall k :: k != key ==> SameAt(f, g, k) {
      forall k | k != key ensures (k in f <==> k in g) && (k in f ==> f[k] == g[k]) {
        assert SameAt(f, g, k);
      }
    }
  }

  lemma EditedReads(secs: seq<Section>, key: string, v: Value)
    requires Begun(secs) && Sound(secs) && OwnNamed(secs, key) && key != "" && !v.Items? && AnyMine(secs)
    ensures var now := Edited(secs, v);
      && (Sound(now) <==> Bearable(secs))
      && (Bearable(secs) ==>
            && (SameBut(Contents(secs), Contents(now), key) <==> Undisturbed(secs, key))
            && ReadsUnless(Contents(now), key, v, LastOther(secs, key)))
  {
    var now := Edited(secs, v);
    SoundExactly(secs, key, v);
    if Bearable(secs) {
      OwnExactly(secs, key, v);
      forall k | k != key ensures SameAt(Contents(secs), Contents(now), k) <==> !Disturbed(secs, k) {
        FieldExactly(secs, key, v, k);
      }
      SameButAll(Contents(secs), Contents(now), key);
    }
  }

  lemma NothingMine(secs: seq<Section>, key: string)
    requires !AnyMine(secs)
    ensures Bearable(secs) && Undisturbed(secs, key) && LastOther(secs, key) == None
  {
    NoneBefore(secs, key);
  }

  lemma AppendedReads(secs: seq<Section>, key: string, v: Value)
    requires secs != [] && Sound(secs) && !v.Items?
    ensures var now := secs + [Section(key, v, [], true)];
      && Sound(now) && SameBut(Contents(secs), Contents(now), key)
      && key in Contents(now) && Contents(now)[key] == v
  {
    var s := Section(key, v, [], true);
    SoundSnoc(secs, s);
    ContentsSnoc(secs, s);
  }

  /** An edit of a one-line field of any readable front matter none of whose lines that the edit
      replaces holds one of the rarer line breaks. The result can be read if and only if no items
      are left below the new line nor fall to a field that is no list; the other fields then read
      as before if and only if no items fall to one of them for good; and the field itself reads
      as written if and only if no line that the editor does not recognise sets it otherwise
      afterwards. */
  lemma EditTakesExactly(lines: seq<string>, key: string, line: string, v: Value)
    requires lines != [] && CleanKey(key) && Names(line, key, v)
    requires OwnUnbroken(lines, key) && !Read(lines).failed
    ensures var secs, was, now := SectionsOf(lines, key), Read(lines), Read(Upsert(lines, key, line));
      && (!now.failed <==> Bearable(secs))
      && (!now.failed ==> (SameBut(was.fields, now.fields, key) <==> Undisturbed(secs, key)))
      && (!now.failed ==> ReadsUnless(now.fields, key, v, LastOther(secs, key)))
  {
    var secs := SectionsOf(lines, key);
    UpsertSections(lines, key, line, v);
    ReadsAsSections(lines, key);
    ReadsAsSections(Upsert(lines, key, line), key);
    assert OwnNamed([PREAMBLE], key);
    GrowLinesNamed([PREAMBLE], lines, key);
    if AnyMine(secs) {
      EditedReads(secs, key, v);
    } else {
      NothingMine(secs, key);
      AppendedReads(secs, key, v);
    }
  }
}
