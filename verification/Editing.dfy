/** In-place edits of a ticket's front matter (fleet/fleet.py): one-line fields are replaced or
    appended by regular expression, list blocks are replaced where they stand. */
module Editing {
  import opened TextLines
  import opened FrontMatter
  import opened Rendering
  import opened Sections

  predicate HasKey(lines: seq<string>, key: string) {
    exists i :: 0 <= i < |lines| && IsKeyLine(lines[i], key)
  }

  // ------------------------------------------------------------ one-line fields, on the text

  /** `re.search(^key:)` in multi-line mode. */
  predicate HasKeyText(fm: string, key: string)
    decreases |fm|
  {
    var n := LineLength(fm);
    IsKeyLine(fm, key) || (n < |fm| && HasKeyText(fm[n + 1..], key))
  }

  /** `re.sub(^key:.*$\n?)`: the first match becomes the new line and a newline, later ones vanish. */
  function SubText(fm: string, key: string, line: string, first: bool): string
    decreases |fm|
  {
    var n := LineLength(fm);
    if IsKeyLine(fm, key) then
      (if first then line + "\n" else "") + (if n < |fm| then SubText(fm[n + 1..], key, line, false) else "")
    else if n < |fm| then fm[..n] + ("\n" + SubText(fm[n + 1..], key, line, first))
    else fm
  }

  function StripNewlines(s: string): string {
    if s != "" && s[|s| - 1] == '\n' then StripNewlines(s[..|s| - 1]) else s
  }

  function UpsertText(fm: string, key: string, line: string): string {
    if HasKeyText(fm, key) then SubText(fm, key, line, true) else StripNewlines(fm) + ("\n" + line)
  }

  // ------------------------------------------------------------ the same on lines

  function Sub(lines: seq<string>, key: string, line: string, first: bool): (r: seq<string>)
    requires lines != []
    ensures r != []
  {
    if |lines| == 1 then
      if IsKeyLine(lines[0], key) then if first then [line, ""] else [""] else lines
    else if IsKeyLine(lines[0], key) then
      (if first then [line] else []) + Sub(lines[1..], key, line, false)
    else [lines[0]] + Sub(lines[1..], key, line, first)
  }

  function DropBlank(lines: seq<string>): seq<string> {
    if lines != [] && lines[|lines| - 1] == "" then DropBlank(lines[..|lines| - 1]) else lines
  }

  function Append(lines: seq<string>, line: string): seq<string> {
    var kept := DropBlank(lines);
    (if kept == [] then [""] else kept) + [line]
  }

  function Upsert(lines: seq<string>, key: string, line: string): (r: seq<string>)
    requires lines != []
    ensures r != []
  {
    if HasKey(lines, key) then Sub(lines, key, line, true) else Append(lines, line)
  }

  lemma KeyLineAhead(line: string, rest: string, key: string)
    requires OneLine(line) && OneLine(key) && (rest == "" || rest[0] == '\n')
    ensures IsKeyLine(line + rest, key) <==> IsKeyLine(line, key)
  {
    var k, s := key + ":", line + rest;
    if |k| <= |line| {
      assert s[..|k|] == line[..|k|];
    } else if |k| <= |s| {
      assert s[|line|] == '\n';
      assert s[..|k|][|line|] == '\n' != k[|line|];
    }
  }

  /** The head of a text is its first line. */
  lemma FirstLine(lines: seq<string>, key: string)
    requires |lines| > 1 && AllOneLine(lines) && OneLine(key)
    ensures var s, n := Join(lines), |lines[0]|;
      && LineLength(s) == n < |s| && s[..n] == lines[0] && s[n + 1..] == Join(lines[1..])
      && (IsKeyLine(s, key) <==> IsKeyLine(lines[0], key))
  {
    var tail := "\n" + Join(lines[1..]);
    var s := lines[0] + tail;
    assert Join(lines) == s;
    LineLengthOf(lines[0], tail);
    KeyLineAhead(lines[0], tail, key);
    assert tail[1..] == Join(lines[1..]);
    assert s[|lines[0]| + 1..] == tail[1..];
  }

  lemma OnlyLine(line: string)
    requires OneLine(line)
    ensures LineLength(line) == |line|
  {
    LineLengthOf(line, "");
    assert line + "" == line;
  }

  lemma {:induction false} HasKeyLines(lines: seq<string>, key: string)
    requires lines != [] && AllOneLine(lines) && OneLine(key)
    ensures HasKeyText(Join(lines), key) <==> HasKey(lines, key)
    decreases |lines|
  {
    HasKeyCons(lines, key);
    if |lines| == 1 {
      OnlyLine(lines[0]);
    } else {
      FirstLine(lines, key);
      HasKeyLines(lines[1..], key);
    }
  }

  lemma HasKeyCons(lines: seq<string>, key: string)
    requires lines != []
    ensures HasKey(lines, key) <==> IsKeyLine(lines[0], key) || HasKey(lines[1..], key)
  {
    if HasKey(lines[1..], key) {
      var i :| 0 <= i < |lines[1..]| && IsKeyLine(lines[1..][i], key);
      assert IsKeyLine(lines[i + 1], key);
    }
    if HasKey(lines, key) && !IsKeyLine(lines[0], key) {
      var i :| 0 <= i < |lines| && IsKeyLine(lines[i], key);
      assert IsKeyLine(lines[1..][i - 1], key);
    }
  }

  lemma {:induction false} SubLines(lines: seq<string>, key: string, line: string, first: bool)
    requires lines != [] && AllOneLine(lines) && OneLine(key)
    ensures SubText(Join(lines), key, line, first) == Join(Sub(lines, key, line, first))
    decreases |lines|
  {
    if |lines| == 1 {
      OnlyLine(lines[0]);
      JoinCons(line, [""]);
      assert line + "\n" + "" == line + "\n";
    } else {
      FirstLine(lines, key);
      var flag := first && !IsKeyLine(lines[0], key);
      SubLines(lines[1..], key, line, flag);
      var sub := Sub(lines[1..], key, line, flag);
      if !IsKeyLine(lines[0], key) {
        JoinCons(lines[0], sub);
      } else if first {
        JoinCons(line, sub);
      } else {
        assert [] + sub == sub;
      }
    }
  }

  lemma {:induction false} JoinSnoc(lines: seq<string>, line: string)
    requires lines != []
    ensures Join(lines + [line]) == Join(lines) + ("\n" + line)
  {
    JoinAppend(lines, [line]);
  }

  lemma {:induction false} StripNewlinesLines(lines: seq<string>)
    requires lines != [] && AllOneLine(lines)
    ensures var kept := DropBlank(lines); StripNewlines(Join(lines)) == if kept == [] then "" else Join(kept)
    decreases |lines|
  {
    var n := |lines| - 1;
    var last, before := lines[n], lines[..n];
    if n == 0 {
      assert before == [];
      if last != "" { assert last[|last| - 1] != '\n'; }
    } else {
      JoinSnoc(before, last);
      assert before + [last] == lines;
      var s := Join(lines);
      if last == "" {
        assert s == Join(before) + "\n" && s[..|s| - 1] == Join(before);
        StripNewlinesLines(before);
      } else {
        assert s[|s| - 1] == last[|last| - 1] != '\n';
      }
    }
  }

  /** The regular expressions do to the text what `Upsert` does to its lines. */
  lemma UpsertLines(lines: seq<string>, key: string, line: string)
    requires lines != [] && AllOneLine(lines) && OneLine(key)
    ensures UpsertText(Join(lines), key, line) == Join(Upsert(lines, key, line))
  {
    HasKeyLines(lines, key);
    if HasKey(lines, key) {
      SubLines(lines, key, line, true);
    } else {
      StripNewlinesLines(lines);
      var kept := DropBlank(lines);
      JoinSnoc(if kept == [] then [""] else kept, line);
    }
  }

  // ------------------------------------------------------------ exactly one line, and a fixed point

  function CountKey(lines: seq<string>, key: string): nat {
    if lines == [] then 0 else (if IsKeyLine(lines[0], key) then 1 else 0) + CountKey(lines[1..], key)
  }

  lemma {:induction false} CountAppend(xs: seq<string>, ys: seq<string>, key: string)
    ensures CountKey(xs + ys, key) == CountKey(xs, key) + CountKey(ys, key)
    decreases |xs|
  {
    if xs == [] {
      assert xs + ys == ys;
    } else {
      CountAppend(xs[1..], ys, key);
      assert (xs + ys)[0] == xs[0] && (xs + ys)[1..] == xs[1..] + ys;
    }
  }

  lemma {:induction false} CountZero(lines: seq<string>, key: string)
    ensures CountKey(lines, key) == 0 <==> !HasKey(lines, key)
  {
    if lines != [] {
      CountZero(lines[1..], key);
      HasKeyCons(lines, key);
    }
  }

  lemma {:induction false} SubCount(lines: seq<string>, key: string, line: string, first: bool)
    requires lines != [] && key != "" && IsKeyLine(line, key)
    ensures CountKey(Sub(lines, key, line, first), key) == if first && HasKey(lines, key) then 1 else 0
    decreases |lines|
  {
    HasKeyCons(lines, key);
    if |lines| == 1 {
      CountZero(lines, key);
      assert [line, ""][1..] == [""] && [""][1..] == [];
    } else if IsKeyLine(lines[0], key) {
      SubCount(lines[1..], key, line, false);
      CountAppend(if first then [line] else [], Sub(lines[1..], key, line, false), key);
      assert [line][1..] == [];
    } else {
      SubCount(lines[1..], key, line, first);
      CountAppend([lines[0]], Sub(lines[1..], key, line, first), key);
      assert [lines[0]][1..] == [];
    }
  }

  lemma {:induction false} DropBlankPrefix(lines: seq<string>)
    ensures var kept := DropBlank(lines); |kept| <= |lines| && kept == lines[..|kept|]
    ensures forall i :: |DropBlank(lines)| <= i < |lines| ==> lines[i] == ""
  {
    if lines != [] && lines[|lines| - 1] == "" { DropBlankPrefix(lines[..|lines| - 1]); }
  }

  /** After an edit the field has exactly one line, however many it had before. */
  lemma ExactlyOneLine(lines: seq<string>, key: string, line: string)
    requires lines != [] && key != "" && IsKeyLine(line, key)
    ensures CountKey(Upsert(lines, key, line), key) == 1
  {
    if HasKey(lines, key) {
      SubCount(lines, key, line, true);
    } else {
      DropBlankPrefix(lines);
      var kept := DropBlank(lines);
      var head := if kept == [] then [""] else kept;
      assert forall i :: 0 <= i < |kept| ==> kept[i] == lines[i];
      CountZero(head, key);
      CountAppend(head, [line], key);
      assert [line][1..] == [];
    }
  }

  /** The field's line is there once, as written, and not at the very end. */
  predicate Settled(lines: seq<string>, key: string, line: string) {
    && lines != [] && !IsKeyLine(lines[|lines| - 1], key)
    && (forall i :: 0 <= i < |lines| && IsKeyLine(lines[i], key) ==> lines[i] == line)
    && CountKey(lines, key) == 1
  }

  lemma {:induction false} SubIdentity(lines: seq<string>, key: string, line: string, first: bool)
    requires lines != [] && !IsKeyLine(lines[|lines| - 1], key)
    requires CountKey(lines, key) == if first then 1 else 0
    requires forall i :: 0 <= i < |lines| && IsKeyLine(lines[i], key) ==> lines[i] == line
    ensures Sub(lines, key, line, first) == lines
    decreases |lines|
  {
    if |lines| > 1 {
      SubIdentity(lines[1..], key, line, first && !IsKeyLine(lines[0], key));
      assert lines == [lines[0]] + lines[1..];
    } else {
      assert CountKey(lines[1..], key) == 0;
    }
  }

  lemma SettledFixed(lines: seq<string>, key: string, line: string)
    requires Settled(lines, key, line)
    ensures Upsert(lines, key, line) == lines
  {
    CountZero(lines, key);
    SubIdentity(lines, key, line, true);
  }

  lemma {:induction false} SubSettles(lines: seq<string>, key: string, line: string, first: bool)
    requires lines != [] && key != ""
    ensures var r := Sub(lines, key, line, first);
      && !IsKeyLine(r[|r| - 1], key)
      && (forall i :: 0 <= i < |r| && IsKeyLine(r[i], key) ==> r[i] == line)
    decreases |lines|
  {
    if |lines| > 1 {
      SubSettles(lines[1..], key, line, first && !IsKeyLine(lines[0], key));
    }
  }

  lemma UpsertSettles(lines: seq<string>, key: string, line: string)
    requires lines != [] && key != "" && IsKeyLine(line, key) && HasKey(lines, key)
    ensures Settled(Upsert(lines, key, line), key, line)
  {
    SubSettles(lines, key, line, true);
    SubCount(lines, key, line, true);
  }

  /** Repeating an edit: from the second time on the text no longer changes, and already from
      the first exactly when the field was there before. An appended line only gets its newline
      the next time round. */
  lemma FixedPointExactly(lines: seq<string>, key: string, line: string)
    requires lines != [] && key != "" && IsKeyLine(line, key)
    ensures var once := Upsert(lines, key, line);
      var twice := Upsert(once, key, line);
      && Upsert(twice, key, line) == twice
      && (twice == once <==> HasKey(lines, key))
  {
    var once := Upsert(lines, key, line);
    ExactlyOneLine(lines, key, line);
    CountZero(once, key);
    UpsertSettles(once, key, line);
    var twice := Upsert(once, key, line);
    SettledFixed(twice, key, line);
    if HasKey(lines, key) {
      UpsertSettles(lines, key, line);
      SettledFixed(once, key, line);
    } else {
      assert once[|once| - 1] == line;
      assert !IsKeyLine(twice[|twice| - 1], key);
    }
  }
}
