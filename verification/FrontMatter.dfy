/** Ticket files: the front-matter reader (fleet/fleet.py) and the printer that generates a
    ticket from a tracker row (fleet/lib/tickets.py). */
module FrontMatter {
  import opened Wrappers
  import opened TextLines
  import Json

  // ------------------------------------------------------------ front matter and body

  const END_MARK: string := "\n---\n"

  /** Where the first terminator starts. */
  function FindEnd(s: string): Option<nat> {
    if StartsWith(s, END_MARK) then Some(0)
    else if s == "" then None
    else match FindEnd(s[1..]) case Some(n) => Some(n + 1) case None => None
  }

  datatype Parts = Parts(lines: seq<string>, body: string)

  /** The lines between the opening `---` and the first terminator, and everything after it. */
  function ReadParts(text: string): Option<Parts> {
    if !StartsWith(text, "---\n") then None
    else
      var s := text[4..];
      match FindEnd(s)
      case Some(n) => if n + 5 <= |s| then Some(Parts(Split(s[..n]), s[n + 5..])) else None
      case None => None
  }

  function WriteParts(p: Parts): string
    requires p.lines != []
  {
    "---\n" + (Join(p.lines) + (END_MARK + p.body))
  }

  /** Lines that can stand between the marks: none but the first is a mark itself. */
  predicate Enclosed(lines: seq<string>) {
    && lines != [] && AllOneLine(lines)
    && forall i :: 1 <= i < |lines| ==> lines[i] != "---"
  }

  lemma {:induction false} FindEndSkips(line: string, rest: string)
    requires OneLine(line)
    ensures FindEnd(line + rest) == match FindEnd(rest) case Some(n) => Some(|line| + n) case None => None
    decreases |line|
  {
    if line == "" {
      assert line + rest == rest;
    } else {
      FindEndSkips(line[1..], rest);
      assert (line + rest)[1..] == line[1..] + rest && (line + rest)[0] == line[0];
    }
  }

  lemma MarkAhead(line: string, rest: string)
    requires OneLine(line) && rest != "" && rest[0] == '\n'
    ensures StartsWith("\n" + (line + rest), END_MARK) <==> line == "---"
  {
    var s := "\n" + (line + rest);
    if |line| >= 4 {
      assert s[4] == line[3];
    } else if |line| < 3 {
      assert s[1 + |line|] == '\n';
    } else {
      assert s[..5] == "\n" + line + "\n";
      if line == "---" { assert s[..5] == END_MARK; }
      if s[..5] == END_MARK { assert line == s[..5][1..4] == "---"; }
    }
  }

  /** What follows the first line of two or more starts with a newline, whether or not it is the last. */
  function After(lines: seq<string>, tail: string): string
    requires |lines| > 0
  {
    if |lines| == 1 then tail else ("\n" + Join(lines[1..])) + tail
  }

  lemma JoinThen(lines: seq<string>, tail: string)
    requires |lines| > 0
    ensures Join(lines) + tail == lines[0] + After(lines, tail)
  {}

  function Shift(n: nat, r: Option<nat>): Option<nat> {
    match r case Some(k) => Some(n + k) case None => None
  }

  /** Where a line starts, a terminator is found at once if the line is a mark. */
  lemma FindAtLine(line: string, after: string)
    requires OneLine(line) && after != "" && after[0] == '\n'
    ensures FindEnd("\n" + (line + after)) == if line == "---" then Some(0) else Shift(1, FindEnd(line + after))
  {
    var s := "\n" + (line + after);
    MarkAhead(line, after);
    assert s[1..] == line + after;
  }

  lemma FindAfter(lines: seq<string>, tail: string)
    requires |lines| > 1 && AllOneLine(lines) && tail != "" && tail[0] == '\n'
    ensures FindEnd(After(lines, tail))
      == if lines[1] == "---" then Some(0) else Shift(1, FindEnd(Join(lines[1..]) + tail))
  {
    JoinThen(lines[1..], tail);
    FindAtLine(lines[1], After(lines[1..], tail));
    AfterFirst(lines, tail);
  }

  /** Passing the first line: a terminator is found here only if the second line is a mark. */
  lemma FindPast(lines: seq<string>, tail: string)
    requires |lines| > 1 && AllOneLine(lines) && tail != "" && tail[0] == '\n'
    ensures FindEnd(Join(lines) + tail)
      == if lines[1] == "---" then Some(|lines[0]|) else Shift(|lines[0]| + 1, FindEnd(Join(lines[1..]) + tail))
  {
    FindAfter(lines, tail);
    AfterFirst(lines, tail);
    FindEndSkips(lines[0], After(lines, tail));
  }

  lemma AfterFirst(lines: seq<string>, tail: string)
    requires |lines| > 1
    ensures After(lines, tail) == "\n" + (Join(lines[1..]) + tail)
    ensures Join(lines) + tail == lines[0] + After(lines, tail)
  {
    JoinThen(lines, tail);
  }

  /** The first terminator after enclosed lines is the one written behind them. */
  lemma {:induction false} FindWritten(lines: seq<string>, body: string)
    requires Enclosed(lines)
    ensures FindEnd(Join(lines) + (END_MARK + body)) == Some(|Join(lines)|)
    decreases |lines|
  {
    var tail := END_MARK + body;
    if |lines| == 1 {
      FindEndSkips(lines[0], tail);
      assert StartsWith(tail, END_MARK);
    } else {
      FindWritten(lines[1..], body);
      FindPast(lines, tail);
    }
  }

  /** Reading what was written gives it back. */
  lemma ReadWritten(p: Parts)
    requires Enclosed(p.lines)
    ensures ReadParts(WriteParts(p)) == Some(p)
  {
    var s := Join(p.lines) + (END_MARK + p.body);
    FindWritten(p.lines, p.body);
    SplitJoin(p.lines);
    assert WriteParts(p)[..4] == "---\n" && WriteParts(p)[4..] == s;
    assert s[..|Join(p.lines)|] == Join(p.lines) && s[|Join(p.lines)| + 5..] == p.body;
  }

  lemma {:induction false} FindEndMatches(s: string)
    ensures FindEnd(s).Some? ==> FindEnd(s).value + 5 <= |s| && StartsWith(s[FindEnd(s).value..], END_MARK)
  {
    if !StartsWith(s, END_MARK) && s != "" {
      FindEndMatches(s[1..]);
    }
  }

  lemma {:induction false} FoundLinesEnclosed(lines: seq<string>, tail: string)
    requires lines != [] && AllOneLine(lines) && tail != "" && tail[0] == '\n'
    requires FindEnd(Join(lines) + tail) == Some(|Join(lines)|)
    ensures Enclosed(lines)
    decreases |lines|
  {
    if |lines| > 1 {
      FindPast(lines, tail);
      FoundLinesEnclosed(lines[1..], tail);
    }
  }

  lemma CutAtEnd(s: string)
    requires FindEnd(s).Some?
    ensures var n := FindEnd(s).value; n + 5 <= |s| && s == s[..n] + (END_MARK + s[n + 5..])
  {
    FindEndMatches(s);
    var n := FindEnd(s).value;
    assert s[n..][..5] == END_MARK && s[n..][5..] == s[n + 5..];
    assert s == s[..n] + (s[n..][..5] + s[n..][5..]);
  }

  /** Any file with front matter is what writing its parts gives. */
  lemma WriteRead(text: string)
    requires ReadParts(text).Some?
    ensures Enclosed(ReadParts(text).value.lines) && WriteParts(ReadParts(text).value) == text
  {
    var s := text[4..];
    var n := FindEnd(s).value;
    CutAtEnd(s);
    JoinSplit(s[..n]);
    FoundLinesEnclosed(Split(s[..n]), END_MARK + s[n + 5..]);
    assert text == text[..4] + s;
  }

  // ------------------------------------------------------------ the reader

  datatype Value = Text(text: string) | Flag(flag: bool) | Items(items: seq<string>)

  /** What has been read so far; `key` is the field that list items go to (none yet if empty).
      `failed`: an item was found under a field that is not a list. */
  datatype Reader = Reader(fields: map<string, Value>, key: string, failed: bool)

  const EMPTY: Reader := Reader(map[], "", false)

  function ColonAt(s: string): (n: nat)
    ensures n <= |s| && (n < |s| ==> s[n] == ':') && forall i :: 0 <= i < n ==> s[i] != ':'
  {
    if s == "" || s[0] == ':' then 0 else 1 + ColonAt(s[1..])
  }

  function StripQuotes(s: string): string {
    var t := LStripQuotes(s);
    RStripQuotes(t)
  }

  function LStripQuotes(s: string): string {
    if s != "" && s[0] == '"' then LStripQuotes(s[1..]) else s
  }

  function RStripQuotes(s: string): string {
    if s != "" && s[|s| - 1] == '"' then RStripQuotes(s[..|s| - 1]) else s
  }

  function ParseValue(val: string): Value {
    if val == "[]" || val == "" then Items([])
    else if val == "true" || val == "false" then Flag(val == "true")
    else if val[0] == '"' then
      match Json.Loads(val) case Some(s) => Text(s) case None => Text(StripQuotes(val))
    else Text(val)
  }

  predicate IsItem(line: string) {
    StartsWith(line, "  - ")
  }

  function AddItem(r: Reader, item: string): Reader {
    if r.key == "" then r
    else if r.key !in r.fields then r.(fields := r.fields[r.key := Items([item])])
    else match r.fields[r.key]
      case Items(xs) => r.(fields := r.fields[r.key := Items(xs + [item])])
      case _ => r.(failed := true)
  }

  function Feed(r: Reader, line: string): Reader {
    if r.failed then r
    else if IsItem(line) then AddItem(r, Strip(line[4..]))
    else
      var n := ColonAt(line);
      if n == |line| then r
      else
        var key := Strip(line[..n]);
        Reader(r.fields[key := ParseValue(Strip(line[n + 1..]))], key, false)
  }

  function FeedAll(r: Reader, lines: seq<string>): Reader
    decreases |lines|
  {
    if lines == [] then r else FeedAll(Feed(r, lines[0]), lines[1..])
  }

  /** `str.splitlines`, for text in which reading has left no carriage return. */
  function SplitLines(s: string): seq<string>
    decreases |s|
  {
    if s == "" then []
    else
      var n := BreakAt(s);
      if n == |s| then [s] else [s[..n]] + SplitLines(s[n + 1..])
  }

  function BreakAt(s: string): (n: nat)
    ensures n <= |s|
  {
    if s == "" || IsBreak(s[0]) then 0 else 1 + BreakAt(s[1..])
  }

  datatype Error = NoFrontMatter | ItemUnderScalar

  datatype Ticket = Ticket(fields: map<string, Value>, body: string)

  /** `load_ticket` on the bytes of a file. */
  function Load(content: string): Result<Ticket, Error> {
    match ReadParts(ReadText(content))
    case None => Err(NoFrontMatter)
    case Some(Parts(lines, body)) =>
      var r := FeedAll(EMPTY, SplitLines(Join(lines)));
      if r.failed then Err(ItemUnderScalar) else Ok(Ticket(r.fields, body))
  }

  lemma {:induction false} BreakAtOf(line: string, rest: string)
    requires Unbroken(line) && (rest == "" || IsBreak(rest[0]))
    ensures BreakAt(line + rest) == |line|
  {
    if line == "" {
      assert line + rest == rest;
    } else {
      BreakAtOf(line[1..], rest);
      assert (line + rest)[1..] == line[1..] + rest;
    }
  }

  predicate AllUnbroken(lines: seq<string>) {
    forall i :: 0 <= i < |lines| ==> Unbroken(lines[i])
  }

  /** Where no line contains one of Python's rarer line breaks, the reader sees the lines as they are. */
  lemma {:induction false} FeedSplitLines(r: Reader, lines: seq<string>)
    requires lines != [] && AllUnbroken(lines)
    ensures FeedAll(r, SplitLines(Join(lines))) == FeedAll(r, lines)
    decreases |lines|
  {
    if |lines| == 1 {
      BreakAtOf(lines[0], "");
      assert lines[0] + "" == lines[0];
      assert FeedAll(r, lines) == Feed(r, lines[0]);
      if lines[0] == "" {
        assert Feed(r, "") == r;
      } else {
        assert SplitLines(lines[0]) == [lines[0]];
      }
    } else {
      var rest := Join(lines[1..]);
      var s := lines[0] + ("\n" + rest);
      assert Join(lines) == s;
      BreakAtOf(lines[0], "\n" + rest);
      assert s[..|lines[0]|] == lines[0] && s[|lines[0]| + 1..] == rest;
      FeedSplitLines(Feed(r, lines[0]), lines[1..]);
      assert SplitLines(s) == [lines[0]] + SplitLines(rest);
      assert ([lines[0]] + SplitLines(rest))[1..] == SplitLines(rest);
    }
  }

  lemma {:induction false} FeedAppend(r: Reader, xs: seq<string>, ys: seq<string>)
    ensures FeedAll(r, xs + ys) == FeedAll(FeedAll(r, xs), ys)
    decreases |xs|
  {
    if xs == [] {
      assert xs + ys == ys;
    } else {
      FeedAppend(Feed(r, xs[0]), xs[1..], ys);
      assert (xs + ys)[0] == xs[0] && (xs + ys)[1..] == xs[1..] + ys;
    }
  }
}
