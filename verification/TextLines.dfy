/** Text as lines: joining and splitting at newlines, stripping, and Python's wider notions of
    white space and line break. */
module TextLines {

  predicate StartsWith(s: string, p: string) {
    |p| <= |s| && s[..|p|] == p
  }

  /** Characters `str.strip` removes. */
  predicate IsSpace(c: char) {
    var n := c as int;
    9 <= n <= 13 || 28 <= n <= 32 || n == 0x85 || n == 0xa0 || n == 0x1680 || 0x2000 <= n <= 0x200a
    || n == 0x2028 || n == 0x2029 || n == 0x202f || n == 0x205f || n == 0x3000
  }

  /** Characters at which `str.splitlines` ends a line. */
  predicate IsBreak(c: char) {
    var n := c as int;
    10 <= n <= 13 || 28 <= n <= 30 || n == 0x85 || n == 0x2028 || n == 0x2029
  }

  predicate OneLine(s: string) {
    forall i :: 0 <= i < |s| ==> s[i] != '\n'
  }

  predicate Unbroken(s: string) {
    forall i :: 0 <= i < |s| ==> !IsBreak(s[i])
  }

  function LStrip(s: string): string {
    if s != "" && IsSpace(s[0]) then LStrip(s[1..]) else s
  }

  function RStrip(s: string): string {
    if s != "" && IsSpace(s[|s| - 1]) then RStrip(s[..|s| - 1]) else s
  }

  function Strip(s: string): string {
    RStrip(LStrip(s))
  }

  /** No white space at either end. */
  predicate Trimmed(s: string) {
    s != "" ==> !IsSpace(s[0]) && !IsSpace(s[|s| - 1])
  }

  lemma {:induction false} LStripTrims(s: string)
    ensures var t := LStrip(s); (t != "" ==> !IsSpace(t[0])) && |t| <= |s| && t == s[|s| - |t|..]
  {
    if s != "" && IsSpace(s[0]) { LStripTrims(s[1..]); }
  }

  lemma {:induction false} RStripTrims(s: string)
    ensures var t := RStrip(s); (t != "" ==> !IsSpace(t[|t| - 1])) && |t| <= |s| && t == s[..|t|]
  {
    if s != "" && IsSpace(s[|s| - 1]) { RStripTrims(s[..|s| - 1]); }
  }

  lemma StripTrims(s: string)
    ensures Trimmed(Strip(s)) && (Trimmed(s) <==> Strip(s) == s)
  {
    LStripTrims(s);
    RStripTrims(LStrip(s));
  }

  lemma StripSpace(s: string)
    requires Trimmed(s)
    ensures Strip(" " + s) == s
  {
    assert (" " + s)[1..] == s;
    StripTrims(s);
  }

  // ------------------------------------------------------------ joining and splitting

  function Join(lines: seq<string>): string
    requires lines != []
  {
    if |lines| == 1 then lines[0] else lines[0] + "\n" + Join(lines[1..])
  }

  function LineLength(s: string): (n: nat)
    ensures n <= |s| && OneLine(s[..n]) && (n < |s| ==> s[n] == '\n')
  {
    if s == "" || s[0] == '\n' then 0
    else
      var n := 1 + LineLength(s[1..]);
      assert s[..n] == [s[0]] + s[1..][..n - 1];
      n
  }

  function Split(s: string): (lines: seq<string>)
    ensures lines != []
    decreases |s|
  {
    var n := LineLength(s);
    if n == |s| then [s] else [s[..n]] + Split(s[n + 1..])
  }

  predicate AllOneLine(lines: seq<string>) {
    forall i :: 0 <= i < |lines| ==> OneLine(lines[i])
  }

  lemma {:induction false} LineLengthOf(line: string, rest: string)
    requires OneLine(line) && (rest == "" || rest[0] == '\n')
    ensures LineLength(line + rest) == |line|
  {
    if line == "" {
      assert line + rest == rest;
    } else {
      LineLengthOf(line[1..], rest);
      assert (line + rest)[1..] == line[1..] + rest;
    }
  }

  lemma JoinCons(line: string, rest: seq<string>)
    requires rest != []
    ensures Join([line] + rest) == line + "\n" + Join(rest)
    ensures OneLine(line) && AllOneLine(rest) ==> AllOneLine([line] + rest)
  {
    assert ([line] + rest)[1..] == rest;
  }

  lemma {:induction false} JoinSplit(s: string)
    ensures Join(Split(s)) == s && AllOneLine(Split(s))
    decreases |s|
  {
    var n := LineLength(s);
    if n < |s| {
      JoinSplit(s[n + 1..]);
      JoinCons(s[..n], Split(s[n + 1..]));
      assert s == s[..n] + "\n" + s[n + 1..];
    }
  }

  lemma SplitMore(line: string, rest: string)
    requires OneLine(line)
    ensures Split(line + ("\n" + rest)) == [line] + Split(rest)
  {
    var s := line + ("\n" + rest);
    LineLengthOf(line, "\n" + rest);
    assert s[..|line|] == line && s[|line| + 1..] == rest;
  }

  lemma {:induction false} SplitJoin(lines: seq<string>)
    requires lines != [] && AllOneLine(lines)
    ensures Split(Join(lines)) == lines
    decreases |lines|
  {
    if |lines| == 1 {
      LineLengthOf(lines[0], "");
      assert lines[0] + "" == lines[0];
    } else {
      SplitJoin(lines[1..]);
      SplitMore(lines[0], Join(lines[1..]));
      assert Join(lines) == lines[0] + ("\n" + Join(lines[1..]));
    }
  }

  // ------------------------------------------------------------ reading a file as text

  /** Reading in text mode turns every `\r\n` and every other `\r` into a newline. */
  function ReadText(s: string): string {
    if s == "" then ""
    else if s[0] == '\r' then "\n" + ReadText(if |s| > 1 && s[1] == '\n' then s[2..] else s[1..])
    else [s[0]] + ReadText(s[1..])
  }

  lemma {:induction false} ReadTextNoReturn(s: string)
    ensures '\r' !in ReadText(s)
    decreases |s|
  {
    if s != "" {
      ReadTextNoReturn(s[1..]);
      if |s| > 1 { ReadTextNoReturn(s[2..]); }
    }
  }

  lemma {:induction false} ReadTextSame(s: string, t: string)
    requires '\r' !in s
    ensures ReadText(s + t) == s + ReadText(t)
    decreases |s|
  {
    if s == "" {
      assert s + t == t && "" + ReadText(t) == ReadText(t);
    } else {
      assert s[0] in s;
      assert forall c :: c in s[1..] ==> c in s;
      ReadTextSame(s[1..], t);
      assert (s + t)[1..] == s[1..] + t && (s + t)[0] == s[0];
      assert [s[0]] + (s[1..] + ReadText(t)) == s + ReadText(t);
    }
  }

  /** Text survives a write and a read exactly when it has no carriage return. */
  lemma ReadTextExactly(s: string)
    ensures ReadText(s) == s <==> '\r' !in s
  {
    ReadTextNoReturn(s);
    if '\r' !in s {
      ReadTextSame(s, "");
      assert s + "" == s && s + ReadText("") == s;
    }
  }
}
