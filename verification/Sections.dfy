/** Front matter as sections, a setting line with the list items below it, whatever line breaks the
    file holds: the reader (fleet/fleet.py) splits lines more finely than the editors, which see
    newlines only. */
module Sections {
  import opened TextLines
  import opened FrontMatter

  // ------------------------------------------------------------ what the reader reads

  /** The lines the reader makes of the editors' lines. */
  function Pieces(lines: seq<string>): seq<string> {
    if lines == [] then [] else SplitLines(lines[0]) + Pieces(lines[1..])
  }

  /** The reader at the end of the front matter. */
  function Read(lines: seq<string>): Reader
    requires lines != []
  {
    FeedAll(EMPTY, SplitLines(Join(lines)))
  }

  lemma {:induction false} BreakAtAhead(line: string, rest: string)
    ensures BreakAt(line) < |line| ==> BreakAt(line + rest) == BreakAt(line)
    ensures BreakAt(line) == |line| && (rest == "" || IsBreak(rest[0])) ==> BreakAt(line + rest) == |line|
  {
    if line == "" {
      assert line + rest == rest;
    } else {
      BreakAtAhead(line[1..], rest);
      assert (line + rest)[1..] == line[1..] + rest;
    }
  }

  /** Reading past a newline. */
  lemma {:induction false} FeedPast(r: Reader, line: string, rest: string)
    ensures FeedAll(r, SplitLines(line + ("\n" + rest))) == FeedAll(FeedAll(r, SplitLines(line)), SplitLines(rest))
    decreases |line|
  {
    var s, n := line + ("\n" + rest), BreakAt(line);
    BreakAtAhead(line, "\n" + rest);
    if n == |line| {
      assert s[..n] == line && s[n + 1..] == rest;
      assert FeedAll(r, [line] + SplitLines(rest)) == FeedAll(Feed(r, line), SplitLines(rest)) by {
        assert ([line] + SplitLines(rest))[1..] == SplitLines(rest);
      }
      FeedSingle(r, line);
    } else {
      var head, tail := line[..n], line[n + 1..];
      assert s[..n] == head && s[n + 1..] == tail + ("\n" + rest);
      FeedPast(Feed(r, head), tail, rest);
      assert ([head] + SplitLines(tail))[1..] == SplitLines(tail);
      assert ([head] + SplitLines(tail + ("\n" + rest)))[1..] == SplitLines(tail + ("\n" + rest));
    }
  }

  lemma FeedSingle(r: Reader, line: string)
    requires BreakAt(line) == |line|
    ensures FeedAll(r, SplitLines(line)) == Feed(r, line)
  {
    if line == "" {
      assert Feed(r, "") == r;
    } else {
      assert [line][1..] == [];
    }
  }

  /** The reader of the text is the reader of the pieces. */
  lemma {:induction false} FeedPieces(r: Reader, lines: seq<string>)
    requires lines != []
    ensures FeedAll(r, SplitLines(Join(lines))) == FeedAll(r, Pieces(lines))
    decreases |lines|
  {
    var here := SplitLines(lines[0]);
    FeedAppend(r, here, Pieces(lines[1..]));
    if |lines| == 1 {
      assert here + [] == here;
    } else {
      var rest := Join(lines[1..]);
      assert Join(lines) == lines[0] + ("\n" + rest);
      FeedPast(r, lines[0], rest);
      FeedPieces(FeedAll(r, here), lines[1..]);
    }
  }

  lemma {:induction false} PiecesAppend(a: seq<string>, b: seq<string>)
    ensures Pieces(a + b) == Pieces(a) + Pieces(b)
    decreases |a|
  {
    if a == [] {
      assert a + b == b;
    } else {
      PiecesAppend(a[1..], b);
      assert (a + b)[0] == a[0] && (a + b)[1..] == a[1..] + b;
    }
  }

  lemma {:induction false} UnbrokenWhole(line: string)
    requires Unbroken(line)
    ensures BreakAt(line) == |line|
  {
    BreakAtOf(line, "");
    assert line + "" == line;
  }

  /** Lines without rarer line breaks are read as they are. */
  lemma {:induction false} PiecesUnbroken(r: Reader, lines: seq<string>)
    requires AllUnbroken(lines)
    ensures FeedAll(r, Pieces(lines)) == FeedAll(r, lines)
    decreases |lines|
  {
    if lines != [] {
      FeedAppend(r, SplitLines(lines[0]), Pieces(lines[1..]));
      UnbrokenWhole(lines[0]);
      FeedSingle(r, lines[0]);
      PiecesUnbroken(Feed(r, lines[0]), lines[1..]);
    }
  }

  // ------------------------------------------------------------ sections

  /** A setting line and the items below it. `mine` marks the lines that an edit replaces. */
  datatype Section = Section(key: string, value: Value, items: seq<string>, mine: bool) {
    /** Items under a field without a name are passed over. */
    function Holds(): Value {
      if key != "" && value.Items? then Items(value.items + items) else value
    }

    /** Items below a field that is not a list. */
    predicate Broken() {
      key != "" && !value.Items? && items != []
    }
  }

  const PREAMBLE: Section := Section("", Items([]), [], false)

  predicate Sets(line: string) {
    !IsItem(line) && ColonAt(line) < |line|
  }

  function NameOf(line: string): string {
    Strip(line[..ColonAt(line)])
  }

  predicate SetsField(line: string, key: string) {
    Sets(line) && NameOf(line) == key
  }

  function ValueOf(line: string): Value
    requires ColonAt(line) < |line|
  {
    ParseValue(Strip(line[ColonAt(line) + 1..]))
  }

  function AddItems(secs: seq<Section>, items: seq<string>): (r: seq<Section>)
    requires secs != []
    ensures |r| == |secs|
  {
    var n := |secs| - 1;
    secs[..n] + [secs[n].(items := secs[n].items + items)]
  }

  function Grow(secs: seq<Section>, piece: string, mine: bool): (r: seq<Section>)
    requires secs != []
    ensures r != []
  {
    if IsItem(piece) then AddItems(secs, [Strip(piece[4..])])
    else if Sets(piece) then secs + [Section(NameOf(piece), ValueOf(piece), [], mine)]
    else secs
  }

  function GrowAll(secs: seq<Section>, pieces: seq<string>, mine: bool): (r: seq<Section>)
    requires secs != []
    ensures r != []
    decreases |pieces|
  {
    if pieces == [] then secs else GrowAll(Grow(secs, pieces[0], mine), pieces[1..], mine)
  }

  predicate IsKeyLine(line: string, key: string) {
    StartsWith(line, key + ":")
  }

  /** The sections of a front matter, seen by an editor of the field. */
  function GrowLines(secs: seq<Section>, lines: seq<string>, key: string): (r: seq<Section>)
    requires secs != []
    ensures r != []
    decreases |lines|
  {
    if lines == [] then secs
    else GrowLines(GrowAll(secs, SplitLines(lines[0]), IsKeyLine(lines[0], key)), lines[1..], key)
  }

  function SectionsOf(lines: seq<string>, key: string): (r: seq<Section>)
    ensures r != []
  {
    GrowLines([PREAMBLE], lines, key)
  }

  predicate Sound(secs: seq<Section>) {
    forall i :: 0 <= i < |secs| ==> !secs[i].Broken()
  }

  /** The last section of a field decides; what comes before the first setting line is nobody's. */
  function Contents(secs: seq<Section>): map<string, Value> {
    if |secs| <= 1 then map[]
    else Contents(secs[..|secs| - 1])[secs[|secs| - 1].key := secs[|secs| - 1].Holds()]
  }

  ghost predicate Shows(r: Reader, secs: seq<Section>) {
    && secs != [] && (r.failed <==> !Sound(secs))
    && (!r.failed ==> r.key == secs[|secs| - 1].key && r.fields == Contents(secs))
    && (|secs| == 1 ==> secs[0].key == "")
  }

  lemma SoundSnoc(secs: seq<Section>, s: Section)
    ensures Sound(secs + [s]) <==> Sound(secs) && !s.Broken()
  {
    var all := secs + [s];
    assert forall i :: 0 <= i < |secs| ==> all[i] == secs[i];
    assert all[|secs|] == s;
  }

  lemma ContentsSnoc(secs: seq<Section>, s: Section)
    requires secs != []
    ensures Contents(secs + [s]) == Contents(secs)[s.key := s.Holds()]
  {
    assert (secs + [s])[..|secs|] == secs;
  }

  lemma SplitLast(secs: seq<Section>)
    requires secs != []
    ensures secs == secs[..|secs| - 1] + [secs[|secs| - 1]]
  {}

  lemma SoundAdd(secs: seq<Section>, items: seq<string>)
    requires secs != []
    ensures var last := secs[|secs| - 1];
      Sound(AddItems(secs, items)) <==> Sound(secs) && (items == [] || last.key == "" || last.value.Items?)
  {
    var n := |secs| - 1;
    SplitLast(secs);
    SoundSnoc(secs[..n], secs[n]);
    SoundSnoc(secs[..n], secs[n].(items := secs[n].items + items));
  }

  lemma ContentsAdd(secs: seq<Section>, items: seq<string>)
    requires secs != []
    ensures var n := |secs| - 1;
      Contents(AddItems(secs, items)) == if n == 0 then map[]
        else Contents(secs[..n])[secs[n].key := secs[n].(items := secs[n].items + items).Holds()]
  {
    var n := |secs| - 1;
    if n > 0 { ContentsSnoc(secs[..n], secs[n].(items := secs[n].items + items)); }
  }

  lemma ItemShows(r: Reader, secs: seq<Section>, item: string)
    requires Shows(r, secs)
    ensures Shows(if r.failed then r else AddItem(r, item), AddItems(secs, [item]))
  {
    var n := |secs| - 1;
    var last := secs[n];
    SoundAdd(secs, [item]);
    ContentsAdd(secs, [item]);
    if !r.failed {
      if n > 0 {
        SplitLast(secs);
        ContentsSnoc(secs[..n], last);
        assert r.fields[last.key] == last.Holds();
        if last.key != "" && last.value.Items? {
          assert last.value.items + (last.items + [item]) == last.value.items + last.items + [item];
          var before, now := Contents(secs[..n]), Items(last.value.items + (last.items + [item]));
          assert before[last.key := last.Holds()][last.key := now] == before[last.key := now];
        }
      }
    }
  }

  lemma PieceShows(r: Reader, secs: seq<Section>, piece: string, mine: bool)
    requires Shows(r, secs)
    ensures Shows(Feed(r, piece), Grow(secs, piece, mine))
  {
    if IsItem(piece) {
      ItemShows(r, secs, Strip(piece[4..]));
    } else if Sets(piece) {
      var s := Section(NameOf(piece), ValueOf(piece), [], mine);
      SoundSnoc(secs, s);
      ContentsSnoc(secs, s);
      assert s.value.Items? ==> s.value.items + [] == s.value.items;
    }
  }

  lemma {:induction false} PiecesShow(r: Reader, secs: seq<Section>, pieces: seq<string>, mine: bool)
    requires Shows(r, secs)
    ensures Shows(FeedAll(r, pieces), GrowAll(secs, pieces, mine))
    decreases |pieces|
  {
    if pieces != [] {
      PieceShows(r, secs, pieces[0], mine);
      PiecesShow(Feed(r, pieces[0]), Grow(secs, pieces[0], mine), pieces[1..], mine);
    }
  }

  lemma {:induction false} LinesShow(r: Reader, secs: seq<Section>, lines: seq<string>, key: string)
    requires Shows(r, secs)
    ensures Shows(FeedAll(r, Pieces(lines)), GrowLines(secs, lines, key))
    decreases |lines|
  {
    if lines != [] {
      var here, mine := SplitLines(lines[0]), IsKeyLine(lines[0], key);
      FeedAppend(r, here, Pieces(lines[1..]));
      PiecesShow(r, secs, here, mine);
      LinesShow(FeedAll(r, here), GrowAll(secs, here, mine), lines[1..], key);
    }
  }

  /** Any front matter reads as its sections: it is refused exactly when items stand below a field
      that is not a list, and otherwise each field holds what its last section holds. */
  lemma ReadsAsSections(lines: seq<string>, key: string)
    requires lines != []
    ensures var r, secs := Read(lines), SectionsOf(lines, key);
      (r.failed <==> !Sound(secs)) && (!r.failed ==> r.fields == Contents(secs))
  {
    assert Shows(EMPTY, [PREAMBLE]);
    LinesShow(EMPTY, [PREAMBLE], lines, key);
    FeedPieces(EMPTY, lines);
  }

  // ------------------------------------------------------------ comparing two readings

  /** Equal in every field but one. */
  ghost predicate SameBut(f: map<string, Value>, g: map<string, Value>, key: string) {
    forall k :: k != key ==> (k in f <==> k in g) && (k in f ==> f[k] == g[k])
  }

  lemma SetField(f: map<string, Value>, g: map<string, Value>, key: string, v: Value)
    requires SameBut(f, g, key) && key in g && g[key] == v
    ensures g == f[key := v]
  {
    assert g.Keys == f[key := v].Keys;
  }

  lemma FeedFailed(r: Reader, lines: seq<string>)
    requires r.failed
    ensures FeedAll(r, lines) == r
    decreases |lines|
  {
    if lines != [] { FeedFailed(r, lines[1..]); }
  }

  lemma FeedBlank(r: Reader)
    ensures Feed(r, "") == r && FeedAll(r, [""]) == r
  {
    assert [""][1..] == [];
  }
}
