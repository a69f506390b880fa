/** Writing the ticket files of the tracker rows (fleet/fleet.py, second half of `cmd_tickets`):
    which files are created, refreshed or left alone. */
module Regenerate {
  import opened Wrappers
  import TextLines
  import opened FrontMatter
  import opened Rendering
  import opened Trackers

  datatype Flags = Flags(includeClosed: bool, force: bool, forceAll: bool)

  predicate Truthy(t: Ticket, key: string) {
    key in t.fields && match t.fields[key]
      case Text(s) => s != ""
      case Flag(b) => b
      case Items(xs) => xs != []
  }

  /** A ticket somebody has since worked on. */
  predicate Worked(t: Ticket) {
    || ("status" in t.fields && t.fields["status"] != Text("open") && t.fields["status"] != Text(""))
    || Truthy(t, "scope_kind") || Truthy(t, "fleet_commit")
  }

  predicate Skipped(t: Row, archived: set<string>, flags: Flags) {
    (!t.actionable && !flags.includeClosed) || t.id in archived
  }

  /** Whether an existing file is overwritten. */
  predicate Refreshes(cur: Ticket, flags: Flags) {
    flags.forceAll || (flags.force && !Worked(cur))
  }

  /** The files after one row, or nothing when an existing file cannot be read. */
  function One(files: map<string, string>, t: Row, archived: set<string>, flags: Flags, globs: seq<string>)
    : Option<map<string, string>>
  {
    if Skipped(t, archived, flags) then Some(files)
    else if t.id !in files then Some(files[t.id := RenderText(t, globs)])
    else match Load(files[t.id])
      case Err(_) => None
      case Ok(cur) => if Refreshes(cur, flags) then Some(files[t.id := RenderText(t, globs)]) else Some(files)
  }

  function All(files: map<string, string>, rows: seq<Row>, archived: set<string>, flags: Flags, globs: seq<string>)
    : Option<map<string, string>>
  {
    if rows == [] then Some(files)
    else match All(files, rows[..|rows| - 1], archived, flags, globs)
      case Some(fs) => One(fs, rows[|rows| - 1], archived, flags, globs)
      case None => None
  }

  /** The files a run has got to when it ends or stops: an unreadable file stops it where it is. */
  function Reached(files: map<string, string>, rows: seq<Row>, archived: set<string>, flags: Flags, globs: seq<string>)
    : map<string, string>
  {
    match All(files, rows, archived, flags, globs)
    case Some(fs) => fs
    case None => if rows == [] then files else Reached(files, rows[..|rows| - 1], archived, flags, globs)
  }

  /** The ticket folder: one file per id. */
  class Folder {
    var files: map<string, string>

    constructor ()
      ensures files == map[]
    {
      files := map[];
    }

    method WriteTickets(rows: seq<Row>, archived: set<string>, flags: Flags, globs: seq<string>) returns (ok: bool)
      modifies this
      ensures ok <==> All(old(files), rows, archived, flags, globs).Some?
      ensures files == Reached(old(files), rows, archived, flags, globs)
    {
      for i := 0 to |rows|
        invariant All(old(files), rows[..i], archived, flags, globs) == Some(files)
      {
        var t := rows[i];
        assert rows[..i + 1][..i] == rows[..i];
        if (t.actionable || flags.includeClosed) && t.id !in archived {
          var write := true;
          if t.id in files {
            var r := Load(files[t.id]);
            if r.Err? {
              UnreadableStops(old(files), rows, i, archived, flags, globs);
              return false;
            }
            if Worked(r.value) && !flags.forceAll {
              write := false;
            } else if !flags.force && !flags.forceAll {
              write := false;
            }
          }
          if write { files := files[t.id := RenderText(t, globs)]; }
        }
      }
      assert rows[..|rows|] == rows;
      ok := true;
    }
  }

  lemma {:induction false} UnreadableStops(
      files: map<string, string>, rows: seq<Row>, n: nat, archived: set<string>, flags: Flags, globs: seq<string>)
    requires n < |rows| && All(files, rows[..n + 1], archived, flags, globs) == None
    ensures All(files, rows, archived, flags, globs) == None
    ensures Reached(files, rows, archived, flags, globs) == Reached(files, rows[..n], archived, flags, globs)
    decreases |rows|
  {
    if n + 1 == |rows| {
      assert rows[..n + 1] == rows;
    } else {
      assert rows[..|rows| - 1][..n + 1] == rows[..n + 1] && rows[..|rows| - 1][..n] == rows[..n];
      UnreadableStops(files, rows[..|rows| - 1], n, archived, flags, globs);
    }
  }

  // ------------------------------------------------------------ what a run leaves alone

  predicate Kept(files: map<string, string>, after: map<string, string>, id: string) {
    (id in files <==> id in after) && (id in files ==> files[id] == after[id])
  }

  /** An archived id is never written again, whatever the flags. */
  lemma {:induction false} ArchivedStays(
      files: map<string, string>, rows: seq<Row>, archived: set<string>, flags: Flags, globs: seq<string>, id: string)
    requires id in archived && All(files, rows, archived, flags, globs).Some?
    ensures Kept(files, All(files, rows, archived, flags, globs).value, id)
    decreases |rows|
  {
    if rows != [] { ArchivedStays(files, rows[..|rows| - 1], archived, flags, globs, id); }
  }

  /** A ticket that was worked on survives everything short of forcing all. */
  lemma {:induction false} WorkedSurvives(
      files: map<string, string>, rows: seq<Row>, archived: set<string>, flags: Flags, globs: seq<string>, id: string)
    requires id in files && Load(files[id]).Ok? && Worked(Load(files[id]).value) && !flags.forceAll
    requires All(files, rows, archived, flags, globs).Some?
    ensures Kept(files, All(files, rows, archived, flags, globs).value, id)
    decreases |rows|
  {
    if rows != [] { WorkedSurvives(files, rows[..|rows| - 1], archived, flags, globs, id); }
  }

  /** Without force no existing file changes at all. */
  lemma {:induction false} UnforcedKeeps(
      files: map<string, string>, rows: seq<Row>, archived: set<string>, flags: Flags, globs: seq<string>, id: string)
    requires id in files && !flags.force && !flags.forceAll && All(files, rows, archived, flags, globs).Some?
    ensures Kept(files, All(files, rows, archived, flags, globs).value, id)
    decreases |rows|
  {
    if rows != [] { UnforcedKeeps(files, rows[..|rows| - 1], archived, flags, globs, id); }
  }

  predicate RowFor(rows: seq<Row>, id: string) {
    exists i :: 0 <= i < |rows| && rows[i].id == id
  }

  lemma NoRowBefore(rows: seq<Row>, id: string)
    requires rows != [] && !RowFor(rows, id)
    ensures !RowFor(rows[..|rows| - 1], id) && rows[|rows| - 1].id != id
  {
    assert forall i :: 0 <= i < |rows| - 1 ==> rows[..|rows| - 1][i] == rows[i];
  }

  lemma OneElsewhere(
      files: map<string, string>, t: Row, archived: set<string>, flags: Flags, globs: seq<string>, id: string)
    requires t.id != id && One(files, t, archived, flags, globs).Some?
    ensures Kept(files, One(files, t, archived, flags, globs).value, id)
  {}

  lemma {:induction false} OthersStay(
      files: map<string, string>, rows: seq<Row>, archived: set<string>, flags: Flags, globs: seq<string>, id: string)
    requires !RowFor(rows, id) && All(files, rows, archived, flags, globs).Some?
    ensures Kept(files, All(files, rows, archived, flags, globs).value, id)
    decreases |rows|
  {
    if rows != [] {
      var n := |rows| - 1;
      NoRowBefore(rows, id);
      OthersStay(files, rows[..n], archived, flags, globs, id);
      OneElsewhere(All(files, rows[..n], archived, flags, globs).value, rows[n], archived, flags, globs, id);
    }
  }

  /** Open and archived ids stay apart, and no open id is lost. */
  lemma {:induction false} IdsConserved(
      files: map<string, string>, rows: seq<Row>, archived: set<string>, flags: Flags, globs: seq<string>)
    requires All(files, rows, archived, flags, globs).Some?
    ensures var after := All(files, rows, archived, flags, globs).value;
      && files.Keys <= after.Keys
      && (forall id :: id in after && id !in files ==> id !in archived && RowFor(rows, id))
    decreases |rows|
  {
    if rows != [] {
      var n := |rows| - 1;
      IdsConserved(files, rows[..n], archived, flags, globs);
      assert forall i :: 0 <= i < n ==> rows[..n][i] == rows[i];
      assert RowFor(rows, rows[n].id);
      RowForMore(rows);
    }
  }

  lemma RowForMore(rows: seq<Row>)
    requires rows != []
    ensures forall id :: RowFor(rows[..|rows| - 1], id) ==> RowFor(rows, id)
  {
    forall id | RowFor(rows[..|rows| - 1], id) ensures RowFor(rows, id) {
      var i :| 0 <= i < |rows| - 1 && rows[..|rows| - 1][i].id == id;
      assert rows[i].id == id;
    }
  }

  // ------------------------------------------------------------ what a run writes

  lemma LastRowNew(rows: seq<Row>)
    requires DistinctIds(rows) && rows != []
    ensures !RowFor(rows[..|rows| - 1], rows[|rows| - 1].id) && DistinctIds(rows[..|rows| - 1])
  {
    assert forall i :: 0 <= i < |rows| - 1 ==> rows[..|rows| - 1][i] == rows[i];
  }

  /** A row looks only at its own file. */
  lemma OneLooksAtOwn(
      files: map<string, string>, before: map<string, string>, t: Row,
      archived: set<string>, flags: Flags, globs: seq<string>)
    requires Kept(files, before, t.id) && One(before, t, archived, flags, globs).Some?
    ensures One(files, t, archived, flags, globs).Some?
    ensures Kept(One(files, t, archived, flags, globs).value, One(before, t, archived, flags, globs).value, t.id)
  {}

  /** With distinct ids, each row decides its own file: written when it may be, otherwise kept. */
  lemma {:induction false} EachRowDecides(
      files: map<string, string>, rows: seq<Row>, archived: set<string>, flags: Flags, globs: seq<string>, k: nat)
    requires DistinctIds(rows) && k < |rows| && All(files, rows, archived, flags, globs).Some?
    ensures var t, after := rows[k], All(files, rows, archived, flags, globs).value;
      var one := One(files, t, archived, flags, globs);
      one.Some? && Kept(one.value, after, t.id)
    decreases |rows|
  {
    var n := |rows| - 1;
    var before := All(files, rows[..n], archived, flags, globs).value;
    LastRowNew(rows);
    if k < n {
      EachRowDecides(files, rows[..n], archived, flags, globs, k);
      OneElsewhere(before, rows[n], archived, flags, globs, rows[k].id);
    } else {
      OthersStay(files, rows[..n], archived, flags, globs, rows[n].id);
      OneLooksAtOwn(files, before, rows[n], archived, flags, globs);
    }
  }

  ghost predicate AllRepresentable(rows: seq<Row>, globs: seq<string>) {
    forall i :: 0 <= i < |rows| ==> Representable(rows[i], globs)
  }

  lemma SettledOne(
      files: map<string, string>, after: map<string, string>, t: Row,
      archived: set<string>, flags: Flags, globs: seq<string>)
    requires One(files, t, archived, flags, globs).Some?
      && Kept(One(files, t, archived, flags, globs).value, after, t.id)
    requires Representable(t, globs)
    ensures One(after, t, archived, flags, globs) == Some(after)
  {
    if !Skipped(t, archived, flags) {
      RoundTrip(t, globs);
      var text := RenderText(t, globs);
      assert t.id in after;
      assert after[t.id] == text ==> after[t.id := text] == after;
      assert t.id in files && after[t.id] != text ==> after[t.id] == files[t.id];
    }
  }

  lemma SettledRow(
      files: map<string, string>, after: map<string, string>, rows: seq<Row>, k: nat,
      archived: set<string>, flags: Flags, globs: seq<string>)
    requires DistinctIds(rows) && AllRepresentable(rows, globs) && k < |rows|
    requires All(files, rows, archived, flags, globs) == Some(after)
    ensures One(after, rows[k], archived, flags, globs) == Some(after)
  {
    EachRowDecides(files, rows, archived, flags, globs, k);
    SettledOne(files, after, rows[k], archived, flags, globs);
  }

  lemma {:induction false} SettledAll(
      files: map<string, string>, after: map<string, string>, rows: seq<Row>, front: seq<Row>,
      archived: set<string>, flags: Flags, globs: seq<string>)
    requires DistinctIds(rows) && AllRepresentable(rows, globs) && front <= rows
    requires All(files, rows, archived, flags, globs) == Some(after)
    ensures All(after, front, archived, flags, globs) == Some(after)
    decreases |front|
  {
    if front != [] {
      var n := |front| - 1;
      SettledAll(files, after, rows, front[..n], archived, flags, globs);
      assert front[n] == rows[n];
      SettledRow(files, after, rows, n, archived, flags, globs);
    }
  }

  /** Generating the same rows again, with the same flags, changes no file. */
  lemma RegeneratingSettles(
      files: map<string, string>, rows: seq<Row>, archived: set<string>, flags: Flags, globs: seq<string>)
    requires DistinctIds(rows) && AllRepresentable(rows, globs) && All(files, rows, archived, flags, globs).Some?
    ensures var after := All(files, rows, archived, flags, globs).value;
      All(after, rows, archived, flags, globs) == Some(after)
  {
    SettledAll(files, All(files, rows, archived, flags, globs).value, rows, rows, archived, flags, globs);
  }

  // ------------------------------------------------------------ does every row get its file?

  predicate FileOf(files: map<string, string>, q: Row, globs: seq<string>) {
    q.id in files && files[q.id] == RenderText(q, globs)
  }

  /** Whether the file of a row that is not skipped is written. */
  predicate Overwritten(files: map<string, string>, q: Row, flags: Flags) {
    q.id !in files || (Load(files[q.id]).Ok? && Refreshes(Load(files[q.id]).value, flags))
  }

  lemma OneFiles(files: map<string, string>, t: Row, archived: set<string>, flags: Flags, globs: seq<string>)
    requires One(files, t, archived, flags, globs).Some?
    ensures var one := One(files, t, archived, flags, globs).value;
      if !Skipped(t, archived, flags) && Overwritten(files, t, flags) then one == files[t.id := RenderText(t, globs)]
      else one == files
  {}

  /** After a run a row's file is its printed text exactly when it was that already, or the row is
      not skipped and its file was missing or the flags refresh it. */
  lemma RowFiledExactly(
      files: map<string, string>, rows: seq<Row>, archived: set<string>, flags: Flags, globs: seq<string>, k: nat)
    requires DistinctIds(rows) && k < |rows| && All(files, rows, archived, flags, globs).Some?
    ensures var t, after := rows[k], All(files, rows, archived, flags, globs).value;
      FileOf(after, t, globs) <==>
      FileOf(files, t, globs) || (!Skipped(t, archived, flags) && Overwritten(files, t, flags))
  {
    EachRowDecides(files, rows, archived, flags, globs, k);
    OneFiles(files, rows[k], archived, flags, globs);
  }

  /** There is a file as printed for the tracker row: the text of a row of the same tracker id whose
      body starts alike, under that row's id. (A file that was edited since is none.) */
  ghost predicate HasPrintedFile(files: map<string, string>, index: seq<Row>, r: Row, globs: seq<string>) {
    exists k :: 0 <= k < |Trackers.Split(index)| && StandsFor(Trackers.Split(index)[k], r)
      && FileOf(files, Trackers.Split(index)[k], globs)
  }

  /** Every actionable tracker row has one place, and after a run there is a file there as printed for
      it exactly when there was one before, or its id is not archived and there was no file or one
      that the flags refresh. */
  lemma RowPrintedExactly(
      files: map<string, string>, index: seq<Row>, archived: set<string>, flags: Flags, globs: seq<string>, r: Row)
      returns (q: Row)
    requires FromTracker(index) && r in index && r.actionable
    requires All(files, Trackers.Split(index), archived, flags, globs).Some?
    ensures q in Trackers.Split(index) && StandsFor(q, r)
    ensures HasPrintedFile(All(files, Trackers.Split(index), archived, flags, globs).value, index, r, globs) <==>
      FileOf(files, q, globs) || (q.id !in archived && Overwritten(files, q, flags))
  {
    var k := Representative(index, r);
    q := Trackers.Split(index)[k];
    SplitIsFaithful(index);
    RowFiledExactly(files, Trackers.Split(index), archived, flags, globs, k);
  }

  const PLAIN: Flags := Flags(false, false, false)

  /** Two rows of one id, and a third that is entered between them later; `n` is the second's number. */
  predicate Reordered(a: Row, c: Row, b: Row, globs: seq<string>, n: nat) {
    && OneGroup([a, c, b], a.id) && PrefixesDiffer([a, c, b]) && c.body != "" && b.body != ""
    && TextLines.OneLine(b.body) && TextLines.OneLine(c.body) && b.title == c.title
    && Representable(a, globs) && Representable(WithId(c, DupId(a.id, n)), globs)
    && Representable(WithId(b, DupId(a.id, n)), globs) && Representable(WithId(b, DupId(a.id, n + 1)), globs)
  }

  /** The files after the tracker had only the two rows. */
  function TwoFiles(a: Row, b: Row, globs: seq<string>, n: nat): map<string, string> {
    map[a.id := RenderText(a, globs), DupId(a.id, n) := RenderText(WithId(b, DupId(a.id, n)), globs)]
  }

  lemma AllSnoc(
      files: map<string, string>, rows: seq<Row>, t: Row, archived: set<string>, flags: Flags, globs: seq<string>)
    ensures All(files, rows + [t], archived, flags, globs)
      == match All(files, rows, archived, flags, globs)
         case Some(fs) => One(fs, t, archived, flags, globs)
         case None => None
  {
    assert (rows + [t])[..|rows|] == rows;
  }

  lemma AllOne(files: map<string, string>, t: Row, archived: set<string>, flags: Flags, globs: seq<string>)
    ensures All(files, [t], archived, flags, globs) == One(files, t, archived, flags, globs)
  {
    assert [t][..0] == [];
    assert All(files, [], archived, flags, globs) == Some(files);
  }

  lemma DupLonger(tid: string, n: nat)
    ensures |DupId(tid, n)| > |tid|
  {}

  /** The first run over two rows of one id. */
  lemma TwoRows(a: Row, second: Row, globs: seq<string>)
    requires a.id != second.id && a.actionable && second.actionable
    ensures All(map[], [a, second], {}, PLAIN, globs)
      == Some(map[a.id := RenderText(a, globs), second.id := RenderText(second, globs)])
  {
    AllOne(map[], a, {}, PLAIN, globs);
    AllSnoc(map[], [a], second, {}, PLAIN, globs);
    assert [a] + [second] == [a, second];
  }

  lemma SplitOfTwo(a: Row, b: Row, n: nat)
    requires OneGroup([a, b], a.id) && PrefixesDiffer([a, b]) && n == 2
    ensures Trackers.Split([a, b]) == [a, WithId(b, DupId(a.id, n))]
  {
    var index := [a, b];
    GroupNumbered(index, a.id);
    RenamedAt(a.id, index, 0);
    RenamedAt(a.id, index, 1);
  }

  lemma FilesOfTwo(a: Row, b: Row, globs: seq<string>, n: nat)
    requires OneGroup([a, b], a.id) && PrefixesDiffer([a, b]) && n == 2
    ensures All(map[], Trackers.Split([a, b]), {}, PLAIN, globs) == Some(TwoFiles(a, b, globs, n))
  {
    assert [a, b][0] == a && [a, b][1] == b;
    SplitOfTwo(a, b, n);
    DupLonger(a.id, n);
    TwoRows(a, WithId(b, DupId(a.id, n)), globs);
  }

  ghost predicate AllReadable(files: map<string, string>) {
    forall id :: id in files ==> Load(files[id]).Ok?
  }

  /** A run over clean rows with readable files goes through. */
  lemma {:induction false} ReadableRuns(
      files: map<string, string>, rows: seq<Row>, archived: set<string>, flags: Flags, globs: seq<string>)
    requires AllReadable(files) && AllRepresentable(rows, globs)
    ensures All(files, rows, archived, flags, globs).Some?
    ensures AllReadable(All(files, rows, archived, flags, globs).value)
    decreases |rows|
  {
    if rows != [] {
      var n := |rows| - 1;
      ReadableRuns(files, rows[..n], archived, flags, globs);
      RoundTrip(rows[n], globs);
      OneFiles(All(files, rows[..n], archived, flags, globs).value, rows[n], archived, flags, globs);
    }
  }

  lemma RunOverThree(index: seq<Row>, files: map<string, string>, globs: seq<string>)
    requires |index| > 1 && OneGroup(index, index[0].id) && PrefixesDiffer(index) && AllReadable(files)
    requires Representable(index[0], globs)
    requires forall k :: 0 < k < |index| ==> Representable(WithId(index[k], DupId(index[0].id, k + 1)), globs)
    ensures All(files, Trackers.Split(index), {}, PLAIN, globs).Some?
  {
    GroupNumbered(index, index[0].id);
    forall k | 0 <= k < |Trackers.Split(index)| ensures Representable(Trackers.Split(index)[k], globs) {
      RenamedAt(index[0].id, index, k);
    }
    ReadableRuns(files, Trackers.Split(index), {}, PLAIN, globs);
  }

  /** The file is the printed text of a row with another body. */
  ghost predicate PrintsOther(text: string, r: Row, globs: seq<string>) {
    exists q: Row :: text == RenderText(q, globs) && Prefix(q.body) != Prefix(r.body)
  }

  lemma {:induction false} NewFilesPrinted(
      files: map<string, string>, rows: seq<Row>, archived: set<string>, flags: Flags, globs: seq<string>, id: string)
      returns (k: nat)
    requires All(files, rows, archived, flags, globs).Some?
    requires id in All(files, rows, archived, flags, globs).value && id !in files
    ensures k < |rows| && rows[k].id == id
    ensures All(files, rows, archived, flags, globs).value[id] == RenderText(rows[k], globs)
    decreases |rows|
  {
    var n := |rows| - 1;
    var before := All(files, rows[..n], archived, flags, globs).value;
    OneFiles(before, rows[n], archived, flags, globs);
    if rows[n].id == id && (id !in before || before != All(files, rows, archived, flags, globs).value) {
      k := n;
    } else {
      k := NewFilesPrinted(files, rows[..n], archived, flags, globs, id);
    }
  }

  /** A row whose place is taken is not in any file. */
  lemma BodyNowhere(index: seq<Row>, files: map<string, string>, globs: seq<string>, tid: string, n: nat)
    requires |index| > 1 && OneGroup(index, tid) && PrefixesDiffer(index) && n == 2
    requires DupId(tid, n) in files && forall id :: id in files ==> PrintsOther(files[id], index[1], globs)
    requires All(files, Trackers.Split(index), {}, PLAIN, globs).Some?
    ensures var after := All(files, Trackers.Split(index), {}, PLAIN, globs).value;
      forall id :: id in after ==> PrintsOther(after[id], index[1], globs)
  {
    var after := All(files, Trackers.Split(index), {}, PLAIN, globs).value;
    GroupNumbered(index, tid);
    forall id | id in after ensures PrintsOther(after[id], index[1], globs) {
      if id in files {
        UnforcedKeeps(files, Trackers.Split(index), {}, PLAIN, globs, id);
      } else {
        var k := NewFilesPrinted(files, Trackers.Split(index), {}, PLAIN, globs, id);
        RenamedAt(tid, index, k);
        assert k != 1 && Prefix(index[k].body) != Prefix(index[1].body);
      }
    }
  }

  lemma TwoFilesOthers(a: Row, c: Row, b: Row, globs: seq<string>, n: nat)
    requires Prefix(a.body) != Prefix(c.body) && Prefix(b.body) != Prefix(c.body)
    ensures var files := TwoFiles(a, b, globs, n); forall id :: id in files ==> PrintsOther(files[id], c, globs)
  {
    OtherPrinted(a, c, globs);
    OtherPrinted(WithId(b, DupId(a.id, n)), c, globs);
    BothOther(a.id, DupId(a.id, n), RenderText(a, globs), RenderText(WithId(b, DupId(a.id, n)), globs), c, globs);
  }

  lemma BothOther(x: string, y: string, s: string, t: string, c: Row, globs: seq<string>)
    requires PrintsOther(s, c, globs) && PrintsOther(t, c, globs)
    ensures forall id :: id in map[x := s, y := t] ==> PrintsOther(map[x := s, y := t][id], c, globs)
  {}

  lemma OtherPrinted(q: Row, c: Row, globs: seq<string>)
    requires Prefix(q.body) != Prefix(c.body)
    ensures PrintsOther(RenderText(q, globs), c, globs)
  {}

  /** Numbers depend on the order of the tracker, but files are kept: a row entered between two of
      its id takes over the number of the second, whose file stays, and no file holds its body. */
  lemma ReorderedRowHasNoFile(a: Row, c: Row, b: Row, globs: seq<string>, n: nat)
    requires n == 2 && Reordered(a, c, b, globs, n) && TrackerId(a.id)
    ensures var files := All(map[], Trackers.Split([a, b]), {}, PLAIN, globs);
      && files.Some?
      && var after := All(files.value, Trackers.Split([a, c, b]), {}, PLAIN, globs);
         && after.Some? && !HasPrintedFile(after.value, [a, c, b], c, globs)
         && forall id :: id in after.value ==> PrintsOther(after.value[id], c, globs)
  {
    var index, files := [a, c, b], TwoFiles(a, b, globs, n);
    assert index[0] == a && index[1] == c && index[2] == b;
    assert PrefixesDiffer([a, b]) && OneGroup([a, b], a.id);
    FilesOfTwo(a, b, globs, n);
    TwoFilesReadable(a, b, globs, n);
    RunOverThree(index, files, globs);
    KeptOut(index, files, globs, a.id, n, b);
    assert Prefix(index[0].body) != Prefix(index[1].body) && Prefix(index[1].body) != Prefix(index[2].body);
    TwoFilesOthers(a, c, b, globs, n);
    BodyNowhere(index, files, globs, a.id, n);
  }

  lemma TwoFilesReadable(a: Row, b: Row, globs: seq<string>, n: nat)
    requires Representable(a, globs) && Representable(WithId(b, DupId(a.id, n)), globs)
    ensures AllReadable(TwoFiles(a, b, globs, n))
  {
    RoundTrip(a, globs);
    RoundTrip(WithId(b, DupId(a.id, n)), globs);
  }

  /** A file that holds another row under the same id is not the row's own, and stays. */
  lemma TakenFile(files: map<string, string>, other: Row, q: Row, globs: seq<string>)
    requires Representable(other, globs) && Representable(q, globs)
    requires other.id == q.id && other.title == q.title && other.body != q.body
    requires other.body != "" && q.body != "" && TextLines.OneLine(other.body) && TextLines.OneLine(q.body)
    requires q.id in files && files[q.id] == RenderText(other, globs)
    ensures !FileOf(files, q, globs) && !Overwritten(files, q, PLAIN)
  {
    TextsDiffer(other, q, globs);
  }

  lemma PlaceOfSecond(index: seq<Row>, q: Row, tid: string, n: nat)
    requires |index| > 1 && OneGroup(index, tid) && PrefixesDiffer(index) && n == 2
    requires q in Trackers.Split(index) && StandsFor(q, index[1])
    ensures q == WithId(index[1], DupId(tid, n))
  {
    PlaceInGroup(index, tid, 1, q);
  }

  lemma KeptOut(index: seq<Row>, files: map<string, string>, globs: seq<string>, tid: string, n: nat, b: Row)
    requires |index| > 1 && OneGroup(index, tid) && PrefixesDiffer(index) && n == 2 && FromTracker(index)
    requires index[1].actionable && index[1].title == b.title && index[1].body != b.body
    requires index[1].body != "" && b.body != "" && TextLines.OneLine(index[1].body) && TextLines.OneLine(b.body)
    requires Representable(WithId(index[1], DupId(tid, n)), globs) && Representable(WithId(b, DupId(tid, n)), globs)
    requires DupId(tid, n) in files && files[DupId(tid, n)] == RenderText(WithId(b, DupId(tid, n)), globs)
    requires All(files, Trackers.Split(index), {}, PLAIN, globs).Some?
    ensures !HasPrintedFile(All(files, Trackers.Split(index), {}, PLAIN, globs).value, index, index[1], globs)
  {
    var q := RowPrintedExactly(files, index, {}, PLAIN, globs, index[1]);
    PlaceOfSecond(index, q, tid, n);
    TakenFile(files, WithId(b, DupId(tid, n)), q, globs);
  }

  // ------------------------------------------------------------ what a refresh forgets

  function ReadDeps(files: map<string, string>, id: string): Option<Value> {
    if id in files && Load(files[id]).Ok? && "depends_on" in Load(files[id]).value.fields
    then Some(Load(files[id]).value.fields["depends_on"])
    else None
  }

  lemma {:induction false} FieldMapOnly(fs: seq<Field>, key: string)
    requires forall i :: 0 <= i < |fs| ==> fs[i].key != key
    ensures key !in FieldMap(map[], fs)
    decreases |fs|
  {
    if fs != [] { FieldMapOnly(fs[..|fs| - 1], key); }
  }

  lemma GeneratedHasNoDeps(t: Row, globs: seq<string>)
    requires Representable(t, globs)
    ensures Load(RenderText(t, globs)).Ok? && "depends_on" !in Load(RenderText(t, globs)).value.fields
  {
    RoundTrip(t, globs);
    FieldMapOnly(FieldsOf(t, globs), "depends_on");
  }

  /** What an existing ticket depends on reads after a run as before exactly when it depended on
      nothing, its row is skipped, or the flags do not refresh it. */
  lemma DependenciesKeptExactly(
      files: map<string, string>, rows: seq<Row>, archived: set<string>, flags: Flags, globs: seq<string>, k: nat)
    requires DistinctIds(rows) && k < |rows| && All(files, rows, archived, flags, globs).Some?
    requires rows[k].id in files && Representable(rows[k], globs)
    ensures var t, after := rows[k], All(files, rows, archived, flags, globs).value;
      ReadDeps(after, t.id) == ReadDeps(files, t.id) <==>
      ReadDeps(files, t.id) == None || Skipped(t, archived, flags) || !Overwritten(files, t, flags)
  {
    EachRowDecides(files, rows, archived, flags, globs, k);
    OneFiles(files, rows[k], archived, flags, globs);
    GeneratedHasNoDeps(rows[k], globs);
  }

  /** A generated ticket to which a dependency was added by hand. */
  function WithDependency(t: Row, d: string, globs: seq<string>): string {
    var fs := FieldsOf(t, globs) + [Field("depends_on", Items([d]))];
    if PrintFields(fs) == [] then "" else WriteParts(Parts(PrintFields(fs), BodyOf(t)))
  }

  lemma DependencyFieldsGood(t: Row, d: string, globs: seq<string>)
    requires Representable(t, globs) && CleanItem(d)
    ensures var fs := FieldsOf(t, globs) + [Field("depends_on", Items([d]))];
      forall i :: 0 <= i < |fs| ==> CleanKey(fs[i].key) && CleanItems(fs[i].value)
  {
    IdentifierClean("depends_on");
    Rendering.KeysClean(t, globs);
    var gs, f := FieldsOf(t, globs), Field("depends_on", Items([d]));
    forall i | 0 <= i < |gs + [f]| ensures CleanKey((gs + [f])[i].key) && CleanItems((gs + [f])[i].value) {
      if i < |gs| { assert (gs + [f])[i] == gs[i]; }
    }
  }

  lemma DependencyReads(t: Row, d: string, globs: seq<string>)
    requires Representable(t, globs) && CleanItem(d)
    ensures Load(WithDependency(t, d, globs))
      == Ok(Ticket(Expected(t, globs).fields["depends_on" := Items([d])], BodyOf(t)))
  {
    var f := Field("depends_on", Items([d]));
    var fs := FieldsOf(t, globs) + [f];
    DependencyFieldsGood(t, d, globs);
    assert fs[..|fs| - 1] == FieldsOf(t, globs) && fs[|fs| - 1] == f;
    FieldsLinesGood(fs);
    FeedFields(EMPTY, fs);
    LoadWritten(Parts(PrintFields(fs), BodyOf(t)));
    TextLines.ReadTextExactly(BodyOf(t));
  }

  lemma OpenTicketNotWorked(t: Row, d: string, globs: seq<string>)
    requires t.actionable
    ensures !Worked(Ticket(Expected(t, globs).fields["depends_on" := Items([d])], BodyOf(t)))
  {
    var fs := FieldsOf(t, globs);
    FieldMapOnly(fs, "scope_kind");
    FieldMapOnly(fs, "fleet_commit");
    assert fs[4] == Field("status", Text("open"));
    FieldMapLast(map[], fs, 4);
  }

  /** Forcing a refresh of an open ticket, said to renew its prose only, drops its dependencies. */
  lemma ForceLosesDependencies(t: Row, d: string, globs: seq<string>)
    requires Representable(t, globs) && CleanItem(d) && t.actionable
    ensures var files, flags := map[t.id := WithDependency(t, d, globs)], Flags(false, true, false);
      && All(files, [t], {}, flags, globs).Some?
      && ReadDeps(files, t.id) == Some(Items([d])) && ReadDeps(All(files, [t], {}, flags, globs).value, t.id) == None
  {
    var files, flags := map[t.id := WithDependency(t, d, globs)], Flags(false, true, false);
    DependencyReads(t, d, globs);
    OpenTicketNotWorked(t, d, globs);
    GeneratedHasNoDeps(t, globs);
    AllOne(files, t, {}, flags, globs);
  }
}
