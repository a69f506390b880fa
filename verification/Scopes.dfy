/** The two readings of a ticket's scope: the permission map handed to the coding session
    (fleet/lib/runner.py), where the last matching glob wins, and `scope_covers` as used when
    the result is committed and again in QA (fleet/fleet.py). */
module Scopes {
  import opened TextLines

  type Path = string

  predicate IsDirectory(entry: string) {
    entry != "" && entry[|entry| - 1] == '/'
  }

  predicate EntryCovers(entry: string, f: Path) {
    if IsDirectory(entry) then StartsWith(f, entry) else f == entry
  }

  predicate Covers(scope: seq<string>, f: Path) {
    exists i :: 0 <= i < |scope| && EntryCovers(scope[i], f)
  }

  // ------------------------------------------------------------ globs

  /** `**` stands for any text, `*` for text without a slash, `?` for one character other than a slash. */
  predicate Glob(p: string, s: string)
    decreases |p| + |s|
  {
    if p == "" then s == ""
    else if p[0] == '*' then
      if |p| > 1 && p[1] == '*' then Glob(p[2..], s) || (s != "" && Glob(p, s[1..]))
      else Glob(p[1..], s) || (s != "" && s[0] != '/' && Glob(p, s[1..]))
    else s != "" && (if p[0] == '?' then s[0] != '/' else s[0] == p[0]) && Glob(p[1..], s[1..])
  }

  predicate NoWildcard(p: string) {
    forall i :: 0 <= i < |p| ==> p[i] != '*' && p[i] != '?'
  }

  lemma {:induction false} GlobLiteral(p: string, q: string, s: string)
    requires NoWildcard(p)
    ensures Glob(p + q, s) <==> StartsWith(s, p) && Glob(q, s[|p|..])
    decreases |p|
  {
    if p == "" {
      assert p + q == q && s[0..] == s;
    } else {
      assert (p + q)[1..] == p[1..] + q && (p + q)[0] == p[0];
      if s != "" && s[0] == p[0] {
        GlobLiteral(p[1..], q, s[1..]);
        assert |p| <= |s| ==> s[1..][|p| - 1..] == s[|p|..];
        assert StartsWith(s, p) <==> StartsWith(s[1..], p[1..]) by {
          if StartsWith(s, p) { assert s[1..][..|p| - 1] == s[..|p|][1..]; }
          if StartsWith(s[1..], p[1..]) { assert s[..|p|] == [s[0]] + s[1..][..|p| - 1]; }
        }
      } else {
        assert |p| <= |s| ==> s[..|p|][0] == s[0];
      }
    }
  }

  lemma {:induction false} GlobAnything(s: string)
    ensures Glob("**", s)
    decreases |s|
  {
    if s != "" { GlobAnything(s[1..]); }
  }

  lemma {:induction false} GlobSearch(q: string, s: string)
    ensures Glob("**" + q, s) <==> exists k :: 0 <= k <= |s| && Glob(q, s[k..])
    decreases |s|
  {
    var p := "**" + q;
    assert p[2..] == q;
    if Glob(q, s) { assert s[0..] == s; }
    if s != "" {
      GlobSearch(q, s[1..]);
      if Glob(p, s[1..]) {
        var k :| 0 <= k <= |s[1..]| && Glob(q, s[1..][k..]);
        assert s[1..][k..] == s[k + 1..];
      }
      forall k | 0 <= k <= |s| && Glob(q, s[k..]) ensures Glob(p, s) {
        if k == 0 { assert s[0..] == s; } else { assert s[1..][k - 1..] == s[k..]; }
      }
    }
  }

  // ------------------------------------------------------------ the permission map

  datatype Rule = Rule(glob: string, allow: bool)

  /** Assignment to an ordered dictionary: a key that is already there keeps its place. */
  function Assign(edit: seq<Rule>, glob: string): seq<Rule> {
    if edit == [] then [Rule(glob, true)]
    else if edit[0].glob == glob then [Rule(glob, true)] + edit[1..]
    else [edit[0]] + Assign(edit[1..], glob)
  }

  function GlobOf(entry: string): string {
    if IsDirectory(entry) then entry + "**" else entry
  }

  function FirstRules(allowTests: bool): seq<Rule> {
    if allowTests then [Rule("**", false), Rule("tests/**", true), Rule("**/tests/**", true)] else [Rule("**", false)]
  }

  function EditMap(scope: seq<string>, allowTests: bool): seq<Rule>
    decreases |scope|
  {
    if scope == [] then FirstRules(allowTests)
    else Assign(EditMap(scope[..|scope| - 1], allowTests), GlobOf(scope[|scope| - 1]))
  }

  /** The last rule whose glob matches decides. */
  predicate Allowed(edit: seq<Rule>, f: Path)
    decreases |edit|
  {
    edit != [] &&
    (if Glob(edit[|edit| - 1].glob, f) then edit[|edit| - 1].allow else Allowed(edit[..|edit| - 1], f))
  }

  method WriteSessionConfig(scope: seq<string>, allowTests: bool) returns (edit: seq<Rule>)
    ensures edit == EditMap(scope, allowTests)
  {
    edit := [Rule("**", false)];
    if allowTests {
      edit := edit + [Rule("tests/**", true)];
      edit := edit + [Rule("**/tests/**", true)];
    }
    for i := 0 to |scope|
      invariant edit == EditMap(scope[..i], allowTests)
    {
      assert scope[..i + 1][..i] == scope[..i];
      edit := Assign(edit, if IsDirectory(scope[i]) then scope[i] + "**" else scope[i]);
    }
    assert scope[..|scope|] == scope;
  }

  /** The catch-all denial comes first and everything after it allows. */
  predicate DenyFirst(edit: seq<Rule>) {
    && edit != [] && edit[0] == Rule("**", false)
    && forall i :: 0 < i < |edit| ==> edit[i].allow && edit[i].glob != "**"
  }

  predicate SomeRule(edit: seq<Rule>, f: Path) {
    exists i :: 0 < i < |edit| && Glob(edit[i].glob, f)
  }

  lemma {:induction false} AllowedBySomeRule(edit: seq<Rule>, f: Path)
    requires DenyFirst(edit)
    ensures Allowed(edit, f) <==> SomeRule(edit, f)
    decreases |edit|
  {
    var n := |edit| - 1;
    if n == 0 {
      GlobAnything(f);
    } else if !Glob(edit[n].glob, f) {
      AllowedBySomeRule(edit[..n], f);
      assert SomeRule(edit[..n], f) <==> SomeRule(edit, f) by {
        if SomeRule(edit, f) {
          var i :| 0 < i < |edit| && Glob(edit[i].glob, f);
          assert edit[..n][i] == edit[i];
        }
        if SomeRule(edit[..n], f) {
          var i :| 0 < i < n && Glob(edit[..n][i].glob, f);
          assert edit[i] == edit[..n][i];
        }
      }
    }
  }

  /** Assigning changes one place at most, and that place then holds the new rule. */
  lemma {:induction false} AssignPlace(edit: seq<Rule>, glob: string) returns (k: nat)
    ensures var e := Assign(edit, glob);
      && k < |e| && e[k] == Rule(glob, true)
      && (if k < |edit| then edit[k].glob == glob && e == edit[k := Rule(glob, true)]
          else k == |edit| && e == edit + [Rule(glob, true)])
  {
    if edit == [] || edit[0].glob == glob {
      k := 0;
    } else {
      k := AssignPlace(edit[1..], glob);
      k := k + 1;
    }
  }

  lemma AssignAllows(edit: seq<Rule>, glob: string, f: Path)
    requires DenyFirst(edit) && glob != "**"
    ensures DenyFirst(Assign(edit, glob))
    ensures SomeRule(Assign(edit, glob), f) <==> SomeRule(edit, f) || Glob(glob, f)
  {
    var e := Assign(edit, glob);
    var k := AssignPlace(edit, glob);
    assert forall i :: 0 < i < |edit| ==> e[i].glob == edit[i].glob;
    if SomeRule(edit, f) {
      var i :| 0 < i < |edit| && Glob(edit[i].glob, f);
      assert Glob(e[i].glob, f);
    }
    if Glob(glob, f) {
      assert 0 < k && Glob(e[k].glob, f);
    }
    if SomeRule(e, f) && !Glob(glob, f) {
      var i :| 0 < i < |e| && Glob(e[i].glob, f);
      assert i != k;
    }
  }

  /** A test file as the permission map sees it. */
  predicate UnderTests(f: Path) {
    StartsWith(f, "tests/") || Below(f, "/tests/")
  }

  /** A directory followed by `**` covers what lies below it. */
  lemma GlobBelow(dir: string, f: Path)
    requires NoWildcard(dir)
    ensures Glob(dir + "**", f) <==> StartsWith(f, dir)
  {
    GlobLiteral(dir, "**", f);
    if StartsWith(f, dir) { GlobAnything(f[|dir|..]); }
  }

  predicate Below(f: Path, dir: string) {
    exists k :: 0 <= k <= |f| && StartsWith(f[k..], dir)
  }

  lemma GlobAnywhereBelow(dir: string, f: Path)
    requires NoWildcard(dir)
    ensures Glob("**" + (dir + "**"), f) <==> Below(f, dir)
  {
    GlobSearch(dir + "**", f);
    forall k | 0 <= k <= |f| ensures Glob(dir + "**", f[k..]) <==> StartsWith(f[k..], dir) {
      GlobBelow(dir, f[k..]);
    }
  }

  lemma TestGlobs(f: Path)
    ensures Glob("tests/**", f) || Glob("**/tests/**", f) <==> UnderTests(f)
  {
    GlobBelow("tests/", f);
    GlobAnywhereBelow("/tests/", f);
    assert "tests/" + "**" == "tests/**" && "**" + ("/tests/" + "**") == "**/tests/**";
  }

  lemma FirstRulesAllow(allowTests: bool, f: Path)
    ensures DenyFirst(FirstRules(allowTests))
    ensures SomeRule(FirstRules(allowTests), f) <==> allowTests && UnderTests(f)
  {
    if allowTests {
      var edit := FirstRules(true);
      TestGlobs(f);
      assert edit[1].glob == "tests/**" && edit[2].glob == "**/tests/**";
    }
  }

  lemma GlobOfEntry(entry: string, f: Path)
    requires NoWildcard(entry)
    ensures GlobOf(entry) != "**" && (Glob(GlobOf(entry), f) <==> EntryCovers(entry, f))
  {
    if IsDirectory(entry) {
      GlobLiteral(entry, "**", f);
      if StartsWith(f, entry) { GlobAnything(f[|entry|..]); }
      assert |entry + "**"| > 2;
    } else {
      GlobLiteral(entry, "", f);
      assert entry + "" == entry;
      if StartsWith(f, entry) && f[|entry|..] == "" { assert f == f[..|entry|]; }
      assert entry != "" ==> entry[0] != '*';
    }
  }

  /** For scopes without wildcards, the session may edit exactly the files the scope covers and,
      if test edits are on, files below a `tests` directory. */
  lemma {:induction false} MapMatchesScope(scope: seq<string>, allowTests: bool, f: Path)
    requires forall i :: 0 <= i < |scope| ==> NoWildcard(scope[i])
    ensures DenyFirst(EditMap(scope, allowTests))
    ensures Allowed(EditMap(scope, allowTests), f) <==> Covers(scope, f) || (allowTests && UnderTests(f))
    decreases |scope|
  {
    if scope == [] {
      FirstRulesAllow(allowTests, f);
    } else {
      var n := |scope| - 1;
      MapMatchesScope(scope[..n], allowTests, f);
      var edit := EditMap(scope[..n], allowTests);
      AllowedBySomeRule(edit, f);
      GlobOfEntry(scope[n], f);
      AssignAllows(edit, GlobOf(scope[n]), f);
      CoversSnoc(scope, f);
    }
    AllowedBySomeRule(EditMap(scope, allowTests), f);
  }

  lemma CoversSnoc(scope: seq<string>, f: Path)
    requires scope != []
    ensures Covers(scope, f) <==> Covers(scope[..|scope| - 1], f) || EntryCovers(scope[|scope| - 1], f)
  {
    var n := |scope| - 1;
    if Covers(scope[..n], f) {
      var i :| 0 <= i < n && EntryCovers(scope[..n][i], f);
      assert scope[i] == scope[..n][i];
    }
    if Covers(scope, f) && !EntryCovers(scope[n], f) {
      var i :| 0 <= i < |scope| && EntryCovers(scope[i], f);
      assert scope[..n][i] == scope[i];
    }
  }

  // ------------------------------------------------------------ wildcards in a scope entry

  /** The text with every wildcard replaced by a letter. */
  function Fill(p: string): string {
    seq(|p|, i requires 0 <= i < |p| => if p[i] == '*' || p[i] == '?' then 'x' else p[i])
  }

  lemma {:induction false} GlobFill(p: string, q: string)
    requires q == "" || (q == "**" && (p == "" || IsDirectory(p)))
    ensures Glob(p + q, Fill(p))
    decreases |p|
  {
    var s := Fill(p);
    if p == "" {
      assert p + q == q;
      if q == "**" { GlobAnything(s); }
    } else {
      var pq := p + q;
      assert pq[0] == p[0] && s[0] == (if p[0] == '*' || p[0] == '?' then 'x' else p[0]);
      if p[0] == '*' && |pq| > 1 && pq[1] == '*' {
        assert |p| > 1;
        GlobFill(p[2..], q);
        assert pq[2..] == p[2..] + q && s[1..][1..] == Fill(p[2..]);
        assert Glob(pq, s[1..][1..]);
        assert Glob(pq, s[1..]);
      } else {
        GlobFill(p[1..], q);
        assert pq[1..] == p[1..] + q && s[1..] == Fill(p[1..]);
        if p[0] == '*' { assert Glob(pq, s[1..]); }
      }
    }
  }

  /** On a one-entry scope the permission map and `scope_covers` agree on every path exactly
      when the entry has no wildcard. */
  lemma AgreementExactly(entry: string)
    ensures (forall f :: Allowed(EditMap([entry], false), f) <==> Covers([entry], f)) <==> NoWildcard(entry)
  {
    var edit := EditMap([entry], false);
    if NoWildcard(entry) {
      forall f ensures Allowed(edit, f) <==> Covers([entry], f) {
        MapMatchesScope([entry], false, f);
      }
    } else {
      var f := Fill(entry);
      assert [entry][..0] == [] && EditMap([], false) == [Rule("**", false)];
      assert edit == Assign([Rule("**", false)], GlobOf(entry));
      if IsDirectory(entry) { GlobFill(entry, "**"); } else { GlobFill(entry, ""); assert entry + "" == entry; }
      var k := AssignPlace([Rule("**", false)], GlobOf(entry));
      assert edit[|edit| - 1] == Rule(GlobOf(entry), true);
      assert Allowed(edit, f);
      var i :| 0 <= i < |entry| && (entry[i] == '*' || entry[i] == '?');
      assert f[i] == 'x' && f != entry;
      assert |f| == |entry| && f[..|entry|] == f;
      assert !Covers([entry], f) && Allowed(EditMap([entry], false), f);
    }
  }

  // ------------------------------------------------------------ commit and QA

  const SCOPE_IGNORE: set<Path> := {"portal/package-lock.json", "package-lock.json"}

  /** `(^|/)tests?/` found anywhere in the path. */
  predicate TestPath(f: Path) {
    exists k :: 0 <= k <= |f| && (k == 0 || f[k - 1] == '/')
      && (StartsWith(f[k..], "test/") || StartsWith(f[k..], "tests/"))
  }

  predicate InScope(scope: seq<string>, f: Path) {
    f in SCOPE_IGNORE || Covers(scope, f) || TestPath(f)
  }

  /** A line of `git status`: untracked or not, and the path. */
  datatype Entry = Entry(untracked: bool, path: Path)

  function Changed(scope: seq<string>, entries: seq<Entry>): seq<Path> {
    if entries == [] then []
    else (if InScope(scope, entries[0].path) then [entries[0].path] else []) + Changed(scope, entries[1..])
  }

  function Stray(scope: seq<string>, entries: seq<Entry>): seq<Path> {
    if entries == [] then []
    else (if !InScope(scope, entries[0].path) && !entries[0].untracked then [entries[0].path] else [])
         + Stray(scope, entries[1..])
  }

  /** QA's own filter over the files the branch changed. */
  function QaStrays(scope: seq<string>, changed: seq<Path>): seq<Path> {
    if changed == [] then []
    else
      var c := changed[0];
      (if c !in SCOPE_IGNORE && !Covers(scope, c) && !TestPath(c) then [c] else []) + QaStrays(scope, changed[1..])
  }

  /** What the attempts at a ticket put on its branch: an attempt with a stray edit or without
      an in-scope one commits nothing. */
  function Branch(scope: seq<string>, attempts: seq<seq<Entry>>): seq<Path> {
    if attempts == [] then []
    else (if Stray(scope, attempts[0]) == [] then Changed(scope, attempts[0]) else []) + Branch(scope, attempts[1..])
  }

  lemma {:induction false} ChangedInScope(scope: seq<string>, entries: seq<Entry>, f: Path)
    requires f in Changed(scope, entries)
    ensures InScope(scope, f)
  {
    if f in Changed(scope, entries[1..]) { ChangedInScope(scope, entries[1..], f); }
  }

  lemma {:induction false} BranchInScope(scope: seq<string>, attempts: seq<seq<Entry>>, f: Path)
    requires f in Branch(scope, attempts)
    ensures InScope(scope, f)
  {
    if f in Branch(scope, attempts[1..]) { BranchInScope(scope, attempts[1..], f); }
    else { ChangedInScope(scope, attempts[0], f); }
  }

  lemma {:induction false} NoStraysExactly(scope: seq<string>, changed: seq<Path>)
    ensures QaStrays(scope, changed) == [] <==> forall f :: f in changed ==> InScope(scope, f)
  {
    if changed != [] {
      NoStraysExactly(scope, changed[1..]);
      assert forall f :: f in changed <==> f == changed[0] || f in changed[1..];
      assert [] + QaStrays(scope, changed[1..]) == QaStrays(scope, changed[1..]);
      assert QaStrays(scope, changed) == [] <==> InScope(scope, changed[0]) && QaStrays(scope, changed[1..]) == [];
    }
  }

  /** A branch built by any number of attempts at a ticket has no stray in QA, as long as its
      scope stays what it was. */
  lemma BranchPassesScopeCheck(scope: seq<string>, attempts: seq<seq<Entry>>)
    ensures QaStrays(scope, Branch(scope, attempts)) == []
  {
    forall f | f in Branch(scope, attempts) ensures InScope(scope, f) { BranchInScope(scope, attempts, f); }
    NoStraysExactly(scope, Branch(scope, attempts));
  }

  /** Every edit the session is allowed to make is in scope for the commit and for QA. */
  lemma AllowedIsInScope(scope: seq<string>, allowTests: bool, f: Path)
    requires forall i :: 0 <= i < |scope| ==> NoWildcard(scope[i])
    requires Allowed(EditMap(scope, allowTests), f)
    ensures InScope(scope, f) && QaStrays(scope, [f]) == []
  {
    MapMatchesScope(scope, allowTests, f);
    if !Covers(scope, f) {
      if StartsWith(f, "tests/") {
        assert f[0..] == f;
      } else {
        var k :| 0 <= k <= |f| && StartsWith(f[k..], "/tests/");
        assert f[k] == f[k..][..7][0];
        assert f[k + 1..][..6] == f[k..][..7][1..];
        assert StartsWith(f[k + 1..], "tests/");
      }
    }
    NoStraysExactly(scope, [f]);
  }
}
