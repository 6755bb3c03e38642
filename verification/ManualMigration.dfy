/** The two-section manual migration file: active forward SQL, and rollback SQL inside one block comment. */
module ManualMigration {
  import opened Common
  import opened Text
  import opened SqlScan
  import opened SqlStatements
  import opened SqlClassify
  import opened SqlConcat

  const HEADER := "-- SKS MANUAL MIGRATION v1"
  const FORWARD_MARKER := "-- === FORWARD SQL ==="
  const ROLLBACK_MARKER := "-- === ROLLBACK SQL " + "(MANUAL ONLY; " + "RUN SEPARATELY) ==="

  datatype Blocker = HeaderMissing | ForwardMarkerMissing | RollbackMarkerMissing | MarkerOrder
                   | ForwardSql | RollbackSqlInactiveBlock | ForbiddenContent | ForwardNotMigration | RollbackNotMigration
                   | ForwardCatastrophic(reason: string) | RollbackCatastrophic(reason: string) | RollbackDropsForeignTable

  /** The keyword and name patterns the parser applies to one SQL text. */
  datatype Patterns = Patterns(lex: Lexicon, forbidden: string -> bool,
                               createdTables: string -> set<string>, droppedTables: string -> set<string>)

  datatype Manual = Manual(blockers: seq<Blocker>, forwardSql: string, rollbackSql: string)

  const FORWARD_CATASTROPHES :=
    ["drop_database", "drop_schema", "drop_table", "truncate", "delete_without_where", "update_without_where"]

  const ROLLBACK_CATASTROPHES :=
    ["drop_database", "drop_schema", "truncate", "delete_without_where", "update_without_where"]

  /** No slash and no line end. */
  predicate PlainText(s: string) { forall i | 0 <= i < |s| :: s[i] != '/' && !LineEnd(s[i]) }

  /** The marker lines are line comments without a slash. */
  lemma MarkerLines()
    ensures PlainText(HEADER) && PlainText(FORWARD_MARKER) && PlainText(ROLLBACK_MARKER)
    ensures OpensLine(HEADER) && OpensLine(FORWARD_MARKER) && OpensLine(ROLLBACK_MARKER)
    ensures |HEADER| == 26 && |FORWARD_MARKER| == 22 && |ROLLBACK_MARKER| == 53
    ensures FORWARD_MARKER[3] == '=' && forall i | 0 <= i < |HEADER| :: HEADER[i] != '='
  {
    var a, b, c := "-- === ROLLBACK SQL ", "(MANUAL ONLY; ", "RUN SEPARATELY) ===";
    assert PlainText(a) && PlainText(b) && PlainText(c);
    assert ROLLBACK_MARKER == a + b + c && a[0] == '-' && a[1] == '-';
  }

  // ---- finding markers ----

  predicate OccursAt(s: string, i: nat, needle: string) { i + |needle| <= |s| && s[i..i + |needle|] == needle }

  ghost predicate Lacks(s: string, needle: string) { forall i: nat :: !OccursAt(s, i, needle) }

  lemma OccursInTail(s: string, needle: string)
    requires s != []
    ensures forall i: nat | 0 < i :: OccursAt(s, i, needle) <==> OccursAt(s[1..], i - 1, needle)
    ensures forall i: nat :: OccursAt(s[1..], i, needle) <==> OccursAt(s, i + 1, needle)
  {
    forall i: nat ensures OccursAt(s[1..], i, needle) <==> OccursAt(s, i + 1, needle) {
      if i + 1 + |needle| <= |s| {
        assert s[1..][i..i + |needle|] == s[i + 1..i + 1 + |needle|];
      }
    }
    forall i: nat | 0 < i ensures OccursAt(s, i, needle) <==> OccursAt(s[1..], i - 1, needle) {
      assert OccursAt(s[1..], i - 1, needle) <==> OccursAt(s, i - 1 + 1, needle);
    }
  }

  function IndexOf(s: string, needle: string): (r: Option<nat>)
    ensures r.Some? ==> OccursAt(s, r.value, needle) && forall i: nat | i < r.value :: !OccursAt(s, i, needle)
    ensures r.None? <==> Lacks(s, needle)
  {
    if |s| < |needle| then None
    else if s[..|needle|] == needle then
      assert s[0..0 + |needle|] == needle;
      Some(0)
    else
      OccursInTail(s, needle);
      match IndexOf(s[1..], needle)
      case None => None
      case Some(k) => Some(k + 1)
  }

  function Slice(s: string, from: nat, to: nat): string { if from <= to <= |s| then s[from..to] else [] }

  /** What stands between the comment marks of a section that is one block comment and white space. */
  function CommentBody(section: string): Option<string> {
    var t := Trim(section);
    if |t| >= 4 && StartsWith(t, "/*") && EndsWith(t, "*/") then Some(t[2..|t| - 2]) else None
  }

  function Catastrophes(named: seq<string>, found: seq<string>, forward: bool): seq<Blocker> {
    if named == [] then []
    else
      When(named[0] in found, if forward then ForwardCatastrophic(named[0]) else RollbackCatastrophic(named[0]))
      + Catastrophes(named[1..], found, forward)
  }

  predicate IsMigration(v: Verdict) { v.level == Write || v.level == Destructive }

  predicate DropsOnlyCreated(p: Patterns, forward: string, rollback: string) {
    p.droppedTables(rollback) != {} && p.droppedTables(rollback) <= p.createdTables(forward)
  }

  /** The findings about the two SQL texts themselves. */
  function GateBlockers(p: Patterns, forward: string, rollback: string): seq<Blocker> {
    var f := if forward == [] then Verdict(NoStatements, NoKind, []) else Classified(p.lex, forward);
    var r := if rollback == [] then Verdict(NoStatements, NoKind, []) else Classified(p.lex, rollback);
    var content := When(p.forbidden(forward + "\n" + rollback), ForbiddenContent);
    var f1 := Push(content, !IsMigration(f), ForwardNotMigration);
    var r1 := Push(f1, !IsMigration(r), RollbackNotMigration);
    var f2 := r1 + Catastrophes(FORWARD_CATASTROPHES, f.reasons, true);
    var r2 := f2 + Catastrophes(ROLLBACK_CATASTROPHES, r.reasons, false);
    Push(r2, "drop_table" in r.reasons && !DropsOnlyCreated(p, forward, rollback), RollbackDropsForeignTable)
  }

  function MarkerBlockers(content: string): seq<Blocker> {
    var h, f, r := IndexOf(content, HEADER), IndexOf(content, FORWARD_MARKER), IndexOf(content, ROLLBACK_MARKER);
    When(h != Some(0), HeaderMissing) + When(f.None?, ForwardMarkerMissing) + When(r.None?, RollbackMarkerMissing)
    + When(f.Some? && r.Some? && f.value >= r.value, MarkerOrder)
  }

  function Parsed(p: Patterns, content: string): Manual {
    var marks := MarkerBlockers(content);
    var f, r := IndexOf(content, FORWARD_MARKER), IndexOf(content, ROLLBACK_MARKER);
    if marks != [] || f.None? || r.None? then Manual(marks, [], [])
    else
      var forward := Trim(Slice(content, f.value + |FORWARD_MARKER|, r.value));
      var body := CommentBody(content[r.value + |ROLLBACK_MARKER|..]);
      var rollback := if body.Some? then Trim(body.value) else [];
      Manual(When(!EndsWithSemicolon(forward), ForwardSql)
             + When(!EndsWithSemicolon(rollback), RollbackSqlInactiveBlock)
             + GateBlockers(p, forward, rollback), forward, rollback)
  }

  /** The loop over the reasons that must not occur. */
  method CollectCatastrophes(named: seq<string>, found: seq<string>, forward: bool) returns (blockers: seq<Blocker>)
    ensures blockers == Catastrophes(named, found, forward)
  {
    hide Catastrophes;
    blockers := [];
    CatastrophesStep(named, 0, found, forward);
    for i := 0 to |named|
      invariant blockers + Catastrophes(named[i..], found, forward) == Catastrophes(named, found, forward)
    {
      CatastrophesStep(named, i, found, forward);
      ghost var later := Catastrophes(named[i + 1..], found, forward);
      var c := if forward then ForwardCatastrophic(named[i]) else RollbackCatastrophic(named[i]);
      Regroup(blockers, [c], later);
      if named[i] in found {
        blockers := blockers + [c];
      } else {
        assert [] + later == later;
      }
    }
    CatastrophesStep(named, |named|, found, forward);
    assert blockers + [] == blockers;
  }

  lemma CatastrophesStep(named: seq<string>, i: nat, found: seq<string>, forward: bool)
    requires i <= |named|
    ensures i == 0 ==> [] + Catastrophes(named[i..], found, forward) == Catastrophes(named, found, forward)
    ensures Catastrophes(named[i..], found, forward) ==
      if i == |named| then []
      else When(named[i] in found, if forward then ForwardCatastrophic(named[i]) else RollbackCatastrophic(named[i]))
           + Catastrophes(named[i + 1..], found, forward)
  {
    if i < |named| {
      assert named[i..][1..] == named[i + 1..];
    }
    if i == 0 {
      assert named[0..] == named;
    }
  }

  /** The checks on the two SQL texts, one by one. */
  method CheckGates(p: Patterns, forward: string, rollback: string) returns (blockers: seq<Blocker>)
    ensures blockers == GateBlockers(p, forward, rollback)
  {
    hide Classified, DropsOnlyCreated, EndsWithSemicolon, IsMigration, Catastrophes;
    blockers := [];
    var f, r := Verdict(NoStatements, NoKind, []), Verdict(NoStatements, NoKind, []);
    if p.forbidden(forward + "\n" + rollback) { blockers := [ForbiddenContent]; }
    var ss: seq<string>;
    if forward != [] { f, ss := ClassifySql(p.lex, forward); }
    if rollback != [] { r, ss := ClassifySql(p.lex, rollback); }
    if !IsMigration(f) { blockers := blockers + [ForwardNotMigration]; }
    if !IsMigration(r) { blockers := blockers + [RollbackNotMigration]; }
    var catastrophic := CollectCatastrophes(FORWARD_CATASTROPHES, f.reasons, true);
    blockers := blockers + catastrophic;
    catastrophic := CollectCatastrophes(ROLLBACK_CATASTROPHES, r.reasons, false);
    blockers := blockers + catastrophic;
    if "drop_table" in r.reasons && !DropsOnlyCreated(p, forward, rollback) {
      blockers := blockers + [RollbackDropsForeignTable];
    }
  }

  /** The parser, collecting its blockers one by one. */
  method ParseManualMigrationSql(p: Patterns, content: string) returns (m: Manual)
    ensures m == Parsed(p, content)
  {
    hide IndexOf, CommentBody, Trim, GateBlockers, Slice, EndsWithSemicolon;
    var blockers: seq<Blocker> := [];
    var h, f, r := IndexOf(content, HEADER), IndexOf(content, FORWARD_MARKER), IndexOf(content, ROLLBACK_MARKER);
    if h != Some(0) { blockers := blockers + [HeaderMissing]; }
    if f.None? { blockers := blockers + [ForwardMarkerMissing]; }
    if r.None? { blockers := blockers + [RollbackMarkerMissing]; }
    if f.Some? && r.Some? && f.value >= r.value { blockers := blockers + [MarkerOrder]; }
    assert blockers == MarkerBlockers(content);
    if |blockers| > 0 {
      return Manual(blockers, [], []);
    }
    hide MarkerBlockers;
    var forward := Trim(Slice(content, f.value + |FORWARD_MARKER|, r.value));
    var body := CommentBody(content[r.value + |ROLLBACK_MARKER|..]);
    var rollback := if body.Some? then Trim(body.value) else [];
    if !EndsWithSemicolon(forward) { blockers := blockers + [ForwardSql]; }
    if !EndsWithSemicolon(rollback) { blockers := blockers + [RollbackSqlInactiveBlock]; }
    var gates := CheckGates(p, forward, rollback);
    m := Manual(blockers + gates, forward, rollback);
  }

  // ---- rendering ----

  /** A file laid out with the given header and marker lines. */
  function Layout(header: string, m: string, n: string, forward: string, rollback: string): string {
    header + "\n" + m + "\n" + forward + "\n" + n + "\n/*\n" + rollback + "\n*/\n"
  }

  /** The layout the parser expects. */
  function Render(forward: string, rollback: string): string {
    Layout(HEADER, FORWARD_MARKER, ROLLBACK_MARKER, forward, rollback)
  }

  predicate Renderable(forward: string, rollback: string) {
    && Trimmed(forward) && EndsWithSemicolon(forward) && IndexOf(forward, ROLLBACK_MARKER).None?
    && Trimmed(rollback) && EndsWithSemicolon(rollback)
  }

  lemma OccurrenceAt(s: string, i: nat, needle: string, p: nat)
    requires OccursAt(s, i, needle) && i <= p < i + |needle|
    ensures needle[p - i] == s[p]
  {
    assert s[i..i + |needle|][p - i] == s[p];
  }

  /** An occurrence of a one-line needle does not cross a line end. */
  lemma OccursInLines(a: string, b: string, needle: string, i: nat)
    requires OccursAt(a + "\n" + b, i, needle) && '\n' !in needle && needle != []
    ensures if i < |a| then OccursAt(a, i, needle) else i > |a| && OccursAt(b, i - |a| - 1, needle)
  {
    var s := a + "\n" + b;
    if i <= |a| && i + |needle| > |a| {
      OccurrenceAt(s, i, needle, |a|);
      assert false;
    }
    if i < |a| {
      assert a[i..i + |needle|] == s[i..i + |needle|];
    } else {
      assert b[i - |a| - 1..i - |a| - 1 + |needle|] == s[i..i + |needle|];
    }
  }

  lemma OccursInConcat(a: string, needle: string, b: string)
    ensures OccursAt(a + needle + b, |a|, needle)
  {
  }

  /** A marker is found where it was written when it does not occur in the lines before. */
  lemma IndexOfMarker(before: string, marker: string, after: string)
    requires '\n' !in marker && marker != [] && Lacks(before, marker)
    ensures IndexOf(before + "\n" + marker + after, marker) == Some(|before| + 1)
  {
    hide OccursAt;
    var s := before + "\n" + marker + after;
    OccursInConcat(before + "\n", marker, after);
    assert s == before + "\n" + (marker + after);
    var r := IndexOf(s, marker);
    assert OccursAt(s, |before| + 1, marker);
    if r.value < |before| + 1 {
      OccursInLines(before, marker + after, marker, r.value);
      assert false;
    }
  }

  lemma NoOccurrence(s: string, needle: string, k: nat)
    requires k < |needle| && forall i | 0 <= i < |s| :: s[i] != needle[k]
    ensures Lacks(s, needle)
  {
    forall i: nat ensures !OccursAt(s, i, needle) {
      if OccursAt(s, i, needle) {
        OccurrenceAt(s, i, needle, i + k);
        assert false;
      }
    }
  }

  /** A one-line marker is in none of the lines before it when no line before contains it. */
  lemma NoMarkerBefore(header: string, m: string, n: string, forward: string)
    requires '\n' !in n && n != [] && Lacks(header, n) && Lacks(m, n) && Lacks(forward, n)
    ensures Lacks(header + "\n" + m + "\n" + forward, n)
  {
    var rest := m + "\n" + forward;
    forall i: nat ensures !OccursAt(header + "\n" + m + "\n" + forward, i, n) {
      assert header + "\n" + m + "\n" + forward == header + "\n" + rest;
      if OccursAt(header + "\n" + rest, i, n) {
        OccursInLines(header, rest, n, i);
        OccursInLines(m, forward, n, i - |header| - 1);
        assert false;
      }
    }
  }

  /** The layout seen from each of its marker lines. */
  lemma LayoutShape(header: string, m: string, n: string, forward: string, rollback: string)
    returns (afterFirst: string, before: string, tail: string)
    ensures var c := Layout(header, m, n, forward, rollback);
            && c == header + "\n" + m + afterFirst && c == before + "\n" + n + tail
    ensures before == header + "\n" + m + "\n" + forward && tail == "\n/*\n" + rollback + "\n*/\n"
  {
    tail := "\n/*\n" + rollback + "\n*/\n";
    before := header + "\n" + m + "\n" + forward;
    afterFirst := "\n" + forward + "\n" + n + tail;
    var start := header + "\n" + m;
    assert start + ("\n" + forward + "\n" + n + tail) == start + "\n" + forward + "\n" + n + tail;
    assert before + "\n" + n + tail == before + "\n" + n + "\n/*\n" + rollback + "\n*/\n";
  }

  lemma LayoutFirst(header: string, m: string, n: string, forward: string, rollback: string)
    requires '\n' !in m && m != [] && Lacks(header, m)
    ensures IndexOf(Layout(header, m, n, forward, rollback), m) == Some(|header| + 1)
  {
    hide OccursAt, IndexOf, Layout, Lacks;
    var after, before, tail := LayoutShape(header, m, n, forward, rollback);
    IndexOfMarker(header, m, after);
  }

  lemma LayoutSecond(header: string, m: string, n: string, forward: string, rollback: string)
    requires '\n' !in n && n != [] && Lacks(header, n) && Lacks(m, n) && Lacks(forward, n)
    ensures IndexOf(Layout(header, m, n, forward, rollback), n) == Some(|header| + |m| + |forward| + 3)
  {
    hide OccursAt, IndexOf, Layout, Lacks;
    var after, before, tail := LayoutShape(header, m, n, forward, rollback);
    NoMarkerBefore(header, m, n, forward);
    IndexOfMarker(before, n, tail);
  }

  lemma LayoutStart(header: string, m: string, n: string, forward: string, rollback: string, title: string)
    requires title <= header
    ensures IndexOf(Layout(header, m, n, forward, rollback), title) == Some(0)
  {
    hide IndexOf, Layout;
    var after, before, tail := LayoutShape(header, m, n, forward, rollback);
    var rest := header[|title|..] + "\n" + m + after;
    FoundAtStart(title, rest);
    assert title + rest == header + "\n" + m + after;
  }

  lemma FoundAtStart(needle: string, rest: string)
    ensures IndexOf(needle + rest, needle) == Some(0)
  {
    assert (needle + rest)[..|needle|] == needle;
  }

  lemma LayoutSections(header: string, m: string, n: string, forward: string, rollback: string)
    ensures var c := Layout(header, m, n, forward, rollback);
            var from, to := |header| + 1 + |m|, |header| + |m| + |forward| + 3;
            && to + |n| <= |c|
            && Slice(c, from, to) == "\n" + forward + "\n"
            && c[to + |n|..] == "\n/*\n" + rollback + "\n*/\n"
  {
    hide Layout;
    var c := Layout(header, m, n, forward, rollback);
    var after, before, tail := LayoutShape(header, m, n, forward, rollback);
    var head := header + "\n" + m;
    var mid := "\n" + forward + "\n";
    assert before + "\n" == head + mid;
    assert c == head + mid + n + tail;
    assert (head + mid + n + tail)[|head|..|head| + |mid|] == mid;
  }

  lemma CommentBodyOfSection(rollback: string)
    requires Trimmed(rollback) && rollback != []
    ensures var body := CommentBody("\n/*\n" + rollback + "\n*/\n");
            body.Some? && Trim(body.value) == rollback
  {
    hide Trim;
    var body := "\n" + rollback + "\n";
    var comment := "/*" + body + "*/";
    assert Blank("\n");
    assert "\n/*\n" + rollback + "\n*/\n" == "\n" + comment + "\n";
    assert comment[0] == '/' && comment[|comment| - 1] == '/' && comment[2..|comment| - 2] == body;
    TrimInside("\n", comment, "\n");
    assert comment[..2] == "/*" && comment[|comment| - 2..] == "*/";
    TrimInside("\n", rollback, "\n");
  }

  /** Text for the first lines of a file: the header line and whatever follows it, without a marker. */
  ghost predicate Titled(h: string) { HEADER <= h && Lacks(h, FORWARD_MARKER) && Lacks(h, ROLLBACK_MARKER) }

  lemma HeaderIsTitled()
    ensures Titled(HEADER) && Lacks(FORWARD_MARKER, ROLLBACK_MARKER)
    ensures '\n' !in FORWARD_MARKER && '\n' !in ROLLBACK_MARKER
  {
    MarkerLines();
    NoOccurrence(HEADER, FORWARD_MARKER, 3);
  }

  lemma FileParts(h: string, forward: string, rollback: string)
    requires Titled(h) && Renderable(forward, rollback)
    ensures var c := Layout(h, FORWARD_MARKER, ROLLBACK_MARKER, forward, rollback);
            var f, r := IndexOf(c, FORWARD_MARKER), IndexOf(c, ROLLBACK_MARKER);
            && IndexOf(c, HEADER) == Some(0) && f.Some? && r.Some? && f.value < r.value
            && r.value + |ROLLBACK_MARKER| <= |c|
            && Slice(c, f.value + |FORWARD_MARKER|, r.value) == "\n" + forward + "\n"
            && var body := CommentBody(c[r.value + |ROLLBACK_MARKER|..]);
               body.Some? && Trim(body.value) == rollback
  {
    hide IndexOf, Layout, CommentBody, Trim, OccursAt, Slice, Lacks, PlainText;
    HeaderIsTitled();
    MarkerLines();
    LayoutStart(h, FORWARD_MARKER, ROLLBACK_MARKER, forward, rollback, HEADER);
    LayoutFirst(h, FORWARD_MARKER, ROLLBACK_MARKER, forward, rollback);
    LayoutSecond(h, FORWARD_MARKER, ROLLBACK_MARKER, forward, rollback);
    LayoutSections(h, FORWARD_MARKER, ROLLBACK_MARKER, forward, rollback);
    CommentBodyOfSection(rollback);
  }

  /** Parsing a laid-out file gives both texts back and no complaint about the file's shape, whatever stands between
      the header line and the forward marker. */
  lemma ParseOfFile(p: Patterns, h: string, forward: string, rollback: string)
    requires Titled(h) && Renderable(forward, rollback)
    ensures Parsed(p, Layout(h, FORWARD_MARKER, ROLLBACK_MARKER, forward, rollback))
         == Manual(GateBlockers(p, forward, rollback), forward, rollback)
  {
    hide IndexOf, GateBlockers, Layout, CommentBody, Trim, OccursAt, Slice, PlainText, Lacks;
    var c := Layout(h, FORWARD_MARKER, ROLLBACK_MARKER, forward, rollback);
    FileParts(h, forward, rollback);
    assert Blank("\n");
    TrimInside("\n", forward, "\n");
    assert MarkerBlockers(c) == [];
    assert [] + [] + GateBlockers(p, forward, rollback) == GateBlockers(p, forward, rollback);
  }

  /** Parsing what was rendered gives both texts back. */
  lemma ParseOfRender(p: Patterns, forward: string, rollback: string)
    requires Renderable(forward, rollback)
    ensures Parsed(p, Render(forward, rollback)) == Manual(GateBlockers(p, forward, rollback), forward, rollback)
  {
    hide Layout, Titled, Renderable, Parsed, GateBlockers;
    HeaderIsTitled();
    ParseOfFile(p, HEADER, forward, rollback);
  }
}
