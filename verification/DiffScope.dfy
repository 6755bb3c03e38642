/** Recovering added lines from a zero-context unified diff. */
module DiffScope {
  import opened Common
  import opened Text
  import opened LineRanges

  // ---- the parser ----

  /** An added line: its file, its number in the new file, its text. */
  datatype Site = Site(file: string, line: nat, text: string)

  /** The loop's variables, with the added lines in the order found. */
  datatype Scan = Scan(file: string, line: nat, sites: seq<Site>)

  const NEW_FILE := "+++ b/"

  function LeadingDigits(s: string): (k: nat)
    ensures k <= |s| && forall i | 0 <= i < k :: IsDigit(s[i])
    ensures k < |s| ==> !IsDigit(s[k])
  {
    if s == [] || !IsDigit(s[0]) then 0 else 1 + LeadingDigits(s[1..])
  }

  /** The length of `\d+(?:,\d+)?` at the start, if it matches. */
  function RangeLength(s: string): (r: Option<nat>)
    ensures r.Some? ==> r.value <= |s|
  {
    var k := LeadingDigits(s);
    if k == 0 then None
    else if k < |s| && s[k] == ',' && LeadingDigits(s[k + 1..]) > 0 then Some(k + 1 + LeadingDigits(s[k + 1..]))
    else Some(k)
  }

  /** `/^@@ -\d+(?:,\d+)? \+(\d+)(?:,\d+)? @@/`: the new start line. */
  function HunkStart(line: string): Option<nat> {
    if !StartsWith(line, "@@ -") then None
    else
      var before := line[4..];
      match RangeLength(before)
      case None => None
      case Some(k) =>
        if !StartsWith(before[k..], " +") then None
        else
          var after := before[k..][2..];
          match RangeLength(after)
          case None => None
          case Some(n) =>
            if !StartsWith(after[n..], " @@") then None else Some(FirstNumber(after))
  }

  function FirstNumber(s: string): nat {
    assert forall c | c in s[..LeadingDigits(s)] :: IsDigit(c);
    Numeral(s[..LeadingDigits(s)])
  }

  function NormalizeSlashes(s: string): string {
    if s == [] then [] else [if s[0] == '\\' then '/' else s[0]] + NormalizeSlashes(s[1..])
  }

  predicate IsAdded(line: string) { StartsWith(line, "+") && !StartsWith(line, "+++") }

  /** One turn of the loop. */
  function Step(line: string, s: Scan): Scan {
    if StartsWith(line, NEW_FILE) then s.(file := NormalizeSlashes(line[6..]))
    else
      match HunkStart(line)
      case Some(n) => s.(line := n)
      case None =>
        if IsAdded(line) then
          Scan(s.file, s.line + 1, if s.file != [] then s.sites + [Site(s.file, s.line, line[1..])] else s.sites)
        else if !StartsWith(line, "-") then s.(line := s.line + 1)
        else s
  }

  function ScanLines(lines: seq<string>, s: Scan): Scan
    decreases |lines|
  {
    if lines == [] then s else ScanLines(lines[1..], Step(lines[0], s))
  }

  const START := Scan([], 0, [])

  function AddedSites(lines: seq<string>): seq<Site> { ScanLines(lines, START).sites }

  type Rows = seq<(nat, string)>

  /** The rows of each file, as the Map collects them. */
  function Grouped(sites: seq<Site>): map<string, Rows> {
    if sites == [] then map[]
    else
      var m, last := Grouped(sites[..|sites| - 1]), sites[|sites| - 1];
      m[last.file := (if last.file in m then m[last.file] else []) + [(last.line, last.text)]]
  }

  lemma GroupedSnoc(sites: seq<Site>, last: Site)
    ensures var m := Grouped(sites);
            Grouped(sites + [last])
            == m[last.file := (if last.file in m then m[last.file] else []) + [(last.line, last.text)]]
  {
    assert (sites + [last])[..|sites|] == sites;
  }

  lemma ScanNext(lines: seq<string>, i: nat, s: Scan)
    requires i < |lines|
    ensures ScanLines(lines[i..], s) == ScanLines(lines[i + 1..], Step(lines[i], s))
  {
    assert lines[i..][1..] == lines[i + 1..];
  }

  /** The diff loop. */
  method CollectAddedRows(lines: seq<string>) returns (linesByFile: map<string, Rows>)
    ensures linesByFile == Grouped(AddedSites(lines))
  {
    var currentFile, currentLine := "", 0;
    linesByFile := map[];
    ghost var scan := START;
    var i := 0;
    assert lines[0..] == lines;
    while i < |lines|
      invariant i <= |lines| && linesByFile == Grouped(scan.sites)
      invariant scan.file == currentFile && scan.line == currentLine
      invariant ScanLines(lines[i..], scan) == ScanLines(lines, START)
    {
      hide HunkStart, NormalizeSlashes, StartsWith, Grouped, ScanLines;
      var line := lines[i];
      ScanNext(lines, i, scan);
      GroupedSnoc(scan.sites, Site(currentFile, currentLine, line[if line == [] then 0 else 1..]));
      scan := Step(line, scan);
      i := i + 1;
      if StartsWith(line, NEW_FILE) {
        NewFileIsLong(line);
        currentFile := NormalizeSlashes(line[6..]);
        continue;
      }
      var hunk := HunkStart(line);
      if hunk.Some? {
        currentLine := hunk.value;
        continue;
      }
      if IsAdded(line) {
        AddedIsLong(line);
        if currentFile != [] {
          var rows := if currentFile in linesByFile then linesByFile[currentFile] else [];
          rows := rows + [(currentLine, line[1..])];
          linesByFile := linesByFile[currentFile := rows];
        }
        currentLine := currentLine + 1;
        continue;
      }
      if !StartsWith(line, "-") {
        currentLine := currentLine + 1;
      }
    }
  }

  lemma NewFileIsLong(line: string)
    ensures StartsWith(line, NEW_FILE) ==> |line| >= 6
  {
  }

  lemma AddedIsLong(line: string)
    ensures IsAdded(line) ==> |line| >= 1
  {
  }

  // ---- the printer ----

  /** One hunk without context. The two flags say that the old or the new text ends without a line end,
      which the format marks by an extra line. */
  datatype Hunk = Hunk(oldStart: nat, oldCount: Option<nat>, newStart: nat, newCount: Option<nat>, section: string,
                       removed: seq<string>, oldUnterminated: bool, added: seq<string>, newUnterminated: bool)

  /** What the `+++` line names, if there is one. */
  datatype Target = NewFile(path: string) | DevNull | NoText

  datatype FileEdit = FileEdit(preamble: seq<string>, target: Target, hunks: seq<Hunk>)

  const NO_NEWLINE := "\\ No newline at end of file"

  function PrintRange(start: nat, count: Option<nat>): string {
    Decimal(start) + (match count case None => [] case Some(n) => "," + Decimal(n))
  }

  function PrintHunkLine(h: Hunk): string {
    "@@ -" + (PrintRange(h.oldStart, h.oldCount) + (" +" + (PrintRange(h.newStart, h.newCount) + (" @@" + h.section))))
  }

  function Prefixed(mark: string, texts: seq<string>): seq<string> {
    if texts == [] then [] else [mark + texts[0]] + Prefixed(mark, texts[1..])
  }

  function Marker(unterminated: bool): seq<string> { if unterminated then [NO_NEWLINE] else [] }

  function PrintHunk(h: Hunk): seq<string> {
    [PrintHunkLine(h)] + (Prefixed("-", h.removed) + (Marker(h.oldUnterminated)
      + (Prefixed("+", h.added) + Marker(h.newUnterminated))))
  }

  function PrintHunks(hs: seq<Hunk>): seq<string> {
    if hs == [] then [] else PrintHunk(hs[0]) + PrintHunks(hs[1..])
  }

  function TargetLine(t: Target): seq<string> {
    match t
    case NewFile(path) => [NEW_FILE + path]
    case DevNull => ["+++ /dev/null"]
    case NoText => []
  }

  function PrintEdit(e: FileEdit): seq<string> { e.preamble + (TargetLine(e.target) + PrintHunks(e.hunks)) }

  function Print(es: seq<FileEdit>): seq<string> {
    if es == [] then [] else PrintEdit(es[0]) + Print(es[1..])
  }

  /** A line the loop only counts or skips. */
  predicate Neutral(line: string) { !StartsWith(line, "+") && HunkStart(line).None? }

  /** Unquoted paths, neutral extended headers, and no added lines without a new file. */
  predicate WellFormed(e: FileEdit) {
    && (forall l | l in e.preamble :: Neutral(l))
    && (e.target.NewFile? ==> e.target.path != [] && '\\' !in e.target.path)
    && (!e.target.NewFile? ==> forall h | h in e.hunks :: h.added == [])
  }

  function SitesAt(file: string, line: nat, texts: seq<string>): seq<Site>
    decreases |texts|
  {
    if texts == [] then [] else [Site(file, line, texts[0])] + SitesAt(file, line + 1, texts[1..])
  }

  function HunkSites(file: string, hs: seq<Hunk>): seq<Site> {
    if hs == [] then [] else SitesAt(file, hs[0].newStart, hs[0].added) + HunkSites(file, hs[1..])
  }

  function EditSites(e: FileEdit): seq<Site> { if e.target.NewFile? then HunkSites(e.target.path, e.hunks) else [] }

  /** The added lines of the edits themselves. */
  function TrueSites(es: seq<FileEdit>): seq<Site> {
    if es == [] then [] else EditSites(es[0]) + TrueSites(es[1..])
  }

  // ---- what the parser does with printed text ----

  lemma {:induction false} ScanConcat(a: seq<string>, b: seq<string>, s: Scan)
    ensures ScanLines(a + b, s) == ScanLines(b, ScanLines(a, s))
    decreases |a|
  {
    hide Step;
    if a == [] {
      assert a + b == b;
    } else {
      assert (a + b)[0] == a[0] && (a + b)[1..] == a[1..] + b;
      ScanConcat(a[1..], b, Step(a[0], s));
    }
  }

  lemma {:induction false} DigitsThen(d: string, rest: string)
    requires (forall c | c in d :: IsDigit(c)) && (rest == [] || !IsDigit(rest[0]))
    ensures LeadingDigits(d + rest) == |d|
  {
    if d == [] {
      assert d + rest == rest;
    } else {
      assert (d + rest)[0] == d[0] && (d + rest)[1..] == d[1..] + rest;
      DigitsThen(d[1..], rest);
    }
  }

  lemma RangeThen(start: nat, count: Option<nat>, rest: string)
    requires rest != [] && rest[0] == ' '
    ensures RangeLength(PrintRange(start, count) + rest) == Some(|PrintRange(start, count)|)
    ensures FirstNumber(PrintRange(start, count) + rest) == start
  {
    hide Decimal, Numeral, LeadingDigits;
    match count {
      case None =>
        assert PrintRange(start, count) == Decimal(start);
        PlainRange(Decimal(start), rest);
      case Some(n) =>
        assert PrintRange(start, count) + rest == Decimal(start) + ("," + (Decimal(n) + rest));
        CountedRange(Decimal(start), Decimal(n), rest);
    }
    NumeralOfDecimal(start);
  }

  lemma PlainRange(d: string, rest: string)
    requires d != [] && (forall c | c in d :: IsDigit(c)) && rest != [] && rest[0] == ' '
    ensures RangeLength(d + rest) == Some(|d|) && FirstNumber(d + rest) == Numeral(d)
  {
    hide Numeral, LeadingDigits;
    DigitsThen(d, rest);
    assert (d + rest)[..|d|] == d;
  }

  lemma CountedRange(d: string, n: string, rest: string)
    requires d != [] && n != [] && (forall c | c in d :: IsDigit(c)) && (forall c | c in n :: IsDigit(c))
    requires rest != [] && rest[0] == ' '
    ensures var s := d + ("," + (n + rest));
            RangeLength(s) == Some(|d| + 1 + |n|) && FirstNumber(s) == Numeral(d)
  {
    hide Numeral, LeadingDigits;
    var tail := n + rest;
    var s := d + ("," + tail);
    DigitsThen(d, "," + tail);
    assert s[|d|] == ',' && s[|d| + 1..] == tail && s[..|d|] == d;
    DigitsThen(n, rest);
  }

  /** The new range after the old one. */
  lemma NewRangeReads(h: Hunk)
    ensures var after := PrintRange(h.newStart, h.newCount) + (" @@" + h.section);
            var n := RangeLength(after);
            n.Some? && StartsWith(after[n.value..], " @@") && FirstNumber(after) == h.newStart
  {
    var r, close := PrintRange(h.newStart, h.newCount), " @@" + h.section;
    RangeThen(h.newStart, h.newCount, close);
    assert (r + close)[|r|..] == close && close[..3] == " @@";
  }

  lemma OldRangeReads(h: Hunk)
    ensures var after := PrintRange(h.newStart, h.newCount) + (" @@" + h.section);
            var before := PrintRange(h.oldStart, h.oldCount) + (" +" + after);
            var k := RangeLength(before);
            k.Some? && StartsWith(before[k.value..], " +") && before[k.value..][2..] == after
  {
    var after := PrintRange(h.newStart, h.newCount) + (" @@" + h.section);
    var r, rest := PrintRange(h.oldStart, h.oldCount), " +" + after;
    hide PrintRange;
    RangeThen(h.oldStart, h.oldCount, rest);
    assert (r + rest)[|r|..] == rest && rest[..2] == " +" && rest[2..] == after;
  }

  /** A printed hunk line gives its new start back. */
  lemma HunkLineReads(h: Hunk)
    ensures HunkStart(PrintHunkLine(h)) == Some(h.newStart)
    ensures !StartsWith(PrintHunkLine(h), NEW_FILE)
  {
    hide PrintRange, RangeLength, FirstNumber;
    var after := PrintRange(h.newStart, h.newCount) + (" @@" + h.section);
    var before := PrintRange(h.oldStart, h.oldCount) + (" +" + after);
    NewRangeReads(h);
    OldRangeReads(h);
    var line := PrintHunkLine(h);
    assert line[4..] == before && line[..4] == "@@ -" && line[0] == '@';
  }

  /** The `+++` line's marks contain the shorter ones. */
  lemma PlusPrefixes(line: string)
    ensures StartsWith(line, NEW_FILE) ==> StartsWith(line, "+++")
    ensures StartsWith(line, "+++") ==> StartsWith(line, "+")
  {
    if StartsWith(line, NEW_FILE) {
      assert line[0] == NEW_FILE[0] && line[1] == NEW_FILE[1] && line[2] == NEW_FILE[2];
    }
  }

  lemma PlusThen(text: string)
    ensures StartsWith("+" + text, "+") && ("+" + text)[1..] == text
    ensures StartsWith("+" + text, "+++") <==> StartsWith(text, "++")
  {
    var line := "+" + text;
    assert line[..1] == "+";
    if |text| >= 2 {
      assert line[..3] == "+" + text[..2];
      assert line[..3] == "+++" <==> text[..2] == "++" by {
        assert "+++"[1..] == "++" && line[..3][1..] == text[..2];
      }
    }
  }

  lemma NotHunk(line: string)
    requires line == [] || line[0] != '@'
    ensures HunkStart(line).None?
  {
  }

  lemma RemovedStep(text: string, s: Scan)
    ensures Step("-" + text, s) == s
  {
    NotHunk("-" + text);
    hide HunkStart;
    assert ("-" + text)[0] == '-' && ("-" + text)[..1] == "-";
  }

  lemma {:induction false} ScanRemoved(texts: seq<string>, s: Scan)
    ensures ScanLines(Prefixed("-", texts), s) == s
  {
    hide Step;
    if texts != [] {
      RemovedStep(texts[0], s);
      ScanRemoved(texts[1..], s);
    }
  }

  lemma MarkerStep(unterminated: bool, s: Scan)
    ensures ScanLines(Marker(unterminated), s) == if unterminated then s.(line := s.line + 1) else s
  {
    assert NO_NEWLINE[0] == '\\';
    NotHunk(NO_NEWLINE);
    hide HunkStart;
    assert !StartsWith(NO_NEWLINE, "+") && !StartsWith(NO_NEWLINE, "-");
    assert Step(NO_NEWLINE, s) == s.(line := s.line + 1);
  }

  predicate PlainText(text: string) { !StartsWith(text, "++") }

  lemma AddedStep(text: string, s: Scan)
    requires PlainText(text) && s.file != []
    ensures Step("+" + text, s) == Scan(s.file, s.line + 1, s.sites + [Site(s.file, s.line, text)])
  {
    NotHunk("+" + text);
    PlusThen(text);
    PlusPrefixes("+" + text);
    hide HunkStart, StartsWith;
  }

  lemma {:induction false} ScanAdded(texts: seq<string>, s: Scan)
    requires (forall t | t in texts :: PlainText(t)) && s.file != []
    ensures ScanLines(Prefixed("+", texts), s)
         == Scan(s.file, s.line + |texts|, s.sites + SitesAt(s.file, s.line, texts))
    decreases |texts|
  {
    hide Step, PlainText;
    if texts == [] {
      assert s.sites + [] == s.sites;
    } else {
      assert texts[0] in texts;
      AddedStep(texts[0], s);
      ScanAdded(texts[1..], Step("+" + texts[0], s));
      assert s.sites + [Site(s.file, s.line, texts[0])] + SitesAt(s.file, s.line + 1, texts[1..])
          == s.sites + SitesAt(s.file, s.line, texts);
    }
  }

  /** Where the parser believes a hunk's added lines begin. */
  function SeenStart(h: Hunk): nat { h.newStart + (if h.oldUnterminated then 1 else 0) }

  lemma ScanHunk(h: Hunk, s: Scan)
    requires (forall t | t in h.added :: PlainText(t)) && (h.added == [] || s.file != [])
    ensures var r := ScanLines(PrintHunk(h), s);
            r.file == s.file && r.sites == s.sites + SitesAt(s.file, SeenStart(h), h.added)
  {
    hide Step, PlainText, HunkStart;
    var s1 := s.(line := h.newStart);
    HunkLineReads(h);
    assert Step(PrintHunkLine(h), s) == s1 by { HunkStep(h, s); }
    var end := Marker(h.newUnterminated);
    var adds := Prefixed("+", h.added) + end;
    var marked := Marker(h.oldUnterminated) + adds;
    var body := Prefixed("-", h.removed) + marked;
    assert PrintHunk(h) == [PrintHunkLine(h)] + body && PrintHunk(h)[1..] == body;
    ScanConcat(Prefixed("-", h.removed), marked, s1);
    ScanRemoved(h.removed, s1);
    ScanConcat(Marker(h.oldUnterminated), adds, s1);
    MarkerStep(h.oldUnterminated, s1);
    var s2 := s1.(line := SeenStart(h));
    ScanConcat(Prefixed("+", h.added), end, s2);
    if h.added != [] {
      ScanAdded(h.added, s2);
    } else {
      assert s.sites + [] == s.sites;
    }
    MarkerStep(h.newUnterminated, ScanLines(Prefixed("+", h.added), s2));
  }

  lemma HunkStep(h: Hunk, s: Scan)
    ensures Step(PrintHunkLine(h), s) == s.(line := h.newStart)
  {
    HunkLineReads(h);
    hide HunkStart, PrintHunkLine;
  }

  function SeenSites(file: string, hs: seq<Hunk>): seq<Site> {
    if hs == [] then [] else SitesAt(file, SeenStart(hs[0]), hs[0].added) + SeenSites(file, hs[1..])
  }

  predicate PlainHunks(hs: seq<Hunk>) { forall h, t | h in hs && t in h.added :: PlainText(t) }

  lemma {:induction false} ScanHunks(hs: seq<Hunk>, s: Scan)
    requires PlainHunks(hs) && ((forall h | h in hs :: h.added == []) || s.file != [])
    ensures var r := ScanLines(PrintHunks(hs), s);
            r.file == s.file && r.sites == s.sites + SeenSites(s.file, hs)
    decreases |hs|
  {
    hide Step, PrintHunk, PlainText, SitesAt;
    if hs == [] {
      assert s.sites + [] == s.sites;
    } else {
      assert hs[0] in hs && forall h | h in hs[1..] :: h in hs;
      ScanConcat(PrintHunk(hs[0]), PrintHunks(hs[1..]), s);
      ScanHunk(hs[0], s);
      ScanHunks(hs[1..], ScanLines(PrintHunk(hs[0]), s));
      assert s.sites + SitesAt(s.file, SeenStart(hs[0]), hs[0].added) + SeenSites(s.file, hs[1..])
          == s.sites + SeenSites(s.file, hs);
    }
  }

  lemma NeutralStep(line: string, s: Scan)
    requires Neutral(line)
    ensures var r := Step(line, s); r.file == s.file && r.sites == s.sites
  {
    hide HunkStart, StartsWith;
    PlusPrefixes(line);
  }

  lemma {:induction false} ScanNeutral(lines: seq<string>, s: Scan)
    requires forall l | l in lines :: Neutral(l)
    ensures var r := ScanLines(lines, s); r.file == s.file && r.sites == s.sites
    decreases |lines|
  {
    hide Step, Neutral;
    if lines != [] {
      assert lines[0] in lines;
      NeutralStep(lines[0], s);
      ScanNeutral(lines[1..], Step(lines[0], s));
    }
  }

  lemma {:induction false} SlashesKept(path: string)
    requires '\\' !in path
    ensures NormalizeSlashes(path) == path
  {
    if path != [] {
      SlashesKept(path[1..]);
    }
  }

  lemma TargetStep(t: Target, s: Scan)
    requires t.NewFile? ==> '\\' !in t.path
    ensures var r := ScanLines(TargetLine(t), s);
            r.sites == s.sites && r.file == if t.NewFile? then t.path else s.file
  {
    match t {
      case NewFile(path) =>
        SlashesKept(path);
        assert (NEW_FILE + path)[6..] == path && (NEW_FILE + path)[..6] == NEW_FILE;
        hide HunkStart;
        assert Step(NEW_FILE + path, s) == s.(file := path);
      case DevNull =>
        var line := "+++ /dev/null";
        NotHunk(line);
        hide HunkStart;
        assert line[4] == '/' && NEW_FILE[4] == 'b' && StartsWith(line, "+++");
        assert Step(line, s) == s.(line := s.line + 1);
      case NoText =>
    }
  }

  function SeenInEdit(e: FileEdit): seq<Site> { if e.target.NewFile? then SeenSites(e.target.path, e.hunks) else [] }

  function Seen(es: seq<FileEdit>): seq<Site> { if es == [] then [] else SeenInEdit(es[0]) + Seen(es[1..]) }

  lemma {:induction false} NothingSeen(file: string, hs: seq<Hunk>)
    requires forall h | h in hs :: h.added == []
    ensures SeenSites(file, hs) == []
  {
    if hs != [] {
      assert hs[0] in hs;
      NothingSeen(file, hs[1..]);
    }
  }

  lemma ScanEdit(e: FileEdit, s: Scan)
    requires WellFormed(e) && PlainHunks(e.hunks)
    ensures ScanLines(PrintEdit(e), s).sites == s.sites + SeenInEdit(e)
  {
    hide Step, PrintHunks, TargetLine, Neutral, SeenSites;
    ScanConcat(e.preamble, TargetLine(e.target) + PrintHunks(e.hunks), s);
    ScanNeutral(e.preamble, s);
    var s1 := ScanLines(e.preamble, s);
    ScanConcat(TargetLine(e.target), PrintHunks(e.hunks), s1);
    TargetStep(e.target, s1);
    var s2 := ScanLines(TargetLine(e.target), s1);
    ScanHunks(e.hunks, s2);
    if !e.target.NewFile? {
      NothingSeen(s2.file, e.hunks);
    }
  }

  predicate PlainEdits(es: seq<FileEdit>) { forall e | e in es :: PlainHunks(e.hunks) }

  predicate WellFormedEdits(es: seq<FileEdit>) { forall e | e in es :: WellFormed(e) }

  lemma {:induction false} ScanEdits(es: seq<FileEdit>, s: Scan)
    requires WellFormedEdits(es) && PlainEdits(es)
    ensures ScanLines(Print(es), s).sites == s.sites + Seen(es)
    decreases |es|
  {
    hide Step, PrintEdit, WellFormed, SeenInEdit, PlainHunks, ScanLines;
    if es == [] {
      NothingScanned(s);
    } else {
      assert es[0] in es && forall e | e in es[1..] :: e in es;
      ScanConcat(PrintEdit(es[0]), Print(es[1..]), s);
      ScanEdit(es[0], s);
      ScanEdits(es[1..], ScanLines(PrintEdit(es[0]), s));
      assert s.sites + SeenInEdit(es[0]) + Seen(es[1..]) == s.sites + Seen(es);
    }
  }

  lemma NothingScanned(s: Scan)
    ensures ScanLines([], s) == s && s.sites + [] == s.sites
  {
  }

  // ---- exactly when the added lines are recovered ----

  /** An end-of-file marker after the removed lines shifts the lines added after it. */
  predicate Shifted(h: Hunk) { h.oldUnterminated && h.added != [] }

  predicate Unshifted(es: seq<FileEdit>) { forall e, h | e in es && h in e.hunks :: !Shifted(h) }

  lemma {:induction false} SitesLength(file: string, line: nat, texts: seq<string>)
    ensures |SitesAt(file, line, texts)| == |texts|
    decreases |texts|
  {
    if texts != [] {
      SitesLength(file, line + 1, texts[1..]);
    }
  }

  lemma SplitEquality<T>(a: seq<T>, b: seq<T>, c: seq<T>, d: seq<T>)
    requires |a| == |c|
    ensures a + b == c + d <==> a == c && b == d
  {
    if a + b == c + d {
      assert a == (a + b)[..|a|] && c == (c + d)[..|c|];
      assert b == (a + b)[|a|..] && d == (c + d)[|c|..];
    }
  }

  lemma HunkShift(file: string, h: Hunk)
    ensures SitesAt(file, SeenStart(h), h.added) == SitesAt(file, h.newStart, h.added) <==> !Shifted(h)
  {
    if h.added != [] {
      assert SitesAt(file, SeenStart(h), h.added)[0].line == SeenStart(h);
      assert SitesAt(file, h.newStart, h.added)[0].line == h.newStart;
    }
  }

  lemma {:induction false} HunksShift(file: string, hs: seq<Hunk>)
    ensures |SeenSites(file, hs)| == |HunkSites(file, hs)|
    ensures SeenSites(file, hs) == HunkSites(file, hs) <==> forall h | h in hs :: !Shifted(h)
  {
    hide SitesAt;
    if hs != [] {
      HunksShift(file, hs[1..]);
      HunkShift(file, hs[0]);
      SitesLength(file, SeenStart(hs[0]), hs[0].added);
      SitesLength(file, hs[0].newStart, hs[0].added);
      SplitEquality(SitesAt(file, SeenStart(hs[0]), hs[0].added), SeenSites(file, hs[1..]),
                    SitesAt(file, hs[0].newStart, hs[0].added), HunkSites(file, hs[1..]));
      assert forall h :: h in hs <==> h == hs[0] || h in hs[1..];
    }
  }

  lemma {:induction false} EditsShift(es: seq<FileEdit>)
    requires WellFormedEdits(es)
    ensures |Seen(es)| == |TrueSites(es)|
    ensures Seen(es) == TrueSites(es) <==> Unshifted(es)
  {
    hide SeenSites, HunkSites;
    if es != [] {
      assert es[0] in es && WellFormed(es[0]);
      EditsShift(es[1..]);
      var e := es[0];
      if e.target.NewFile? {
        HunksShift(e.target.path, e.hunks);
      }
      SplitEquality(SeenInEdit(e), Seen(es[1..]), EditSites(e), TrueSites(es[1..]));
      assert forall x :: x in es <==> x == e || x in es[1..];
      assert Unshifted(es) <==> Unshifted(es[1..]) && forall h | h in e.hunks :: !Shifted(h);
    }
  }

  /** The lines the loop can take for added ones. */
  function AddedCount(lines: seq<string>): nat {
    if lines == [] then 0 else (if IsAdded(lines[0]) then 1 else 0) + AddedCount(lines[1..])
  }

  lemma {:induction false} AddedCountConcat(a: seq<string>, b: seq<string>)
    ensures AddedCount(a + b) == AddedCount(a) + AddedCount(b)
  {
    hide IsAdded;
    if a == [] {
      assert a + b == b;
    } else {
      assert (a + b)[0] == a[0] && (a + b)[1..] == a[1..] + b;
      AddedCountConcat(a[1..], b);
    }
  }

  lemma {:induction false} ScanBound(lines: seq<string>, s: Scan)
    ensures |ScanLines(lines, s).sites| <= |s.sites| + AddedCount(lines)
    decreases |lines|
  {
    hide HunkStart, NormalizeSlashes, StartsWith;
    if lines != [] {
      PlusPrefixes(lines[0]);
      ScanBound(lines[1..], Step(lines[0], s));
    }
  }

  function PlainCount(texts: seq<string>): nat {
    if texts == [] then 0 else (if PlainText(texts[0]) then 1 else 0) + PlainCount(texts[1..])
  }

  lemma {:induction false} PlainCountBound(texts: seq<string>)
    ensures PlainCount(texts) <= |texts|
    ensures PlainCount(texts) == |texts| <==> forall t | t in texts :: PlainText(t)
  {
    hide PlainText;
    if texts != [] {
      PlainCountBound(texts[1..]);
      assert forall t :: t in texts <==> t == texts[0] || t in texts[1..];
    }
  }

  lemma {:induction false} CountAdded(texts: seq<string>)
    ensures AddedCount(Prefixed("+", texts)) == PlainCount(texts)
  {
    if texts != [] {
      PlusThen(texts[0]);
      hide StartsWith;
      CountAdded(texts[1..]);
    }
  }

  lemma {:induction false} CountRemoved(texts: seq<string>)
    ensures AddedCount(Prefixed("-", texts)) == 0
  {
    if texts != [] {
      assert ("-" + texts[0])[0] == '-';
      CountRemoved(texts[1..]);
    }
  }

  lemma CountMarker(unterminated: bool)
    ensures AddedCount(Marker(unterminated)) == 0
  {
    assert NO_NEWLINE[0] == '\\';
  }

  lemma CountHunk(h: Hunk)
    ensures AddedCount(PrintHunk(h)) == PlainCount(h.added)
  {
    assert PrintHunkLine(h)[0] == '@';
    assert !IsAdded(PrintHunkLine(h));
    hide IsAdded, PrintHunkLine;
    var adds := Prefixed("+", h.added) + Marker(h.newUnterminated);
    var marked := Marker(h.oldUnterminated) + adds;
    var body := Prefixed("-", h.removed) + marked;
    AddedCountConcat([PrintHunkLine(h)], body);
    AddedCountConcat(Prefixed("-", h.removed), marked);
    AddedCountConcat(Marker(h.oldUnterminated), adds);
    AddedCountConcat(Prefixed("+", h.added), Marker(h.newUnterminated));
    CountRemoved(h.removed);
    CountMarker(h.oldUnterminated);
    CountMarker(h.newUnterminated);
    CountAdded(h.added);
    assert AddedCount([PrintHunkLine(h)]) == 0;
  }

  lemma {:induction false} CountHunks(file: string, hs: seq<Hunk>)
    ensures AddedCount(PrintHunks(hs)) <= |HunkSites(file, hs)|
    ensures AddedCount(PrintHunks(hs)) == |HunkSites(file, hs)| ==> PlainHunks(hs)
  {
    hide PrintHunk, PlainText, SitesAt;
    if hs != [] {
      CountHunks(file, hs[1..]);
      CountHunk(hs[0]);
      AddedCountConcat(PrintHunk(hs[0]), PrintHunks(hs[1..]));
      PlainCountBound(hs[0].added);
      SitesLength(file, hs[0].newStart, hs[0].added);
      assert forall h :: h in hs <==> h == hs[0] || h in hs[1..];
    }
  }

  lemma {:induction false} CountNeutral(lines: seq<string>)
    requires forall l | l in lines :: Neutral(l)
    ensures AddedCount(lines) == 0
  {
    hide HunkStart, StartsWith;
    if lines != [] {
      assert lines[0] in lines;
      CountNeutral(lines[1..]);
    }
  }

  lemma CountTarget(t: Target)
    ensures AddedCount(TargetLine(t)) == 0
  {
    match t {
      case NewFile(path) =>
        var line := NEW_FILE + path;
        assert line[..6] == NEW_FILE;
        PlusPrefixes(line);
      case DevNull =>
        assert StartsWith("+++ /dev/null", "+++");
      case NoText =>
    }
  }

  lemma CountEdit(e: FileEdit)
    requires WellFormed(e)
    ensures AddedCount(PrintEdit(e)) <= |EditSites(e)|
    ensures AddedCount(PrintEdit(e)) == |EditSites(e)| ==> PlainHunks(e.hunks)
  {
    hide PrintHunks, TargetLine, HunkSites, Neutral;
    AddedCountConcat(e.preamble, TargetLine(e.target) + PrintHunks(e.hunks));
    AddedCountConcat(TargetLine(e.target), PrintHunks(e.hunks));
    CountNeutral(e.preamble);
    CountTarget(e.target);
    if e.target.NewFile? {
      CountHunks(e.target.path, e.hunks);
    } else {
      CountHunks("", e.hunks);
      NoSites(e.hunks);
    }
  }

  lemma {:induction false} NoSites(hs: seq<Hunk>)
    requires forall h | h in hs :: h.added == []
    ensures HunkSites("", hs) == []
  {
    if hs != [] {
      assert hs[0] in hs;
      NoSites(hs[1..]);
    }
  }

  lemma {:induction false} CountEdits(es: seq<FileEdit>)
    requires WellFormedEdits(es)
    ensures AddedCount(Print(es)) <= |TrueSites(es)|
    ensures AddedCount(Print(es)) == |TrueSites(es)| ==> PlainEdits(es)
  {
    hide PrintEdit, WellFormed, EditSites, PlainHunks;
    if es != [] {
      assert es[0] in es;
      CountEdits(es[1..]);
      CountEdit(es[0]);
      AddedCountConcat(PrintEdit(es[0]), Print(es[1..]));
      assert forall e :: e in es <==> e == es[0] || e in es[1..];
    }
  }

  /** For every printed zero-context diff, the loop recovers exactly the added lines, with their files and
      their numbers in the new files, if and only if no added text starts with two plus signs and no hunk
      adds lines after an end-of-file marker of the old text. */
  lemma RecoversExactly(es: seq<FileEdit>)
    requires WellFormedEdits(es)
    ensures AddedSites(Print(es)) == TrueSites(es) <==> PlainEdits(es) && Unshifted(es)
  {
    hide WellFormedEdits, PlainEdits, Print, TrueSites, Seen, Unshifted;
    if PlainEdits(es) {
      ScanEdits(es, START);
      EditsShift(es);
      assert [] + Seen(es) == Seen(es);
    } else {
      ScanBound(Print(es), START);
      CountEdits(es);
    }
  }

  /** One line put in the place of one other, in a file of one line. */
  function OneHunk(text: string, oldUnterminated: bool): Hunk {
    Hunk(1, None, 1, None, "", ["old"], oldUnterminated, [text], false)
  }

  function OneEdit(text: string, oldUnterminated: bool): seq<FileEdit> {
    [FileEdit([], NewFile("f"), [OneHunk(text, oldUnterminated)])]
  }

  lemma OneEditShape(text: string, oldUnterminated: bool)
    ensures var es, h := OneEdit(text, oldUnterminated), OneHunk(text, oldUnterminated);
            && WellFormedEdits(es)
            && (PlainEdits(es) <==> PlainText(text)) && (Unshifted(es) <==> !oldUnterminated)
  {
    var es, h := OneEdit(text, oldUnterminated), OneHunk(text, oldUnterminated);
    assert es[0].hunks == [h] && h.added == [text];
    assert es[0] in es && h in es[0].hunks && text in h.added;
    assert forall e | e in es :: e == es[0];
    assert forall x | x in [h] :: x == h;
    assert forall t | t in [text] :: t == text;
    assert forall e, x | e in es && x in e.hunks :: x == h;
    assert Shifted(h) <==> oldUnterminated;
  }

  /** A line replaced in a text that did not end in a line end is recovered with the wrong number. */
  lemma UnterminatedTextShifts()
    ensures WellFormedEdits(OneEdit("new", true))
    ensures AddedSites(Print(OneEdit("new", true))) != TrueSites(OneEdit("new", true))
  {
    hide WellFormedEdits, PlainEdits, Print, TrueSites, Unshifted, OneEdit, OneHunk;
    OneEditShape("new", true);
    RecoversExactly(OneEdit("new", true));
  }

  /** An added line that starts with two plus signs is taken for a file header. */
  lemma PlusPlusIsLost()
    ensures WellFormedEdits(OneEdit("++x", false))
    ensures AddedSites(Print(OneEdit("++x", false))) != TrueSites(OneEdit("++x", false))
  {
    hide WellFormedEdits, PlainEdits, Print, TrueSites, Unshifted, OneEdit, OneHunk;
    OneEditShape("++x", false);
    RecoversExactly(OneEdit("++x", false));
    assert "++x"[..2] == "++";
  }

  // ---- the scope of one file ----

  function LinesOf(sites: seq<Site>, file: string): seq<int> {
    if sites == [] then [] else (if sites[0].file == file then [sites[0].line] else []) + LinesOf(sites[1..], file)
  }

  lemma {:induction false} LinesOfMeaning(sites: seq<Site>, file: string, x: int)
    ensures x in LinesOf(sites, file) <==> exists s :: s in sites && s.file == file && s.line == x
  {
    if sites != [] {
      LinesOfMeaning(sites[1..], file, x);
      assert forall s :: s in sites <==> s == sites[0] || s in sites[1..];
    }
  }

  lemma {:induction false} GroupedLines(sites: seq<Site>, file: string)
    ensures file in Grouped(sites) <==> LinesOf(sites, file) != []
    ensures file in Grouped(sites) ==>
              LinesOf(sites, file) == seq(|Grouped(sites)[file]|, i requires 0 <= i < |Grouped(sites)[file]| => Grouped(sites)[file][i].0)
  {
    if sites != [] {
      var init, last := sites[..|sites| - 1], sites[|sites| - 1];
      GroupedLines(init, file);
      LinesOfSnoc(init, last, file);
      assert sites == init + [last];
    }
  }

  lemma {:induction false} LinesOfSnoc(sites: seq<Site>, last: Site, file: string)
    ensures LinesOf(sites + [last], file) == LinesOf(sites, file) + (if last.file == file then [last.line] else [])
  {
    hide LinesOf;
    LinesOfStep(sites + [last], file);
    LinesOfStep(sites, file);
    var end := if last.file == file then [last.line] else [];
    if sites == [] {
      assert (sites + [last])[1..] == [] && (sites + [last])[0] == last;
      LinesOfStep([], file);
      assert end + [] == [] + end;
    } else {
      assert (sites + [last])[0] == sites[0] && (sites + [last])[1..] == sites[1..] + [last];
      LinesOfSnoc(sites[1..], last, file);
      var first := if sites[0].file == file then [sites[0].line] else [];
      assert first + (LinesOf(sites[1..], file) + end) == (first + LinesOf(sites[1..], file)) + end;
    }
  }

  lemma LinesOfStep(sites: seq<Site>, file: string)
    ensures LinesOf(sites, file) ==
      if sites == [] then [] else (if sites[0].file == file then [sites[0].line] else []) + LinesOf(sites[1..], file)
  {
  }

  /** The line ranges reported for a file cover exactly its added lines, in the one canonical form. */
  lemma ScopeIsExact(es: seq<FileEdit>, file: string)
    requires WellFormedEdits(es) && PlainEdits(es) && Unshifted(es)
    ensures var ranges := RangesOf(LinesOf(AddedSites(Print(es)), file));
            && Canonical(ranges)
            && forall x :: Covers(ranges, x) <==> x > 0 && exists s :: s in TrueSites(es) && s.file == file && s.line == x
  {
    hide WellFormedEdits, PlainEdits, Print, TrueSites, Unshifted, Covers, Canonical;
    RecoversExactly(es);
    var lines := LinesOf(TrueSites(es), file);
    RangesMeaning(lines);
    forall x ensures x in lines <==> exists s :: s in TrueSites(es) && s.file == file && s.line == x {
      LinesOfMeaning(TrueSites(es), file, x);
    }
  }
}
