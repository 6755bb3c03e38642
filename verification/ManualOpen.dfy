/** What is live of any manual migration file (src/core/db-review.ts 450-466), also when the text above the rollback's
    comment leaves a block comment of its own open. */
module ManualOpen {
  import opened Common
  import opened Text
  import opened SqlScan
  import opened SqlStatements
  import opened SqlClassify
  import opened SqlConcat
  import opened SqlOpen
  import opened ManualMigration
  import opened ManualLive
  import opened ManualInactive

  /** The inside of the comment that the end of a file is read as: it starts at the first open start above. */
  function CommentOf(above: string, body: string): string {
    OpenPartShape(above);
    if OpenPart(above) == [] then body else OpenPart(above)[2..] + ("/*" + body)
  }

  lemma CommentShifts(above: string, body: string, tail: string)
    ensures above + ("/*" + body + "*/" + tail) == ClosedPart(above) + ("/*" + CommentOf(above, body) + "*/" + tail)
  {
    hide ClosedPart, HasPair;
    OpenPartShape(above);
    if OpenPart(above) == [] {
      assert above == ClosedPart(above);
    } else {
      StartGroup(ClosedPart(above), OpenPart(above), body, tail);
    }
  }

  lemma StartGroup(p: string, r: string, body: string, tail: string)
    requires OpensComment(r)
    ensures (p + r) + ("/*" + body + "*/" + tail) == p + ("/*" + (r[2..] + ("/*" + body)) + "*/" + tail)
  {
    assert r == "/*" + r[2..];
    assert r + ("/*" + body + "*/" + tail) == "/*" + (r[2..] + ("/*" + body)) + "*/" + tail;
  }

  lemma BlocksThenBlank(x: string, y: string)
    requires !HasPair(StripBlocks(x), '/', '*')
    ensures StripBlocks(x + (" " + y)) == StripBlocks(x) + (" " + StripBlocks(y))
  {
    hide StripBlocks, HasPair;
    BlocksThen(x, " " + y);
    BlocksPlainBefore(" ", y);
  }

  /** Whatever stands above a comment that ends a text: what is live is the part above it that leaves no comment open,
      and what escapes. */
  lemma CommentedText(above: string, body: string, tail: string)
    requires Blank(tail)
    ensures StripComments(above + ("/*" + body + "*/" + tail))
         == StripComments(ClosedPart(above) + (" " + Escaped(CommentOf(above, body), tail)))
  {
    hide StripBlocks, StripLines, HasPair, ClosedPart, TrimCollapse, CommentOf, Blank;
    var p, whole := ClosedPart(above), CommentOf(above, body);
    var e := Escaped(whole, tail);
    CommentShifts(above, body, tail);
    ClosedPartCloses(above);
    var left := CommentLeft(whole, tail);
    BlocksThen(p, "/*" + whole + "*/" + tail);
    BlocksThenBlank(p, e);
    StripIsTrimCollapse(above + ("/*" + body + "*/" + tail));
    StripIsTrimCollapse(p + (" " + e));
    if !HasPair(whole, '*', '/') {
      NothingStripsToNothing();
      BlankAfterSpace(tail);
      BlanksVanish(StripBlocks(p), " " + tail, " " + []);
    }
  }

  lemma BlankAfterSpace(tail: string)
    requires Blank(tail)
    ensures Blank(" " + tail) && Blank(" " + [])
  {
  }

  lemma BlanksVanish(x: string, a: string, b: string)
    requires Blank(a) && Blank(b)
    ensures TrimCollapse(StripLines(x + a)) == TrimCollapse(StripLines(x + b))
  {
    hide StripLines, TrimCollapse, Blank;
    var pa := LinesBlankAfter(x, a);
    var pb := LinesBlankAfter(x, b);
    BlankAfter(StripLines(x), pa);
    BlankAfter(StripLines(x), pb);
  }

  // ---- any accepted file ----

  /** A file with its markers in order and one comment as its rollback section. */
  predicate Commented(content: string) { HasParts(content) && CommentBody(PartsOf(content).rollback).Some? }

  /** Everything above the rollback's comment. */
  function Above(content: string): string
    requires Commented(content)
  {
    var parts := PartsOf(content);
    parts.head + (parts.forward + (ROLLBACK_MARKER + Margins(parts.rollback).0))
  }

  /** What the splitter sees of a file: the text above the first comment that runs into the rollback, and what escapes
      that comment. */
  function LiveText(content: string): string
    requires Commented(content)
  {
    var section := PartsOf(content).rollback;
    ClosedPart(Above(content)) + (" " + Escaped(CommentOf(Above(content), CommentBody(section).value), Margins(section).1))
  }

  /** The statements of every accepted file are exactly those of its live text. */
  lemma LiveExactly(p: Patterns, content: string)
    ensures Parsed(p, content).blockers == [] ==>
      Commented(content) && SplitStatements(content) == SplitStatements(LiveText(content))
  {
    hide Parsed, StripComments, Statements, PartsOf, LiveText, HasParts, Trim, CommentBody, Margins;
    AcceptedParts(p, content);
    if Parsed(p, content).blockers == [] {
      LiveOfCommented(content);
    }
  }

  lemma LiveOfCommented(content: string)
    requires Commented(content)
    ensures SplitStatements(content) == SplitStatements(LiveText(content))
  {
    hide StripComments, Statements, PartsOf, HasParts, Trim, CommentBody, Margins, Escaped, CommentOf, ClosedPart, Blank;
    hide FORWARD_MARKER, ROLLBACK_MARKER;
    var parts := PartsOf(content);
    var body := CommentBody(parts.rollback).value;
    var (pre, post) := Margins(parts.rollback);
    PartsJoin(content);
    CommentShape(parts.rollback);
    MarginsGroup(parts.head, parts.forward, ROLLBACK_MARKER, pre, body, post);
    CommentedText(Above(content), body, post);
  }

  lemma MarginsGroup(head: string, forward: string, n: string, pre: string, body: string, post: string)
    ensures head + (forward + (n + (pre + ("/*" + body + "*/") + post)))
         == (head + (forward + (n + pre))) + ("/*" + body + "*/" + post)
  {
  }

  // ---- rendered files ----

  /** What the splitter sees of a rendered file. */
  function LiveOfRendered(forward: string, rollback: string): string {
    ClosedPart(forward) + ((if OpenPart(forward) == [] then "\n" else " ") + RenderedEscape(rollback))
  }

  /** The rendered file's text above the rollback's comment. */
  function AboveRendered(forward: string): string { TITLE + ("\n" + (forward + ("\n" + (ROLLBACK_MARKER + "\n")))) }

  lemma RenderIsCommented(forward: string, rollback: string)
    ensures Render(forward, rollback) == AboveRendered(forward) + ("/*" + ("\n" + rollback + "\n") + "*/" + "\n")
  {
    hide Layout;
    RenderIsPieces(forward, rollback);
    CommentedGroup(TITLE, forward, ROLLBACK_MARKER, "/*" + ("\n" + rollback + "\n") + "*/" + "\n");
  }

  lemma CommentedGroup(t: string, forward: string, n: string, comment: string)
    ensures t + (['\n'] + ((forward + "\n") + (n + (['\n'] + "" + comment))))
         == (t + ("\n" + (forward + ("\n" + (n + "\n"))))) + comment
  {
  }

  lemma NoPairMeets(u: string, v: string, a: char, b: char)
    requires !HasPair(u, a, b) && !HasPair(v, a, b) && (v == [] || v[0] != b)
    ensures !HasPair(u + v, a, b)
  {
    var s := u + v;
    forall i: nat | i < |s| ensures !PairAt(s, i, a, b) {
      if i + 1 < |u| {
        assert !PairAt(u, i, a, b);
      } else if i >= |u| {
        assert !PairAt(v, i - |u|, a, b);
      }
    }
  }

  /** A comment text in front of another, with no end mark in it or where they meet. */
  lemma EscapedPast(mid: string, body: string, tail: string)
    requires !HasPair(mid, '*', '/') && body != [] && body[0] != '/'
    ensures Escaped(mid + body, tail) == Escaped(body, tail)
  {
    hide HasPair;
    if HasPair(body, '*', '/') {
      var inner := BeforeEndMark(body);
      var rest := AfterEndMark(body);
      hide AfterEndMark;
      assert inner != [] ==> inner[0] == body[0];
      NoPairMeets(mid, inner, '*', '/');
      EndMarkAt(mid + inner, rest);
      EndGroup(mid, inner, rest);
    } else {
      NoPairMeets(mid, body, '*', '/');
    }
  }

  lemma EndGroup(mid: string, inner: string, rest: string)
    ensures mid + (inner + "*/" + rest) == (mid + inner) + "*/" + rest
  {
  }

  lemma EndMarkAt(inner: string, rest: string)
    requires !HasPair(inner, '*', '/')
    ensures HasPair(inner + "*/" + rest, '*', '/') && AfterEndMark(inner + "*/" + rest) == rest
  {
    hide HasPair;
    FirstPair(inner, "*/" + rest);
    Regroup(inner, "*/", rest);
  }

  /** Above the comment of a rendered file: the closed part is the forward text's, or everything. */
  lemma RenderedParts(forward: string)
    ensures OpenPart(forward) == [] ==> OpenPart(AboveRendered(forward)) == [] && ClosedPart(AboveRendered(forward)) == AboveRendered(forward)
    ensures OpenPart(forward) != [] ==>
              ClosedPart(AboveRendered(forward)) == TITLE + ("\n" + ClosedPart(forward)) &&
              OpenPart(AboveRendered(forward)) == OpenPart(forward) + ("\n" + (ROLLBACK_MARKER + "\n"))
  {
    hide StripBlocks, HasPair, ClosedPart, FORWARD_MARKER, ROLLBACK_MARKER, HEADER, TITLE;
    var p, r := ClosedPart(forward), OpenPart(forward);
    var n := ROLLBACK_MARKER + "\n";
    TitleCloses();
    MarkerCloses();
    ClosedPartCloses(forward);
    OpenPartShape(forward);
    TitledCloses(p);
    var above := AboveRendered(forward);
    if r == [] {
      assert p == forward;
      BlocksThenLine(TITLE + ("\n" + forward), n);
      assert TITLE + ("\n" + forward) + ("\n" + n) == above;
      ClosedPartOfBoth(above, []);
      assert above + [] == above;
    } else {
      MoreStaysUnclosed(r, n);
      ClosedPartOfBoth(TITLE + ("\n" + p), r + ("\n" + n));
      assert TITLE + ("\n" + p) + (r + ("\n" + n)) == above;
    }
  }

  lemma TitleCloses()
    ensures !HasPair(StripBlocks(TITLE), '/', '*')
  {
    TitleIsComment();
  }

  /** The marker line opens no comment and closes none, nor with the comment start below it. */
  lemma MarkerCloses()
    ensures !HasPair(StripBlocks(ROLLBACK_MARKER + "\n"), '/', '*')
    ensures !HasPair(ROLLBACK_MARKER + "\n", '*', '/') && !HasPair(ROLLBACK_MARKER + "\n/*", '*', '/')
  {
    MarkerLines();
    PlainCloses(ROLLBACK_MARKER);
  }

  lemma PlainCloses(n: string)
    requires PlainText(n)
    ensures !HasPair(StripBlocks(n + "\n"), '/', '*')
    ensures !HasPair(n + "\n", '*', '/') && !HasPair(n + "\n/*", '*', '/')
  {
    ShortIsClosed(n + "\n");
    var s := n + "\n/*";
    forall i: nat ensures !PairAt(s, i, '*', '/') { }
    forall i: nat ensures !PairAt(n + "\n", i, '*', '/') { }
  }

  /** A line end between two texts that open no comment. */
  lemma BlocksThenLine(x: string, y: string)
    requires !HasPair(StripBlocks(x), '/', '*') && !HasPair(StripBlocks(y), '/', '*')
    ensures StripBlocks(x + ("\n" + y)) == StripBlocks(x) + ("\n" + StripBlocks(y))
    ensures !HasPair(StripBlocks(x + ("\n" + y)), '/', '*')
  {
    hide StripBlocks, HasPair;
    BlocksThen(x, "\n" + y);
    BlocksPlainBefore("\n", y);
    NoPairAcross(StripBlocks(x), '\n', StripBlocks(y), '/', '*');
  }

  lemma TitledCloses(p: string)
    requires !HasPair(StripBlocks(p), '/', '*')
    ensures !HasPair(StripBlocks(TITLE + ("\n" + p)), '/', '*')
  {
    hide StripBlocks, HasPair, TITLE;
    TitleCloses();
    BlocksThenLine(TITLE, p);
  }

  lemma MoreStaysUnclosed(r: string, n: string)
    requires Unclosed(r) && !HasPair(n, '*', '/')
    ensures Unclosed(r + ("\n" + n))
  {
    hide HasPair;
    NoPairAcross(r[2..], '\n', n, '*', '/');
    assert (r + ("\n" + n))[2..] == r[2..] + (['\n'] + n);
  }

  /** The title comment before a line adds nothing. */
  lemma TitleSkips(z: string)
    ensures SplitStatements(TITLE + ("\n" + z)) == SplitStatements(z)
  {
    hide StripBlocks, StripLines, HasPair, TITLE, Statements, TrimCollapse;
    TitleIsComment();
    var t := StripBlocks(TITLE);
    TitleCloses();
    BlocksThen(TITLE, "\n" + z);
    BlocksPlainBefore("\n", z);
    LinesSplit(t, '\n', StripBlocks(z));
    assert Blank("\n");
    SpacedJoin(StripLines(t), "\n", StripLines(StripBlocks(z)));
    StripIsTrimCollapse(TITLE);
    StripIsTrimCollapse(z);
    StripIsTrimCollapse(TITLE + ("\n" + z));
  }

  /** The marker line between two texts is as a line end. */
  lemma MarkerSkips(forward: string, e: string)
    requires OpenPart(forward) == []
    ensures StripComments(forward + ("\n" + (ROLLBACK_MARKER + ("\n" + (" " + e))))) == StripComments(forward + ("\n" + e))
  {
    hide ClosedPart, HasPair, StripBlocks, StripLines, TrimCollapse, ROLLBACK_MARKER, LineEnd;
    ClosedExactly(forward);
    var n := ROLLBACK_MARKER;
    MarkerIsPlain();
    var b, l := StripBlocks(forward), StripLines(StripBlocks(forward));
    var eb := StripBlocks(e);
    BlocksThen(forward, "\n" + (n + ("\n" + (" " + e))));
    BlocksPlainBefore("\n", n + ("\n" + (" " + e)));
    BlocksPlainBefore(n, "\n" + (" " + e));
    BlocksPlainBefore("\n", " " + e);
    BlocksPlainBefore(" ", e);
    BlocksThen(forward, "\n" + e);
    BlocksPlainBefore("\n", e);
    LineEndIsBlank();
    LinesSplit(b, '\n', n + ("\n" + (" " + eb)));
    LinesSplit(n, '\n', " " + eb);
    LinesSplit(b, '\n', eb);
    LinesBlankBefore(" ", eb);
    var m := StripLines(n);
    BlankConcat("\n", m + ("\n" + " "));
    BlankConcat(m, "\n" + " ");
    SpacedJoin(l, "\n" + (m + ("\n" + " ")), StripLines(eb));
    SpacedJoin(l, "\n", StripLines(eb));
    MarkerGroup(l, m, StripLines(eb));
    StripIsTrimCollapse(forward + ("\n" + (n + ("\n" + (" " + e)))));
    StripIsTrimCollapse(forward + ("\n" + e));
  }

  lemma MarkerIsPlain()
    ensures '/' !in ROLLBACK_MARKER && ROLLBACK_MARKER != [] && ROLLBACK_MARKER[0] != '*'
    ensures Blank(StripLines(ROLLBACK_MARKER))
  {
    MarkerLines();
    var pad := CommentLineVanishes([], ROLLBACK_MARKER);
    NothingStripsToNothing();
    assert [] + ROLLBACK_MARKER == ROLLBACK_MARKER && [] + pad == pad;
  }

  lemma LineEndIsBlank()
    ensures LineEnd('\n') && Blank("\n") && Blank("\n" + " ") && Blank(" ")
  {
  }

  lemma MarkerGroup(l: string, m: string, x: string)
    ensures l + (("\n" + (m + ("\n" + " "))) + x) == l + (['\n'] + (m + (['\n'] + (" " + x))))
  {
  }

  /** The statements of a rendered file, for any two texts: those of the forward text up to an open comment start, and
      of what escapes the rollback's comment. */
  lemma RenderedExactly(forward: string, rollback: string)
    ensures SplitStatements(Render(forward, rollback)) == SplitStatements(LiveOfRendered(forward, rollback))
  {
    hide ClosedPart, HasPair, StripComments, Statements, Escaped, Render, TITLE, ROLLBACK_MARKER, AboveRendered;
    var above, body := AboveRendered(forward), "\n" + rollback + "\n";
    var e := RenderedEscape(rollback);
    RenderIsCommented(forward, rollback);
    assert Blank("\n");
    CommentedText(above, body, "\n");
    RenderedParts(forward);
    if OpenPart(forward) == [] {
      AboveGroup(forward, e);
      TitleSkips(forward + ("\n" + (ROLLBACK_MARKER + ("\n" + (" " + e)))));
      MarkerSkips(forward, e);
      assert ClosedPart(forward) == forward;
    } else {
      OpenPartShape(forward);
      MarkerPast(OpenPart(forward), body);
      Regroup(TITLE, "\n" + ClosedPart(forward), " " + e);
      Regroup("\n", ClosedPart(forward), " " + e);
      TitleSkips(ClosedPart(forward) + (" " + e));
    }
  }

  lemma AboveGroup(forward: string, e: string)
    ensures AboveRendered(forward) + (" " + e) == TITLE + ("\n" + (forward + ("\n" + (ROLLBACK_MARKER + ("\n" + (" " + e))))))
  {
    hide TITLE, ROLLBACK_MARKER;
  }

  lemma MarkerPast(r: string, body: string)
    requires Unclosed(r) && body != [] && body[0] == '\n'
    ensures Escaped((r + ("\n" + (ROLLBACK_MARKER + "\n")))[2..] + ("/*" + body), "\n") == Escaped(body, "\n")
  {
    hide HasPair, Escaped, ROLLBACK_MARKER;
    MarkerCloses();
    var mid := r[2..] + (['\n'] + (ROLLBACK_MARKER + "\n/*"));
    NoPairAcross(r[2..], '\n', ROLLBACK_MARKER + "\n/*", '*', '/');
    EscapedPast(mid, body, "\n");
    assert (r + ("\n" + (ROLLBACK_MARKER + "\n")))[2..] + ("/*" + body) == mid + body;
  }

  // ---- what follows for the forward text ----

  lemma NoMarkNoEscape(rollback: string)
    requires !HasPair(rollback, '*', '/')
    ensures RenderedEscape(rollback) == []
  {
    var s := "\n" + rollback + "\n";
    forall i: nat | i < |s| ensures !PairAt(s, i, '*', '/') {
      assert i >= 1 && i - 1 + 1 < |rollback| ==> !PairAt(rollback, i - 1, '*', '/');
    }
  }

  /** When the rollback text closes no comment, the live text is the closed part of the forward text. */
  lemma LiveWithoutMark(forward: string, rollback: string)
    requires !HasPair(rollback, '*', '/')
    ensures SplitStatements(Render(forward, rollback)) == SplitStatements(ClosedPart(forward))
  {
    hide ClosedPart, HasPair, StripComments, StripBlocks, Statements, Escaped, Render;
    NoMarkNoEscape(rollback);
    RenderedExactly(forward, rollback);
    var p := ClosedPart(forward);
    assert Blank([]) && Blank(" ") && Blank("\n");
    StripMargins([], p, "\n");
    StripMargins([], p, " ");
    assert [] + p + "\n" == p + ("\n" + []) && [] + p + " " == p + (" " + []);
  }

  /** The open comment start stands in a line comment, and below that line is nothing live. */
  predicate StartIsHidden(forward: string) {
    InLineComment(StripBlocks(ClosedPart(forward))) && StripComments(SkipLine(OpenPart(forward))) == []
  }

  /** A rollback text without an end mark is inactive if and only if the forward text leaves no block comment open, or
      has its open start in a line comment with nothing below. */
  lemma RollbackIsInactive(forward: string, rollback: string)
    requires !HasPair(rollback, '*', '/')
    ensures SplitStatements(Render(forward, rollback)) == SplitStatements(forward)
       <==> OpenPart(forward) == [] || StartIsHidden(forward)
  {
    hide ClosedPart, HasPair, Statements, StripComments, Render, StartIsHidden;
    LiveWithoutMark(forward, rollback);
    if OpenPart(forward) == [] {
      assert ClosedPart(forward) == forward;
    } else {
      OpenForward(forward);
    }
  }

  /** A file of accepted shape whose forward text the rollback marker's comment cuts short: all from the open start on is
      comment in the file, and live in the text the gates see. */
  lemma OpenStartIsSwallowed(p: Patterns)
    ensures var forward, rollback := "a; /* b;", "c;";
            && Parsed(p, Render(forward, rollback)) == Manual(GateBlockers(p, forward, rollback), forward, rollback)
            && SplitStatements(Render(forward, rollback)) == SplitStatements("a; ")
            && SplitStatements(forward) != SplitStatements("a; ")
  {
    hide Statements, Render, GateBlockers, Renderable, StripBlocks, StripComments, HasPair, Parsed, ClosedPart, StartIsHidden;
    var forward, rollback := "a; /* b;", "c;";
    ShortIsRenderable(forward, rollback);
    ParseOfRender(p, forward, rollback);
    NoCharNoPair(rollback, '*', '/');
    StartStands();
    LiveWithoutMark(forward, rollback);
    OpenForward(forward);
  }

  lemma StartStands()
    ensures var forward := "a; /* b;"; ClosedPart(forward) == "a; " && OpenPart(forward) != [] && !StartIsHidden(forward)
  {
    hide ClosedPart;
    var p, r := "a; ", "/* b;";
    ShortIsClosed(p);
    NoCharNoPair(r[2..], '*', '/');
    ClosedPartOfBoth(p, r);
    assert p + r == "a; /* b;";
    BlocksPlainBefore(p, []);
    NothingStripsToNothing();
    assert p + [] == p;
    assert !InLineComment(p[1..]);
  }

  lemma OpenForward(forward: string)
    requires OpenPart(forward) != []
    ensures SplitStatements(ClosedPart(forward)) == SplitStatements(forward) <==> StartIsHidden(forward)
  {
    hide ClosedPart, HasPair, Statements, StripBlocks, StripLines, TrimCollapse, InLineComment, SkipLine, Trimmed, Trim, Collapse;
    var p, r := ClosedPart(forward), OpenPart(forward);
    var b := StripBlocks(p);
    BlocksOfParts(forward);
    OpenPartShape(forward);
    StripIsTrimCollapse(p);
    StripIsTrimCollapse(forward);
    ghost var tail;
    if InLineComment(b) {
      LinesInComment(b, r);
      tail := StripLines(SkipLine(r));
      SkippedStays(r);
      StripIsTrimCollapse(SkipLine(r));
    } else {
      LinesConcat(b, r);
      tail := StripLines(r);
      OpenStartIsLive(r);
    }
    var gap := TrimCollapseConcat(StripLines(b), tail);
    StrippedIsTrimmed(p);
    StrippedIsTrimmed(forward);
    CollapsedIsTrimmed(tail);
    var whole, f, e := StripComments(forward), StripComments(p), TrimCollapse(tail);
    assert whole == [] + ([] + (f + (gap + e)));
    NothingIsTrimmed();
    SameStatementsExactly(whole, [], [], f, gap, e);
  }

  lemma NothingIsTrimmed()
    ensures Trimmed([]) && Blank([])
  {
  }

  lemma CollapsedIsTrimmed(s: string)
    ensures Trimmed(TrimCollapse(s))
  {
    TrimIsTrimmed(Collapse(s));
  }

  /** Below the line of an open comment start there is no block comment to strip. */
  lemma SkippedStays(r: string)
    requires Unclosed(r)
    ensures StripBlocks(SkipLine(r)) == SkipLine(r)
  {
    hide StripBlocks, HasPair;
    SkipLineStep(r);
    SkipLineStep(r[1..]);
    assert r[1..][1..] == r[2..];
    var s := r[2..];
    SkipLineIsSuffix(s);
    var k := |s| - |SkipLine(s)|;
    assert !HasPair(s[k..|s|], '*', '/') by { if HasPair(s[k..|s|], '*', '/') { PairInPart(s, k, |s|, '*', '/'); } }
    assert s[k..|s|] == SkipLine(s);
    NothingClosesNothingStripped(SkipLine(s));
  }

  lemma OpenStartIsLive(r: string)
    requires OpensComment(r)
    ensures TrimCollapse(StripLines(r)) != []
  {
    hide Collapse, Trim, StripLines;
    LinesStep(r);
    var l := StripLines(r);
    assert l[0] == '/' && !IsSpace('/');
    assert !Blank(l);
    CollapseStep(l);
    assert Collapse(l)[0] == '/';
    BlankTrims(Collapse(l));
  }

  /** A rendered file whose rollback has no end mark is exactly as risky as the closed part of its forward text. */
  lemma RenderedLevel(lex: Lexicon, forward: string, rollback: string)
    requires !HasPair(rollback, '*', '/')
    ensures Classified(lex, Render(forward, rollback)) == Classified(lex, ClosedPart(forward))
  {
    hide SplitStatements, Render, ClosedPart, HasPair;
    LiveWithoutMark(forward, rollback);
  }

  /** After whole statements, what escapes the comment is live on its own: the file's statements are those of the forward
      text's closed part and then those of what escapes. */
  lemma EscapedStatements(forward: string, rollback: string)
    requires var p := ClosedPart(forward);
             Consumed(StripComments(p)) && (OpenPart(forward) == [] || !InLineComment(StripBlocks(p)))
    ensures SplitStatements(Render(forward, rollback)) == SplitStatements(ClosedPart(forward)) + SplitStatements(RenderedEscape(rollback))
  {
    hide ClosedPart, HasPair, Statements, StripComments, StripBlocks, Render, InLineComment, Consumed, RenderedEscape;
    var p, e := ClosedPart(forward), RenderedEscape(rollback);
    RenderedExactly(forward, rollback);
    ClosedPartCloses(forward);
    if OpenPart(forward) == [] {
      SplitAfterLine(p, e);
    } else {
      SplitOfConcat(p, " " + e);
      assert Blank(" ") && Blank([]);
      StripMargins(" ", e, []);
      assert " " + e + [] == " " + e;
    }
  }

  lemma SplitAfterLine(p: string, e: string)
    requires !HasPair(StripBlocks(p), '/', '*') && Consumed(StripComments(p))
    ensures SplitStatements(p + ("\n" + e)) == SplitStatements(p) + SplitStatements(e)
  {
    hide HasPair, Statements, StripBlocks, StripLines, Consumed, TrimCollapse;
    BlocksThen(p, "\n" + e);
    BlocksPlainBefore("\n", e);
    LinesSplit(StripBlocks(p), '\n', StripBlocks(e));
    assert Blank("\n") && Blank(" ");
    SpacedJoin(StripLines(StripBlocks(p)), "\n", StripLines(StripBlocks(e)));
    StripIsTrimCollapse(p);
    StripIsTrimCollapse(e);
    StripIsTrimCollapse(p + ("\n" + e));
    var a, b := StripComments(p), StripComments(e);
    NothingHasNoStatements();
    StatementsConcat(a, " " + b);
    StatementsSkipBlank(" ", b);
    assert Statements(a) + [] == Statements(a) && [] + Statements(b) == Statements(b);
  }
}
