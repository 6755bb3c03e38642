/** When the rollback part of a manual migration file is inactive (src/core/db-review.ts 450-466): the statements of the
    whole file are those of its forward text. */
module ManualInactive {
  import opened Common
  import opened Text
  import opened SqlScan
  import opened SqlStatements
  import opened SqlClassify
  import opened SqlConcat
  import opened ManualMigration
  import opened ManualLive

  // ---- adding text to a text ----

  lemma StrippedIsTrimmed(s: string)
    ensures Trimmed(StripComments(s))
  {
    TrimIsTrimmed(Collapse(StripLines(StripBlocks(s))));
  }

  lemma OnlyMargins(f: string, pre: string, post: string)
    requires Trimmed(f) && Blank(pre) && Blank(post) && Trimmed(pre + f + post)
    ensures pre + f + post == f
  {
    TrimOfTrimmed(pre + f + post);
    if f == [] {
      BlankConcat(pre, post);
      BlankTrims(pre + post);
      assert pre + f + post == pre + post;
    } else {
      TrimInside(pre, f, post);
    }
  }

  lemma VisibleParts(g: string, gap1: string, f: string, gap2: string, e: string)
    requires Blank(gap1) && Blank(gap2)
    ensures Visible(g + (gap1 + (f + (gap2 + e)))) == Visible(g) + (Visible(f) + Visible(e))
  {
    hide Visible, IsSpace;
    NothingVisible(gap1);
    NothingVisible(gap2);
    VisibleConcat(g, gap1 + (f + (gap2 + e)));
    VisibleConcat(gap1, f + (gap2 + e));
    VisibleConcat(f, gap2 + e);
    VisibleConcat(gap2, e);
    assert [] + Visible(e) == Visible(e) && [] + (Visible(f) + Visible(e)) == Visible(f) + Visible(e);
  }

  /** Visible text before or after another changes its statements: nothing that is added can hide. */
  lemma SameStatementsExactly(whole: string, g: string, gap1: string, f: string, gap2: string, e: string)
    requires whole == g + (gap1 + (f + (gap2 + e))) && Blank(gap1) && Blank(gap2)
    requires Trimmed(whole) && Trimmed(g) && Trimmed(f) && Trimmed(e)
    ensures Statements(whole) == Statements(f) <==> g == [] && e == []
  {
    hide Visible, IsSpace, Statements, AllVisible;
    if g == [] && e == [] {
      assert whole == gap1 + f + gap2;
      OnlyMargins(f, gap1, gap2);
    } else if Statements(whole) == Statements(f) {
      StatementsConserve(whole);
      StatementsConserve(f);
      VisibleParts(g, gap1, f, gap2, e);
      NothingVisible(g);
      NothingVisible(e);
      assert |Visible(g)| + |Visible(e)| == 0;
      TrimOfTrimmed(g);
      TrimOfTrimmed(e);
      BlankTrims(g);
      BlankTrims(e);
    }
  }

  /** A file in pieces has the forward section's statements exactly when nothing above it is live and nothing escapes
      the rollback's comment. */
  lemma PiecesExactly(g: string, c: char, a: string, n: string, d: char, lead: string, body: string, tail: string)
    requires ClosesBlocks(g) && Seamless(a) && LineEnd(c) && LineEnd(d) && MarkerLine(n) && Blank(lead) && Blank(tail)
    ensures SplitStatements(g + ([c] + (a + (n + ([d] + lead + ("/*" + body + "*/" + tail))))) ) == SplitStatements(a)
       <==> StripComments(g) == [] && StripComments(Escaped(body, tail)) == []
  {
    hide StripComments, Statements, Seamless, ClosesBlocks, LineEnd, MarkerLine, Blank, Trimmed, Escaped;
    var file := g + ([c] + (a + (n + ([d] + lead + ("/*" + body + "*/" + tail)))));
    var gap1, gap2 := PiecesStrip(g, c, a, n, d, lead, body, tail);
    StrippedIsTrimmed(file);
    StrippedIsTrimmed(g);
    StrippedIsTrimmed(a);
    StrippedIsTrimmed(Escaped(body, tail));
    SameStatementsExactly(StripComments(file), StripComments(g), gap1, StripComments(a), gap2, StripComments(Escaped(body, tail)));
  }

  // ---- rendered files ----

  /** The rendered file's first two lines. */
  const TITLE := HEADER + ("\n" + FORWARD_MARKER)

  lemma TitleIsComment()
    ensures ClosesBlocks(TITLE) && StripComments(TITLE) == []
    ensures MarkerLine(ROLLBACK_MARKER)
  {
    MarkerLines();
    PlainIsClosed(HEADER, FORWARD_MARKER);
    var h := CommentLineVanishes([], HEADER);
    var m := CommentLineVanishes([], FORWARD_MARKER);
    assert [] + HEADER == HEADER && [] + FORWARD_MARKER == FORWARD_MARKER && TITLE == HEADER + ("\n" + FORWARD_MARKER);
    NothingStripsToNothing();
    LinesSplit(HEADER, '\n', FORWARD_MARKER);
    BlankJoin(h, m);
    CollapseOfBlank(h + ("\n" + m));
    BlankTrims(Collapse(h + ("\n" + m)));
  }

  lemma BlankJoin(h: string, m: string)
    requires Blank(h) && Blank(m)
    ensures Blank(h + ("\n" + m)) && [] + h == h && [] + m == m
  {
  }

  lemma PlainIsClosed(header: string, m: string)
    requires PlainText(header) && PlainText(m) && m != []
    ensures StripBlocks(header + ("\n" + m)) == header + ("\n" + m) && ClosesBlocks(header + ("\n" + m))
  {
    var s := header + ("\n" + m);
    assert '/' !in s;
    BlocksPlainBefore(s, []);
    assert s + [] == s;
    NothingStripsToNothing();
    NoCharNoPair(s, '/', '*');
  }

  lemma RenderIsPieces(forward: string, rollback: string)
    ensures Render(forward, rollback)
         == TITLE + (['\n'] + ((forward + "\n") + (ROLLBACK_MARKER + (['\n'] + "" + ("/*" + ("\n" + rollback + "\n") + "*/" + "\n")))))
  {
    hide Layout;
    LayoutIsPieces(HEADER, FORWARD_MARKER, ROLLBACK_MARKER, forward, rollback);
  }

  lemma LayoutIsPieces(header: string, m: string, n: string, forward: string, rollback: string)
    ensures Layout(header, m, n, forward, rollback)
         == header + ("\n" + m) + (['\n'] + ((forward + "\n") + (n + (['\n'] + "" + ("/*" + ("\n" + rollback + "\n") + "*/" + "\n")))))
  {
    hide Layout;
    var after, before, tail := LayoutShape(header, m, n, forward, rollback);
    var comment := "/*" + ("\n" + rollback + "\n") + "*/" + "\n";
    assert tail == ['\n'] + "" + comment;
    assert before == header + ("\n" + m) + (['\n'] + forward);
    assert before + "\n" + n + tail == header + ("\n" + m) + (['\n'] + ((forward + "\n") + (n + tail)));
  }

  /** A line end after a text opens and closes nothing. */
  lemma LineIsSeamless(forward: string)
    requires !HasPair(StripBlocks(forward), '/', '*')
    ensures Seamless(forward + "\n") && StripComments(forward + "\n") == StripComments(forward)
  {
    hide StripBlocks, StripComments, HasPair;
    var b := StripBlocks(forward);
    assert Blank("\n") && Blank([]);
    StripMargins([], forward, "\n");
    assert [] + forward + "\n" == forward + "\n" && [] + b + "\n" == b + "\n";
    SlashIsVisible();
    if HasPair(b + "\n", '/', '*') {
      BlankMakesNoPair([], b, "\n", '/', '*');
      assert false;
    }
  }

  /** What stays live of a rollback text in a rendered file. */
  function RenderedEscape(rollback: string): string { Escaped("\n" + rollback + "\n", "\n") }

  /** In a file rendered from a forward text that leaves no block comment open, the rollback is inactive if and only if
      what follows a comment end mark in its text, if there is one, comes to nothing. */
  lemma InactiveExactly(forward: string, rollback: string)
    requires !HasPair(StripBlocks(forward), '/', '*')
    ensures SplitStatements(Render(forward, rollback)) == SplitStatements(forward)
       <==> StripComments(RenderedEscape(rollback)) == []
  {
    hide StripComments, HasPair, Statements, Seamless, ClosesBlocks, MarkerLine, Render, Escaped;
    RenderIsPieces(forward, rollback);
    TitleIsComment();
    LineIsSeamless(forward);
    assert Blank("") && Blank("\n");
    PiecesExactly(TITLE, '\n', forward + "\n", ROLLBACK_MARKER, '\n', "", "\n" + rollback + "\n", "\n");
  }

  // ---- any accepted file ----

  /** The three parts of a file that has both markers in order. */
  datatype Parts = Parts(head: string, forward: string, rollback: string)

  predicate HasParts(content: string) {
    var f, r := IndexOf(content, FORWARD_MARKER), IndexOf(content, ROLLBACK_MARKER);
    f.Some? && r.Some? && f.value < r.value
  }

  /** The text down to the forward marker, the section below it, and the section below the rollback marker. */
  function PartsOf(content: string): Parts
    requires HasParts(content)
  {
    var f, r := IndexOf(content, FORWARD_MARKER).value, IndexOf(content, ROLLBACK_MARKER).value;
    Parts(content[..f + |FORWARD_MARKER|], Slice(content, f + |FORWARD_MARKER|, r), content[r + |ROLLBACK_MARKER|..])
  }

  predicate StartsLine(section: string) { section != [] && LineEnd(section[0]) }

  /** Both markers end their lines, and neither the text above nor the forward section leaves a block comment open. */
  predicate Framed(parts: Parts) {
    && StartsLine(parts.forward) && StartsLine(parts.rollback)
    && !HasPair(StripBlocks(parts.head), '/', '*') && !HasPair(StripBlocks(Trim(parts.forward)), '/', '*')
  }

  /** What escapes the comment of a rollback section. */
  function EscapeOf(section: string): string {
    match CommentBody(section)
    case None => []
    case Some(body) => Escaped(body, Margins(section).1)
  }

  lemma MarkerShapes()
    ensures |FORWARD_MARKER| == 22 && |ROLLBACK_MARKER| == 53
    ensures ROLLBACK_MARKER[0] == '-' && ROLLBACK_MARKER[1] == '-' && FORWARD_MARKER[2] != '-' && FORWARD_MARKER[21] == '='
    ensures forall k | 2 <= k < 22 :: FORWARD_MARKER[k] != '-'
  {
    MarkerLines();
  }

  /** The markers do not overlap: no proper end of the one starts the other. */
  lemma MarkersApart(content: string)
    requires HasParts(content)
    ensures var f, r := IndexOf(content, FORWARD_MARKER).value, IndexOf(content, ROLLBACK_MARKER).value;
            f + |FORWARD_MARKER| <= r && r + |ROLLBACK_MARKER| <= |content|
  {
    hide OccursAt, Lacks, FORWARD_MARKER, ROLLBACK_MARKER;
    var f, r := IndexOf(content, FORWARD_MARKER).value, IndexOf(content, ROLLBACK_MARKER).value;
    hide IndexOf;
    MarkerShapes();
    NoOverlap(content, f, FORWARD_MARKER, r, ROLLBACK_MARKER);
  }

  lemma NoOverlap(s: string, f: nat, m: string, r: nat, n: string)
    requires OccursAt(s, f, m) && OccursAt(s, r, n) && f < r && |m| >= 3 && |n| >= 2 && n[0] == '-' && n[1] == '-'
    requires forall k | 2 <= k < |m| :: m[k] != '-'
    ensures f + |m| <= r && r + |n| <= |s|
  {
    Occurs(s, f, m);
    Occurs(s, r, n);
    hide OccursAt;
    OccurrenceAt(s, f, m, f + 2);
    OccurrenceAt(s, r, n, r);
    OccurrenceAt(s, r, n, r + 1);
    if r < f + |m| {
      OccurrenceAt(s, f, m, r);
      assert false;
    }
  }

  lemma Occurs(s: string, i: nat, needle: string)
    requires OccursAt(s, i, needle)
    ensures i + |needle| <= |s| && s[i..i + |needle|] == needle
  {
  }

  lemma PartsJoin(content: string)
    requires HasParts(content)
    ensures var parts := PartsOf(content);
            content == parts.head + (parts.forward + (ROLLBACK_MARKER + parts.rollback))
            && parts.head != [] && parts.head[|parts.head| - 1] == '='
  {
    hide IndexOf, OccursAt, Lacks, FORWARD_MARKER, ROLLBACK_MARKER;
    var f, r := IndexOf(content, FORWARD_MARKER).value, IndexOf(content, ROLLBACK_MARKER).value;
    var i, j := f + |FORWARD_MARKER|, r + |ROLLBACK_MARKER|;
    MarkersApart(content);
    MarkerShapes();
    Occurs(content, f, FORWARD_MARKER);
    Occurs(content, r, ROLLBACK_MARKER);
    assert content == content[..i] + (content[i..r] + (content[r..j] + content[j..]));
    OccurrenceAt(content, f, FORWARD_MARKER, f + 21);
  }

  lemma {:induction false} BlocksKeepLast(s: string)
    requires s != [] && s[|s| - 1] != '/'
    ensures StripBlocks(s) != [] && StripBlocks(s)[|StripBlocks(s)| - 1] == s[|s| - 1]
    decreases |s|
  {
    hide StripBlocks;
    BlocksStep(s);
    if OpensBlock(s) {
      BlocksKeepLast(AfterBlock(s));
    } else if |s| >= 2 {
      BlocksKeepLast(s[1..]);
    } else {
      NothingStripsToNothing();
      assert s[1..] == [];
    }
  }

  /** The text down to the forward marker ends in no comment start. */
  lemma HeadCloses(head: string)
    requires head != [] && head[|head| - 1] == '=' && !HasPair(StripBlocks(head), '/', '*')
    ensures ClosesBlocks(head)
  {
    BlocksKeepLast(head);
  }

  /** A text between white space opens no comment that the text does not open. */
  lemma BlankMakesNoPair(pre: string, b: string, post: string, x: char, y: char)
    requires Blank(pre) && Blank(post) && !IsSpace(x) && !IsSpace(y) && HasPair(pre + b + post, x, y)
    ensures HasPair(b, x, y)
  {
    var s := pre + b + post;
    forall j | 0 <= j < |pre| ensures IsSpace(s[j]) { assert s[j] == pre[j]; }
    forall j | |pre| + |b| <= j < |s| ensures IsSpace(s[j]) { assert s[j] == post[j - |pre| - |b|]; }
    var i: nat :| i < |s| && PairAt(s, i, x, y);
    assert PairAt(b, i - |pre|, x, y);
  }

  /** The forward section below its marker line is seamless and strips as its trimmed text does. */
  lemma ForwardPieces(section: string)
    requires StartsLine(section) && EndsWithSemicolon(Trim(section)) && !HasPair(StripBlocks(Trim(section)), '/', '*')
    ensures Seamless(section[1..]) && StripComments(section[1..]) == StripComments(Trim(section))
  {
    hide StripBlocks, StripComments, Trim, HasPair, Seamless, Margins;
    var (pre, post) := Margins(section);
    var f := Trim(section);
    FirstIsMargin(section, pre, f, post);
    StripMargins(pre[1..], f, post);
    BlankTail(pre);
    ShiftMargin(section, pre, f, post);
    BlocksKeepLast(f);
    SemicolonSeams(pre[1..], f, post);
  }

  lemma BlankTail(pre: string)
    requires Blank(pre) && pre != []
    ensures Blank(pre[1..])
  {
    assert forall i | 0 <= i < |pre[1..]| :: pre[1..][i] == pre[i + 1];
  }

  lemma ShiftMargin(section: string, pre: string, t: string, post: string)
    requires section == pre + t + post && pre != []
    ensures section[1..] == pre[1..] + t + post
  {
  }

  lemma SemicolonSeams(pre: string, f: string, post: string)
    requires Blank(pre) && Blank(post) && EndsWithSemicolon(StripBlocks(f)) && !HasPair(StripBlocks(f), '/', '*')
    requires StripBlocks(pre + f + post) == pre + StripBlocks(f) + post
    ensures Seamless(pre + f + post)
  {
    hide StripBlocks, IsSpace, HasPair;
    var b := StripBlocks(f);
    SlashIsVisible();
    if HasPair(pre + b + post, '/', '*') {
      BlankMakesNoPair(pre, b, post, '/', '*');
      assert false;
    }
    LastOfMargins(pre, b, post);
  }

  lemma SlashIsVisible()
    ensures !IsSpace('/') && !IsSpace('*') && !IsSpace('-') && !IsSpace(';')
  {
  }

  lemma LastOfMargins(pre: string, b: string, post: string)
    requires EndsWithSemicolon(b) && Blank(post)
    ensures var s := pre + b + post; s != [] && s[|s| - 1] != '/' && s[|s| - 1] != '-'
  {
    var s := pre + b + post;
    if post != [] {
      assert s[|s| - 1] == post[|post| - 1];
    } else {
      assert s[|s| - 1] == b[|b| - 1];
    }
  }

  lemma FirstIsMargin(section: string, pre: string, t: string, post: string)
    requires StartsLine(section) && section == pre + t + post && t != [] && !IsSpace(t[0])
    ensures pre != [] && pre[0] == section[0]
  {
    assert (pre + t + post)[|pre|] == t[0];
  }

  /** The rollback section below its marker line: white space, one comment, white space. */
  lemma RollbackPieces(section: string) returns (lead: string)
    requires StartsLine(section) && CommentBody(section).Some?
    ensures Blank(lead) && Blank(Margins(section).1)
    ensures section == [section[0]] + lead + ("/*" + CommentBody(section).value + "*/" + Margins(section).1)
  {
    hide Trim, CommentBody, Margins;
    var (pre, post) := Margins(section);
    var t := Trim(section);
    CommentShape(section);
    SlashIsVisible();
    FirstIsMargin(section, pre, t, post);
    BlankTail(pre);
    lead := pre[1..];
    RegroupSection(pre, CommentBody(section).value, post);
  }

  lemma RegroupSection(pre: string, body: string, post: string)
    requires pre != []
    ensures pre + ("/*" + body + "*/") + post == [pre[0]] + pre[1..] + ("/*" + body + "*/" + post)
  {
    assert pre == [pre[0]] + pre[1..];
  }

  lemma CommentShape(section: string)
    requires CommentBody(section).Some?
    ensures var t := Trim(section);
            t == "/*" + CommentBody(section).value + "*/" && t[0] == '/'
  {
    var t := Trim(section);
    assert t == t[..2] + t[2..|t| - 2] + t[|t| - 2..];
    assert t[..2] == "/*" && t[|t| - 2..] == "*/";
  }

  /** A file that the parser accepts, in pieces. */
  lemma AcceptedParts(p: Patterns, content: string)
    ensures Parsed(p, content).blockers == [] ==>
      (HasParts(content) && EndsWithSemicolon(Trim(PartsOf(content).forward)) && CommentBody(PartsOf(content).rollback).Some? &&
       Parsed(p, content).forwardSql == Trim(PartsOf(content).forward) &&
       Parsed(p, content).rollbackSql == Trim(CommentBody(PartsOf(content).rollback).value))
  {
    hide IndexOf, OccursAt, Lacks, Trim, CommentBody, GateBlockers, Slice;
    var f, r := IndexOf(content, FORWARD_MARKER), IndexOf(content, ROLLBACK_MARKER);
    if Parsed(p, content).blockers == [] {
      NoMarkerBlockers(content, Parsed(p, content).blockers);
    }
  }

  lemma NoMarkerBlockers(content: string, blockers: seq<Blocker>)
    ensures MarkerBlockers(content) == [] ==> HasParts(content)
  {
    hide IndexOf;
    var m := MarkerBlockers(content);
    assert |m| == 0 <==> m == [];
  }

  /** Whatever stands above the forward marker and inside the rollback section: an accepted file's statements are those
      of its forward text exactly when nothing above the forward marker is live and nothing escapes the comment. */
  lemma AcceptedFileExactly(p: Patterns, content: string)
    ensures Parsed(p, content).blockers == [] && Framed(PartsOf(content)) ==>
      (SplitStatements(content) == SplitStatements(Parsed(p, content).forwardSql) <==>
         StripComments(PartsOf(content).head) == [] && StripComments(EscapeOf(PartsOf(content).rollback)) == [])
  {
    hide Parsed, StripComments, SplitStatements, PartsOf, EscapeOf, Framed, HasParts, Trim, CommentBody;
    AcceptedParts(p, content);
    if Parsed(p, content).blockers == [] && Framed(PartsOf(content)) {
      FramedExactly(content);
      StatementsOfTrim(PartsOf(content).forward);
    }
  }

  lemma StatementsOfTrim(x: string)
    ensures SplitStatements(Trim(x)) == SplitStatements(x)
  {
    hide StripComments, Trim;
    StripOfTrim(x);
  }

  lemma FramedExactly(content: string)
    requires HasParts(content) && Framed(PartsOf(content))
    requires EndsWithSemicolon(Trim(PartsOf(content).forward)) && CommentBody(PartsOf(content).rollback).Some?
    ensures SplitStatements(content) == SplitStatements(PartsOf(content).forward)
       <==> StripComments(PartsOf(content).head) == [] && StripComments(EscapeOf(PartsOf(content).rollback)) == []
  {
    hide *;
    PartsJoin(content);
    JoinedExactly(PartsOf(content));
  }

  lemma JoinedExactly(parts: Parts)
    requires parts.head != [] && parts.head[|parts.head| - 1] == '=' && Framed(parts)
    requires EndsWithSemicolon(Trim(parts.forward)) && CommentBody(parts.rollback).Some?
    ensures SplitStatements(parts.head + (parts.forward + (ROLLBACK_MARKER + parts.rollback))) == SplitStatements(parts.forward)
       <==> StripComments(parts.head) == [] && StripComments(EscapeOf(parts.rollback)) == []
  {
    hide StripComments, StripBlocks, Trim, CommentBody, Seamless, ClosesBlocks, Statements, Escaped, Margins, HasPair, MarkerLine;
    var c, a, d := parts.forward[0], parts.forward[1..], parts.rollback[0];
    var body, tail := CommentBody(parts.rollback).value, Margins(parts.rollback).1;
    HeadCloses(parts.head);
    ForwardPieces(parts.forward);
    StatementsOfTrim(parts.forward);
    var lead := RollbackPieces(parts.rollback);
    TitleIsComment();
    SectionTail(c, a, ROLLBACK_MARKER + parts.rollback, parts.forward);
    PiecesExactly(parts.head, c, a, ROLLBACK_MARKER, d, lead, body, tail);
  }

  lemma SectionTail(c: char, a: string, rest: string, section: string)
    requires section != [] && c == section[0] && a == section[1..]
    ensures section + rest == [c] + (a + rest)
  {
    assert section == [c] + a;
  }

  // ---- two files that pass and are live where they should not be ----

  lemma VisibleTrimStart(s: string)
    ensures Visible(TrimStart(s)) == Visible(s)
  {
    hide IsSpace, Visible;
    var k := LeadingSpaces(s);
    assert s == s[..k] + TrimStart(s);
    NothingVisible(s[..k]);
    VisibleConcat(s[..k], TrimStart(s));
    assert [] + Visible(TrimStart(s)) == Visible(TrimStart(s));
  }

  lemma {:induction false} VisibleCollapse(s: string)
    ensures Visible(Collapse(s)) == Visible(s)
    decreases |s|
  {
    hide IsSpace;
    if s != [] {
      CollapseStep(s);
      VisibleConcat([s[0]], s[1..]);
      assert s == [s[0]] + s[1..];
      VisibleOfOne(s[0]);
      if IsSpace(s[0]) {
        VisibleTrimStart(s[1..]);
        VisibleCollapse(TrimStart(s[1..]));
        VisibleConcat(" ", Collapse(TrimStart(s[1..])));
        VisibleOfOne(' ');
      } else {
        VisibleCollapse(s[1..]);
        VisibleConcat([s[0]], Collapse(s[1..]));
      }
    }
  }

  lemma VisibleOfOne(c: char)
    ensures Visible([c]) == if IsSpace(c) then [] else [c]
    ensures IsSpace(' ')
  {
    assert [c][1..] == [];
  }

  /** Stripping keeps what is visible outside comments. */
  lemma StripVisible(s: string)
    ensures Visible(StripComments(s)) == Visible(StripLines(StripBlocks(s)))
  {
    VisibleCollapse(StripLines(StripBlocks(s)));
    VisibleOfTrim(Collapse(StripLines(StripBlocks(s))));
  }

  lemma VisibleIsLive(s: string, a: string, x: string, b: string)
    requires StripLines(StripBlocks(s)) == a + x + b && x != [] && !IsSpace(x[0])
    ensures StripComments(s) != []
  {
    StripVisible(s);
    hide IsSpace, StripComments, StripLines, StripBlocks;
    VisibleConcat(a + x, b);
    VisibleConcat(a, x);
    VisibleConcat([x[0]], x[1..]);
    assert x == [x[0]] + x[1..];
    VisibleOfOne(x[0]);
    assert Visible([]) == [];
  }

  /** An end mark in the rollback text lets what follows it out, and the parser accepts the file's shape: a rollback that
      drops the table which forward creates, and drops it again outside its comment. */
  lemma EscapeIsLive(p: Patterns)
    ensures var forward, rollback := "create table x(a int);", "drop table x; */ drop table x;";
            && Parsed(p, Render(forward, rollback)) == Manual(GateBlockers(p, forward, rollback), forward, rollback)
            && SplitStatements(Render(forward, rollback)) != SplitStatements(forward)
  {
    hide Statements, Render, GateBlockers, Collapse, Trim, Renderable, StripBlocks, HasPair, Parsed, RenderedEscape;
    var forward, rollback := "create table x(a int);", "drop table x; */ drop table x;";
    CreateIsRenderable(forward, rollback);
    ParseOfRender(p, forward, rollback);
    ShortIsClosed(forward);
    InactiveExactly(forward, rollback);
    EscapeShows();
  }

  lemma CreateIsRenderable(forward: string, rollback: string)
    requires forward == "create table x(a int);" && rollback == "drop table x; */ drop table x;"
    ensures Renderable(forward, rollback) && '/' !in forward
  {
    MarkerShapes();
    assert Trimmed(forward) && Trimmed(rollback);
  }

  lemma ShortIsRenderable(forward: string, rollback: string)
    requires Trimmed(forward) && Trimmed(rollback) && EndsWithSemicolon(forward) && EndsWithSemicolon(rollback) && |forward| < 10
    ensures Renderable(forward, rollback)
  {
    MarkerShapes();
  }

  lemma EscapeShows()
    ensures StripComments(RenderedEscape("drop table x; */ drop table x;")) != []
  {
    hide StripComments, Escaped;
    var inner, x := "\ndrop table x; ", "drop table x;";
    assert "\n" + "drop table x; */ drop table x;" + "\n" == inner + "*/" + (" " + x + "\n");
    EscapedIsLive(inner, x);
  }

  lemma EscapedIsLive(inner: string, x: string)
    requires '*' !in inner && '/' !in x && '-' !in x && x != [] && !IsSpace(x[0])
    ensures StripComments(Escaped(inner + "*/" + (" " + x + "\n"), "\n")) != []
  {
    var rest := " " + x + "\n";
    var body := inner + "*/" + rest;
    NoCharNoPair(inner, '*', '/');
    Regroup(inner, "*/", rest);
    FirstPair(inner, "*/" + rest);
    assert body == inner + ("*/" + rest) && AfterEndMark(body) == rest;
    var e := rest + "*/" + "\n";
    assert Escaped(body, "\n") == e && e == rest + ("*/" + "\n");
    BlocksPlainBefore(rest, "*/" + "\n");
    EndMarkStays();
    assert '-' !in e;
    PlainLines(e);
    assert e == " " + x + "\n*/\n";
    hide StripComments, StripBlocks, StripLines, HasPair;
    VisibleIsLive(e, " ", x, "\n*/\n");
  }

  lemma EndMarkStays()
    ensures StripBlocks("*/" + "\n") == "*/" + "\n"
  {
    var s := "*/" + "\n";
    BlocksStep(s);
    BlocksStep(s[1..]);
    BlocksStep(s[2..]);
    NothingStripsToNothing();
  }

  /** SQL between the header line and the forward marker is live, and no gate looks at it. */
  lemma PrefaceIsNotGated(p: Patterns)
    ensures var file := Layout(HEADER + "\ndrop table x;", FORWARD_MARKER, ROLLBACK_MARKER, "b;", "a;");
            && Parsed(p, file) == Manual(GateBlockers(p, "b;", "a;"), "b;", "a;")
            && SplitStatements(file) != SplitStatements("b;")
  {
    hide Statements, GateBlockers, Layout, StripComments, Parsed, Seamless, ClosesBlocks, MarkerLine, Escaped, Renderable, Lacks, StripBlocks, HasPair;
    var x, forward, rollback := "drop table x;", "b;", "a;";
    var h := HEADER + "\ndrop table x;";
    PrefaceIsTitled();
    ShortIsRenderable(forward, rollback);
    ParseOfFile(p, h, forward, rollback);
    PrefaceShows();
    TitleIsComment();
    LayoutIsPieces(h, FORWARD_MARKER, ROLLBACK_MARKER, forward, rollback);
    ShortIsClosed(forward);
    LineIsSeamless(forward);
    assert Blank("") && Blank("\n");
    PiecesExactly(h + ("\n" + FORWARD_MARKER), '\n', forward + "\n", ROLLBACK_MARKER, '\n', "", "\n" + rollback + "\n", "\n");
  }

  lemma ShortIsClosed(forward: string)
    requires '/' !in forward
    ensures !HasPair(StripBlocks(forward), '/', '*')
  {
    BlocksPlainBefore(forward, []);
    NothingStripsToNothing();
    NoCharNoPair(forward, '/', '*');
    assert forward + [] == forward;
  }

  lemma PrefaceIsTitled()
    ensures Titled(HEADER + "\ndrop table x;")
  {
    hide Lacks;
    HeaderIsTitled();
    MarkerLines();
    var x := "drop table x;";
    assert HEADER + "\ndrop table x;" == HEADER + "\n" + x;
    NoOccurrence(x, FORWARD_MARKER, 3);
    NoOccurrence(x, ROLLBACK_MARKER, 3);
    LacksLines(HEADER, x, FORWARD_MARKER);
    LacksLines(HEADER, x, ROLLBACK_MARKER);
  }

  lemma LacksLines(a: string, b: string, n: string)
    requires '\n' !in n && n != [] && Lacks(a, n) && Lacks(b, n)
    ensures Lacks(a + "\n" + b, n)
  {
    forall i: nat ensures !OccursAt(a + "\n" + b, i, n) {
      if OccursAt(a + "\n" + b, i, n) {
        OccursInLines(a, b, n, i);
        assert false;
      }
    }
  }

  lemma PrefaceShows()
    ensures var g := HEADER + "\ndrop table x;" + ("\n" + FORWARD_MARKER);
            ClosesBlocks(g) && StripComments(g) != []
  {
    hide ClosesBlocks, StripComments;
    MarkerLines();
    var x := "drop table x;";
    assert HEADER + "\ndrop table x;" == HEADER + ("\n" + x);
    PrefaceIsLive(HEADER, x, FORWARD_MARKER);
  }

  lemma PrefaceIsLive(header: string, x: string, m: string)
    requires PlainText(header) && PlainText(m) && '/' !in x && '-' !in x && x != [] && !IsSpace(x[0])
    ensures var g := header + ("\n" + x) + ("\n" + m); ClosesBlocks(g) && StripComments(g) != []
  {
    hide StripBlocks, StripLines, IsSpace, StripComments, HasPair;
    var g := header + ("\n" + x) + ("\n" + m);
    assert g == header + (['\n'] + (x + (['\n'] + m)));
    assert '/' !in g;
    ShortIsClosed(g);
    SlashlessIsKept(g);
    PlainLines(x);
    LinesSplit(header, '\n', x + (['\n'] + m));
    LinesSplit(x, '\n', m);
    var a, b := StripLines(header) + ['\n'], ['\n'] + StripLines(m);
    assert StripLines(g) == a + x + b;
    VisibleIsLive(g, a, x, b);
  }

  lemma SlashlessIsKept(g: string)
    requires '/' !in g
    ensures StripBlocks(g) == g && ClosesBlocks(g)
  {
    BlocksPlainBefore(g, []);
    NothingStripsToNothing();
    NoCharNoPair(g, '/', '*');
    assert g + [] == g && (g != [] ==> g[|g| - 1] in g);
  }

  lemma PlainLines(x: string)
    requires '-' !in x
    ensures StripLines(x) == x
  {
    NoCharNoPair(x, '-', '-');
    NoDashStripsNothing(x);
  }
}
