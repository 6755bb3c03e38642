/** Comment marks inside quotes (src/core/db-safety.ts 45-51, 70-83): the stripper does not know quotes, so it is compared
    with a scan that knows quotes and comments together. */
module SqlQuotes {
  import opened Common
  import opened Text
  import opened SqlScan
  import opened SqlStatements
  import opened SqlClassify
  import opened SqlConcat
  import opened ManualLive

  /** One pass over the text with the splitter's own notion of quotes: outside them, a closed block comment and a line
      comment become a blank; inside them every character stays. */
  function Aware(s: string, q: Quote, escaped: bool): string
    decreases |s|
  {
    if s == [] then []
    else if q == Unquoted && OpensBlock(s) then " " + Aware(AfterBlock(s), Unquoted, false)
    else if q == Unquoted && OpensLine(s) then " " + Aware(SkipLine(s[2..]), Unquoted, false)
    else [s[0]] + Aware(s[1..], Toggle(q, s[0], escaped), s[0] == '\\')
  }

  /** On that pass, no comment mark is met inside quotes. */
  predicate QuotesPlain(s: string, q: Quote, escaped: bool)
    decreases |s|
  {
    if s == [] then true
    else if q == Unquoted && OpensBlock(s) then QuotesPlain(AfterBlock(s), Unquoted, false)
    else if q == Unquoted && OpensLine(s) then QuotesPlain(SkipLine(s[2..]), Unquoted, false)
    else
      (q != Unquoted ==> !OpensBlock(s) && !OpensLine(s)) && QuotesPlain(s[1..], Toggle(q, s[0], escaped), s[0] == '\\')
  }

  /** Up to its line end, no closed block comment starts. */
  predicate LinePlain(t: string) { t == [] || LineEnd(t[0]) || (!OpensBlock(t) && LinePlain(t[1..])) }

  /** On that pass, no closed block comment starts inside a line comment. */
  predicate LinesPlain(s: string, q: Quote, escaped: bool)
    decreases |s|
  {
    if s == [] then true
    else if q == Unquoted && OpensBlock(s) then LinesPlain(AfterBlock(s), Unquoted, false)
    else if q == Unquoted && OpensLine(s) then LinePlain(s[2..]) && LinesPlain(SkipLine(s[2..]), Unquoted, false)
    else LinesPlain(s[1..], Toggle(q, s[0], escaped), s[0] == '\\')
  }

  /** The source's two passes, before white space is collapsed. */
  function Stripped(s: string): string { StripLines(StripBlocks(s)) }

  lemma {:induction false} SkipOfBlocks(t: string)
    requires LinePlain(t)
    ensures SkipLine(StripBlocks(t)) == StripBlocks(SkipLine(t))
  {
    hide StripBlocks, SkipLine, OpensBlock;
    SkipLineStep(t);
    if t == [] {
      NothingStripsToNothing();
      SkipLineStep([]);
    } else {
      BlocksStep(t);
      SkipLineStep(StripBlocks(t));
      if LineEnd(t[0]) {
        LineEndOpensNothing(t);
      } else {
        assert StripBlocks(t)[1..] == StripBlocks(t[1..]);
        SkipOfBlocks(t[1..]);
      }
    }
  }

  lemma LineEndOpensNothing(t: string)
    requires t != [] && LineEnd(t[0])
    ensures !OpensBlock(t)
  {
  }

  lemma StrippedBlock(s: string)
    requires OpensBlock(s)
    ensures Stripped(s) == " " + Stripped(AfterBlock(s))
  {
    hide StripBlocks, StripLines;
    BlocksStep(s);
    LinesStep(" " + StripBlocks(AfterBlock(s)));
    assert (" " + StripBlocks(AfterBlock(s)))[1..] == StripBlocks(AfterBlock(s));
  }

  /** A line comment, whatever stands in its line. */
  lemma StrippedLine(s: string)
    requires OpensLine(s)
    ensures Stripped(s) == " " + StripLines(SkipLine(StripBlocks(s[2..])))
  {
    hide StripBlocks, StripLines, SkipLine;
    var x := StripBlocks(s[2..]);
    BlocksStep(s);
    BlocksStep(s[1..]);
    assert s[1..][1..] == s[2..];
    var b := StripBlocks(s);
    assert b == [s[0]] + ([s[1]] + x) && b[2..] == x;
    LinesStep(b);
  }

  lemma StrippedPlainLine(s: string)
    requires OpensLine(s) && LinePlain(s[2..])
    ensures Stripped(s) == " " + Stripped(SkipLine(s[2..]))
  {
    hide StripBlocks, StripLines, SkipLine, LinePlain;
    StrippedLine(s);
    SkipOfBlocks(s[2..]);
  }

  lemma StrippedChar(s: string)
    requires s != [] && !OpensBlock(s) && !OpensLine(s)
    ensures Stripped(s) == [s[0]] + Stripped(s[1..])
  {
    hide StripBlocks, StripLines, OpensBlock;
    BlocksStep(s);
    var b, x := StripBlocks(s), StripBlocks(s[1..]);
    assert b[0] == s[0] && b[1..] == x;
    LinesStep(b);
    if s[1..] != [] {
      BlocksFirst(s[1..]);
      assert b[1] == x[0] && s[1..][0] == s[1];
    } else {
      NothingStripsToNothing();
    }
  }

  lemma SameHead(c: char, x: string, y: string)
    ensures [c] + x == [c] + y <==> x == y
  {
    assert ([c] + x)[1..] == x && ([c] + y)[1..] == y;
  }

  lemma DifferentHead(x: string, y: string, c: char)
    requires c != ' '
    ensures " " + x != [c] + y
  {
    assert (" " + x)[0] == ' ' && ([c] + y)[0] == c;
  }

  /** From any point of the pass on, the two scans agree exactly when no further comment mark is met inside quotes. */
  lemma {:induction false} AgreeFrom(s: string, q: Quote, escaped: bool)
    requires LinesPlain(s, q, escaped)
    ensures Stripped(s) == Aware(s, q, escaped) <==> QuotesPlain(s, q, escaped)
    decreases |s|
  {
    hide OpensBlock, LinePlain, Stripped, Toggle, SkipLine;
    if s == [] {
      NothingStripped();
    } else if q == Unquoted && OpensBlock(s) {
      StrippedBlock(s);
      AgreeFrom(AfterBlock(s), Unquoted, false);
      SameHead(' ', Stripped(AfterBlock(s)), Aware(AfterBlock(s), Unquoted, false));
    } else if q == Unquoted && OpensLine(s) {
      StrippedPlainLine(s);
      SkipIsShorter(s);
      AgreeFrom(SkipLine(s[2..]), Unquoted, false);
      SameHead(' ', Stripped(SkipLine(s[2..])), Aware(SkipLine(s[2..]), Unquoted, false));
    } else {
      var q', e' := Toggle(q, s[0], escaped), s[0] == '\\';
      if OpensBlock(s) {
        StrippedBlock(s);
        MarksAreVisible(s);
        DifferentHead(Stripped(AfterBlock(s)), Aware(s[1..], q', e'), s[0]);
      } else if OpensLine(s) {
        StrippedLine(s);
        MarksAreVisible(s);
        DifferentHead(StripLines(SkipLine(StripBlocks(s[2..]))), Aware(s[1..], q', e'), s[0]);
      } else {
        StrippedChar(s);
        AgreeFrom(s[1..], q', e');
        SameHead(s[0], Stripped(s[1..]), Aware(s[1..], q', e'));
      }
    }
  }

  lemma NothingStripped()
    ensures Stripped([]) == []
  {
  }

  lemma SkipIsShorter(s: string)
    requires OpensLine(s)
    ensures |SkipLine(s[2..])| < |s|
  {
  }

  lemma MarksAreVisible(s: string)
    requires OpensBlock(s) || OpensLine(s)
    ensures s[0] != ' '
  {
  }

  /** Where no closed block comment starts inside a line comment, the stripper agrees with the scan that knows quotes if
      and only if no quoted text holds a comment mark; the statements are then that scan's. */
  lemma AgreeExactly(sql: string)
    requires LinesPlain(sql, Unquoted, false)
    ensures Stripped(sql) == Aware(sql, Unquoted, false) <==> QuotesPlain(sql, Unquoted, false)
    ensures QuotesPlain(sql, Unquoted, false) ==>
      SplitStatements(sql) == Statements(TrimCollapse(Aware(sql, Unquoted, false)))
  {
    hide Statements, Aware, QuotesPlain, LinesPlain, StripLines, StripBlocks, TrimCollapse;
    AgreeFrom(sql, Unquoted, false);
    StripIsTrimCollapse(sql);
  }

  // ---- two texts whose second statement is not seen ----

  lemma {:induction false} NoSemicolonNoEnd(s: string, q: Quote, escaped: bool)
    requires ';' !in s
    ensures FirstEnd(s, q, escaped) == None
  {
    if s != [] {
      assert s[0] in s && forall c | c in s[1..] :: c in s;
      NoSemicolonNoEnd(s[1..], Toggle(q, s[0], escaped), s[0] == '\\');
    }
  }

  lemma DashlessLines(u: string)
    requires '-' !in u
    ensures StripLines(u) == u
  {
    NoCharNoPair(u, '-', '-');
    NoDashStripsNothing(u);
  }

  /** A text followed by one line comment strips to the text. */
  lemma CommentCut(u: string, n: string)
    requires '-' !in u && SingleSpaced(u) && Trimmed(u)
    requires OpensLine(n) && forall c | c in n :: !LineEnd(c)
    ensures TrimCollapse(StripLines(u + n)) == u
  {
    hide StripLines;
    assert u != [] ==> u[|u| - 1] in u;
    DashlessLines(u);
    var pad := CommentLineVanishes(u, n);
    BlankAfter(u, pad);
    SingleSpacedCollapsesNothing(u);
    TrimOfTrimmed(u);
  }

  /** A quoted line comment mark hides the rest of its line: the drop is not a statement, and is never classified. */
  lemma QuotedMarkHides()
    ensures SplitStatements("select '--'; drop table x;") == ["select '"]
    ensures !QuotesPlain("select '--'; drop table x;", Unquoted, false)
  {
    hide *;
    SelectShape();
    DropShape();
    QuotedText();
    LineIsCut("select '", "--'; drop table x;");
    CutStatements("select '", "--'; drop table x;");
    QuotedMarkIsMet("select ", "--'; drop table x;");
  }

  lemma SelectShape()
    ensures var u := "select '"; SingleSpaced(u) && Trimmed(u) && '-' !in u && '*' !in u && ';' !in u && u != []
    ensures var w := "select "; '/' !in w && '-' !in w && '\'' !in w && '"' !in w && '\\' !in w
  {
  }

  lemma DropShape()
    ensures var n := "--'; drop table x;"; OpensLine(n) && '*' !in n && forall c | c in n :: !LineEnd(c)
  {
  }

  lemma QuotedText()
    ensures "select '--'; drop table x;" == "select '" + "--'; drop table x;"
    ensures "select '--'; drop table x;" == "select " + ("'" + "--'; drop table x;")
  {
  }

  lemma CutStatements(u: string, n: string)
    requires StripComments(u + n) == u && ';' !in u && u != [] && Trimmed(u)
    ensures SplitStatements(u + n) == [u]
  {
    hide Statements, StripComments, Trimmed;
    OneStatement(u);
  }

  lemma LineIsCut(u: string, n: string)
    requires '*' !in u && '*' !in n && '-' !in u && SingleSpaced(u) && Trimmed(u)
    requires OpensLine(n) && forall c | c in n :: !LineEnd(c)
    ensures StripComments(u + n) == u
  {
    hide StripBlocks, StripLines, Collapse, Trim, SingleSpaced, Trimmed, OpensLine, HasPair;
    NoCharNoPair(u + n, '*', '/');
    NothingClosesNothingStripped(u + n);
    CommentCut(u, n);
    StripIsTrimCollapse(u + n);
  }

  lemma OneStatement(u: string)
    requires ';' !in u && u != [] && Trimmed(u)
    ensures Statements(u) == [u]
  {
    NoSemicolonNoEnd(u, Unquoted, false);
    TrimOfTrimmed(u);
    BlankTrims(u);
  }

  lemma QuotedMarkIsMet(w: string, n: string)
    requires '/' !in w && '-' !in w && '\'' !in w && '"' !in w && '\\' !in w && OpensLine(n)
    ensures !QuotesPlain(w + ("'" + n), Unquoted, false)
  {
    hide QuotesPlain, OpensLine;
    PlainBefore(w, "'" + n);
    QuoteStep("'" + n);
    assert ("'" + n)[1..] == n;
    MarkStep(n);
  }

  lemma {:induction false} PlainBefore(w: string, t: string)
    requires '/' !in w && '-' !in w && '\'' !in w && '"' !in w && '\\' !in w
    ensures QuotesPlain(w + t, Unquoted, false) == QuotesPlain(t, Unquoted, false)
  {
    if w == [] {
      assert w + t == t;
    } else {
      assert w[0] in w && forall c | c in w[1..] :: c in w;
      assert (w + t)[0] == w[0] && (w + t)[1..] == w[1..] + t;
      PlainBefore(w[1..], t);
    }
  }

  lemma QuoteStep(t: string)
    requires t != [] && t[0] == '\''
    ensures QuotesPlain(t, Unquoted, false) == QuotesPlain(t[1..], Quoted('\''), false)
  {
  }

  lemma MarkStep(t: string)
    requires OpensLine(t)
    ensures !QuotesPlain(t, Quoted('\''), false)
  {
  }

  /** A block comment that starts inside a line comment hides the lines down to its end. */
  lemma BlockInLineHides()
    ensures SplitStatements("select 1; -- /*\ndrop table x; -- */") == ["select 1;"]
    ensures !LinesPlain("-- /*\ndrop table x; -- */", Unquoted, false)
  {
    hide StripBlocks, StripLines, Statements, Collapse, Trim, HasPair;
    var u, body := "select 1;", "\ndrop table x; -- ";
    var pre := u + " -- ";
    assert '*' !in body && '/' !in pre;
    NoCharNoPair(body, '*', '/');
    var comment := "/*" + body + "*/" + [];
    assert "select 1; -- /*\ndrop table x; -- */" == pre + comment;
    BlocksPlainBefore(pre, comment);
    CommentVanishes(body, []);
    NothingStripsToNothing();
    assert StripBlocks(pre + comment) == (u + " ") + "--  ";
    SpacedComment(u);
    StripIsTrimCollapse(pre + comment);
    WholeStatement(u);
    InnerBlock();
  }

  lemma SpacedComment(u: string)
    requires u == "select 1;"
    ensures TrimCollapse(StripLines((u + " ") + "--  ")) == u
  {
    hide StripLines, Collapse, Trim;
    assert '-' !in u + " ";
    DashlessLines(u + " ");
    var pad := CommentLineVanishes(u + " ", "--  ");
    assert Blank(" ");
    BlankAfter(u + " ", pad);
    BlankAfter(u, " ");
    assert SingleSpaced(u) && Trimmed(u);
    SingleSpacedCollapsesNothing(u);
    TrimOfTrimmed(u);
  }

  lemma WholeStatement(u: string)
    requires u == "select 1;"
    ensures Statements(u) == [u]
  {
    var body := "select 1";
    assert u == body + ";" && Trimmed(u);
    EndAfter(body, ";", Unquoted, false);
    assert u[9..] == [] && u[..9] == u;
    TrimOfTrimmed(u);
  }

  lemma {:induction false} EndAfter(body: string, rest: string, q: Quote, escaped: bool)
    requires q == Unquoted && rest != [] && rest[0] == ';'
    requires ';' !in body && '\'' !in body && '"' !in body
    ensures FirstEnd(body + rest, q, escaped) == Some(|body| + 1)
  {
    if body == [] {
      assert body + rest == rest;
    } else {
      assert body[0] in body && forall c | c in body[1..] :: c in body;
      assert (body + rest)[0] == body[0] && (body + rest)[1..] == body[1..] + rest;
      EndAfter(body[1..], rest, q, body[0] == '\\');
    }
  }

  lemma InnerBlock()
    ensures !LinesPlain("-- /*\ndrop table x; -- */", Unquoted, false)
  {
    var body := "\ndrop table x; -- ";
    assert "-- /*\ndrop table x; -- */" == "--" + (" " + ("/*" + body + "*/"));
    assert '*' !in body;
    LineWithBlock(body);
  }

  lemma LineWithBlock(body: string)
    requires '*' !in body
    ensures !LinesPlain("--" + (" " + ("/*" + body + "*/")), Unquoted, false)
  {
    var c := "/*" + body + "*/";
    NoCharNoPair(body, '*', '/');
    FirstPair(body, "*/");
    assert c[2..] == body + "*/" && OpensBlock(c);
    var t := " " + c;
    assert t[1..] == c && !LinePlain(c) && !LinePlain(t);
    var s := "--" + t;
    assert s[2..] == t && OpensLine(s) && !OpensBlock(s);
  }
}
