/** Concatenating SQL texts at a statement end. */
module SqlConcat {
  import opened Common
  import opened Text
  import opened SqlScan
  import opened SqlStatements
  import opened SqlClassify

  /** The text stops inside a line comment. */
  predicate InLineComment(s: string)
    decreases |s|
  {
    |s| >= 2 && (if s[0] == '-' && s[1] == '-'
                 then SkipLine(s[2..]) == [] || InLineComment(SkipLine(s[2..]))
                 else InLineComment(s[1..]))
  }

  /** Only whole statements, up to the very end. */
  predicate Consumed(s: string)
    decreases |s|
  {
    s == [] || (NextEnd(s).Some? && Consumed(s[NextEnd(s).value..]))
  }

  /** No block comment is left open, not even by half its start. */
  predicate ClosesBlocks(x: string) {
    var b := StripBlocks(x);
    !HasPair(b, '/', '*') && (b == [] || b[|b| - 1] != '/')
  }

  /** After the text's last statement come only white space and closed comments. */
  predicate EndsStatement(x: string) {
    && !HasPair(StripBlocks(x), '/', '*')
    && !InLineComment(StripBlocks(x))
    && Consumed(StripComments(x))
  }

  lemma {:induction false} FindPairPrefix(u: string, v: string, a: char, b: char)
    requires HasPair(u, a, b)
    ensures HasPair(u + v, a, b) && FindPair(u + v, a, b) == FindPair(u, a, b)
  {
    PairInConcat(u, v, a, b);
    assert (u + v)[0] == u[0] && (u + v)[1] == u[1];
    if !(u[0] == a && u[1] == b) {
      PairTail(u, a, b);
      FindPairPrefix(u[1..], v, a, b);
      assert (u + v)[1..] == u[1..] + v;
    }
  }

  lemma OpensBlockConcat(x: string, y: string)
    requires OpensBlock(x)
    ensures OpensBlock(x + y) && AfterBlock(x + y) == AfterBlock(x) + y
  {
    FindPairPrefix(x[2..], y, '*', '/');
    assert (x + y)[2..] == x[2..] + y;
  }

  /** An unclosed comment start would still show in the stripped text. */
  lemma NoOpenStart(x: string)
    requires x != [] && !OpensBlock(x) && ClosesBlocks(x)
    ensures !(x[0] == '/' && (|x| == 1 || x[1] == '*'))
    ensures ClosesBlocks(x[1..])
  {
    BlocksStep(x);
    PairTail(StripBlocks(x), '/', '*');
    assert StripBlocks(x)[1..] == StripBlocks(x[1..]);
  }

  lemma ClosesRest(x: string)
    requires OpensBlock(x) && ClosesBlocks(x)
    ensures ClosesBlocks(AfterBlock(x))
  {
    var rest := AfterBlock(x);
    BlocksStep(x);
    PairTail(StripBlocks(x), '/', '*');
    assert StripBlocks(x)[1..] == StripBlocks(rest);
  }

  lemma NotOpened(x: string, y: string)
    requires x != [] && !(x[0] == '/' && (|x| == 1 || x[1] == '*'))
    ensures !OpensBlock(x + y)
  {
  }

  lemma NothingStripsToNothing()
    ensures StripBlocks([]) == [] && StripLines([]) == []
  {
  }

  lemma Regroup<T>(a: seq<T>, b: seq<T>, c: seq<T>)
    ensures (a + b) + c == a + (b + c)
  {
  }

  lemma {:induction false} BlocksConcat(x: string, y: string)
    requires ClosesBlocks(x)
    ensures StripBlocks(x + y) == StripBlocks(x) + StripBlocks(y)
    decreases |x|
  {
    hide StripBlocks, OpensBlock, AfterBlock, ClosesBlocks;
    if x == [] {
      assert x + y == y;
      NothingStripsToNothing();
    } else {
      BlocksStep(x);
      BlocksStep(x + y);
      if OpensBlock(x) {
        var rest := AfterBlock(x);
        OpensBlockConcat(x, y);
        ClosesRest(x);
        BlocksConcat(rest, y);
        Regroup(" ", StripBlocks(rest), StripBlocks(y));
      } else {
        NoOpenStart(x);
        assert (x + y)[0] == x[0] && (x + y)[1..] == x[1..] + y;
        NotOpened(x, y);
        BlocksConcat(x[1..], y);
        Regroup([x[0]], StripBlocks(x[1..]), StripBlocks(y));
      }
    }
  }

  lemma {:induction false} SkipLineConcat(x: string, y: string)
    requires SkipLine(x) != []
    ensures SkipLine(x + y) == SkipLine(x) + y
  {
    if !LineEnd(x[0]) {
      assert (x + y)[1..] == x[1..] + y;
      SkipLineConcat(x[1..], y);
    }
  }

  lemma {:induction false} SkipNothingLeft(x: string, y: string)
    requires SkipLine(x) == []
    ensures SkipLine(x + y) == SkipLine(y)
  {
    if x == [] {
      assert x + y == y;
    } else {
      assert (x + y)[0] == x[0] && (x + y)[1..] == x[1..] + y;
      SkipNothingLeft(x[1..], y);
    }
  }

  lemma NotInLineComment(s: string)
    requires s != [] && !InLineComment(s)
    ensures if OpensLine(s) then SkipLine(s[2..]) != [] && !InLineComment(SkipLine(s[2..])) else !InLineComment(s[1..])
  {
  }

  lemma OpensLineConcat(x: string, y: string)
    requires x != [] && (x[|x| - 1] != '-' || y == [] || y[0] != '-')
    ensures OpensLine(x + y) <==> OpensLine(x)
  {
  }

  lemma {:induction false} LinesConcat(x: string, y: string)
    requires !InLineComment(x) && (x == [] || x[|x| - 1] != '-' || y == [] || y[0] != '-')
    ensures StripLines(x + y) == StripLines(x) + StripLines(y)
    decreases |x|
  {
    hide StripLines, SkipLine, InLineComment;
    if x == [] {
      assert x + y == y;
      NothingStripsToNothing();
    } else {
      LinesStep(x);
      LinesStep(x + y);
      NotInLineComment(x);
      OpensLineConcat(x, y);
      if OpensLine(x) {
        var rest := SkipLine(x[2..]);
        assert (x + y)[2..] == x[2..] + y;
        SkipLineConcat(x[2..], y);
        SkipLineIsSuffix(x[2..]);
        LinesConcat(rest, y);
        Regroup(" ", StripLines(rest), StripLines(y));
      } else {
        assert (x + y)[0] == x[0] && (x + y)[1..] == x[1..] + y;
        LinesConcat(x[1..], y);
        Regroup([x[0]], StripLines(x[1..]), StripLines(y));
      }
    }
  }

  lemma {:induction false} TrimStartConcat(x: string, y: string)
    requires TrimStart(x) != []
    ensures TrimStart(x + y) == TrimStart(x) + y
  {
    if IsSpace(x[0]) {
      assert (x + y)[1..] == x[1..] + y;
      TrimStartConcat(x[1..], y);
    } else {
      assert (x + y)[0] == x[0];
    }
  }

  lemma {:induction false} CollapseConcat(x: string, y: string)
    requires x == [] || !IsSpace(x[|x| - 1])
    ensures Collapse(x + y) == Collapse(x) + Collapse(y)
    decreases |x|
  {
    hide IsSpace, Collapse, TrimStart;
    if x == [] {
      NothingCollapses();
      assert x + y == y;
    } else {
      CollapseStep(x);
      CollapseStep(x + y);
      assert (x + y)[0] == x[0] && (x + y)[1..] == x[1..] + y;
      if IsSpace(x[0]) {
        var rest := TrimStart(x[1..]);
        MoreVisible(x);
        LastIsKept(x[1..]);
        TrimStartConcat(x[1..], y);
        TrimStartIsVisible(x[1..]);
        CollapseConcat(rest, y);
        Regroup(" ", Collapse(rest), Collapse(y));
      } else {
        MoreVisible(x);
        CollapseConcat(x[1..], y);
        Regroup([x[0]], Collapse(x[1..]), Collapse(y));
      }
    }
  }

  lemma NothingCollapses()
    ensures Collapse([]) == [] && forall y: string :: [] + y == y
  {
  }

  /** A text that ends visibly and has more characters still ends visibly without its first. */
  lemma MoreVisible(x: string)
    requires x != [] && !IsSpace(x[|x| - 1])
    ensures x[1..] == [] || x[1..][|x[1..]| - 1] == x[|x| - 1]
    ensures IsSpace(x[0]) ==> x[1..] != []
  {
  }

  lemma LastIsKept(s: string)
    requires s != [] && !IsSpace(s[|s| - 1])
    ensures TrimStart(s) != [] && TrimStart(s)[|TrimStart(s)| - 1] == s[|s| - 1]
  {
    var k := LeadingSpaces(s);
    if k == |s| {
      AllBlank(s, |s| - 1);
      assert false;
    }
  }

  // ---- the end of a text ----

  predicate EndsWithSemicolon(s: string) { s != [] && s[|s| - 1] == ';' }

  lemma {:induction false} LinesKeepLast(s: string)
    requires s != [] && !InLineComment(s)
    ensures StripLines(s) != [] && StripLines(s)[|StripLines(s)| - 1] == s[|s| - 1]
    decreases |s|
  {
    if |s| >= 2 {
      SkipLineIsSuffix(s[2..]);
      LinesKeepLast(if s[0] == '-' && s[1] == '-' then SkipLine(s[2..]) else s[1..]);
    }
  }

  predicate EndsVisible(s: string) { s != [] && !IsSpace(s[|s| - 1]) }

  lemma {:induction false} CollapseKeepsEnd(s: string)
    requires EndsVisible(s)
    ensures EndsVisible(Collapse(s)) && Collapse(s)[|Collapse(s)| - 1] == s[|s| - 1]
    decreases |s|
  {
    if |s| >= 2 {
      if IsSpace(s[0]) {
        LastIsKept(s[1..]);
        CollapseKeepsEnd(TrimStart(s[1..]));
      } else {
        CollapseKeepsEnd(s[1..]);
      }
    }
  }

  lemma {:induction false} ConsumedEnds(s: string)
    requires Consumed(s) && s != []
    ensures s[|s| - 1] == ';'
    decreases |s|
  {
    var k := NextEnd(s).value;
    if k < |s| {
      ConsumedEnds(s[k..]);
    }
  }

  /** What comes before the statement's end is nothing that a following text could join. */
  lemma StatementEndsSafely(x: string)
    requires EndsStatement(x)
    ensures var b := StripBlocks(x); b == [] || b[|b| - 1] == ';' || IsSpace(b[|b| - 1])
  {
    hide StripBlocks, StripLines, InLineComment, Collapse, Trim, Consumed, IsSpace, HasPair;
    var b := StripBlocks(x);
    if b != [] && !IsSpace(b[|b| - 1]) {
      LinesKeepLast(b);
      CollapseKeepsEnd(StripLines(b));
      var u := Collapse(StripLines(b));
      var pre := VisibleMargin(u);
      assert u[|u| - 1] == Trim(u)[|Trim(u)| - 1];
      ConsumedEnds(StripComments(x));
    }
  }

  /** Stripping the concatenation strips the parts, up to blanks between them. */
  lemma StripConcat(x: string, y: string) returns (gap: string)
    requires ClosesBlocks(x) && !InLineComment(StripBlocks(x))
    requires var b := StripBlocks(x); b == [] || b[|b| - 1] != '-'
    ensures Blank(gap) && StripComments(x + y) == StripComments(x) + gap + StripComments(y)
  {
    hide HasPair;
    BlocksConcat(x, y);
    LinesConcat(StripBlocks(x), StripBlocks(y));
    hide StripBlocks, StripLines, InLineComment, TrimCollapse, ClosesBlocks;
    gap := TrimCollapseConcat(StripLines(StripBlocks(x)), StripLines(StripBlocks(y)));
    StripIsTrimCollapse(x);
    StripIsTrimCollapse(y);
    StripIsTrimCollapse(x + y);
  }

  lemma VisibleMargin(u: string) returns (pre: string)
    requires EndsVisible(u)
    ensures Blank(pre) && u == pre + Trim(u) && Trim(u) != [] && Trimmed(Trim(u))
  {
    hide IsSpace;
    assert TrimEnd(u) == u;
    LastIsKept(u);
    TrimIsTrimmed(u);
    pre := u[..LeadingSpaces(u)];
  }

  lemma TrimConcat(u: string, v: string) returns (gap: string)
    requires EndsVisible(u)
    ensures Blank(gap) && Trim(u + v) == Trim(u) + gap + Trim(v)
  {
    hide Trim, IsSpace, Blank;
    var head := VisibleMargin(u);
    var t := Trim(u);
    BlankTrims(v);
    if Blank(v) {
      gap := [];
      BlankTrims([]);
      TrimOfTrimmed([]);
      assert u + v == head + t + v && t + gap + Trim(v) == t;
      TrimInside(head, t, v);
    } else {
      var (pre, post) := Margins(v);
      gap := pre;
      var s := t + pre + Trim(v);
      assert u + v == head + s + post;
      assert s[0] == t[0] && s[|s| - 1] == Trim(v)[|Trim(v)| - 1];
      TrimInside(head, s, post);
    }
  }

  lemma {:induction false} CollapseOfBlank(s: string)
    requires Blank(s)
    ensures Blank(Collapse(s))
    decreases |s|
  {
    if s != [] {
      var k := LeadingSpaces(s[1..]);
      assert k == |s| - 1;
    }
  }

  function TrimCollapse(s: string): string { Trim(Collapse(s)) }

  lemma TrimDropsBlank(s: string, b: string)
    requires Blank(b)
    ensures Trim(s + b) == Trim(s)
  {
    hide Trim, Blank;
    BlankTrims(s);
    if Blank(s) {
      BlankConcat(s, b);
      BlankTrims(s + b);
    } else {
      var (pre, post) := Margins(s);
      assert s + b == pre + Trim(s) + (post + b);
      BlankConcat(post, b);
      TrimInside(pre, Trim(s), post + b);
    }
  }

  /** The collapsed form without its leading blank. */
  lemma CollapseFromVisible(s: string)
    requires !Blank(s)
    ensures TrimCollapse(s) == TrimCollapse(TrimStart(s))
  {
    if IsSpace(s[0]) {
      CollapseStep(s);
      var k := LeadingSpaces(s[1..]);
      assert TrimStart(s) == TrimStart(s[1..]);
      assert Blank(" ");
      TrimSkipsBlank(" ", Collapse(TrimStart(s)));
    }
  }

  lemma TrimStartSkipsBlank(b: string, s: string)
    requires Blank(b) && !Blank(s)
    ensures TrimStart(b + s) == TrimStart(s)
  {
    var k := LeadingSpaces(s);
    assert s == s[..k] + TrimStart(s);
    assert k < |s|;
    BlankConcat(b, s[..k]);
    assert b + s == (b + s[..k]) + TrimStart(s);
    TrimStartInside(b + s[..k], TrimStart(s));
  }

  lemma BlankBefore(b: string, s: string)
    requires Blank(b)
    ensures TrimCollapse(b + s) == TrimCollapse(s)
  {
    BlankConcat(b, s);
    if Blank(s) {
      CollapseOfBlank(s);
      CollapseOfBlank(b + s);
      BlankTrims(Collapse(s));
      BlankTrims(Collapse(b + s));
    } else {
      CollapseFromVisible(s);
      CollapseFromVisible(b + s);
      TrimStartSkipsBlank(b, s);
    }
  }

  lemma BlankAfter(s: string, b: string)
    requires Blank(b)
    ensures TrimCollapse(s + b) == TrimCollapse(s)
  {
    var e := TrimEnd(s);
    var post := s[|e|..];
    assert s == e + post && s + b == e + (post + b);
    BlankConcat(post, b);
    CollapseConcat(e, post);
    CollapseConcat(e, post + b);
    CollapseOfBlank(post);
    CollapseOfBlank(post + b);
    TrimDropsBlank(Collapse(e), Collapse(post));
    TrimDropsBlank(Collapse(e), Collapse(post + b));
  }

  lemma StripIsTrimCollapse(s: string)
    ensures StripComments(s) == TrimCollapse(StripLines(StripBlocks(s)))
  {
  }

  /** Trimming and collapsing a concatenation does so to the parts, up to blanks between them. */
  lemma TrimCollapseConcat(a: string, b: string) returns (gap: string)
    ensures Blank(gap) && TrimCollapse(a + b) == TrimCollapse(a) + gap + TrimCollapse(b)
  {
    if Blank(a) {
      BlankBefore(a, b);
      CollapseOfBlank(a);
      BlankTrims(Collapse(a));
      gap := [];
      BlankTrims([]);
    } else {
      var e := TrimEnd(a);
      var post := a[|e|..];
      assert a == e + post && a + b == e + (post + b);
      assert e != [] by { BlankTrims(a); }
      CollapseConcat(e, post + b);
      CollapseKeepsEnd(e);
      hide Collapse, Trim, Blank;
      gap := TrimConcat(Collapse(e), Collapse(post + b));
      BlankBefore(post, b);
      BlankAfter(e, post);
    }
  }

  lemma NextEndConcat(s: string, t: string)
    requires NextEnd(s).Some?
    ensures NextEnd(s + t) == NextEnd(s)
  {
    FirstEndPrefix(s, t, Unquoted, false);
  }

  lemma NothingHasNoStatements()
    ensures Statements([]) == []
  {
  }

  lemma ConsumedStep(s: string) returns (k: nat)
    requires s != [] && Consumed(s)
    ensures 1 <= k <= |s| && NextEnd(s) == Some(k) && Consumed(s[k..])
  {
    k := NextEnd(s).value;
  }

  lemma {:induction false} StatementsConcat(s: string, t: string)
    requires Consumed(s)
    ensures Statements(s + t) == Statements(s) + Statements(t)
    decreases |s|
  {
    hide NextEnd, Consumed, Trim, Statements;
    if s == [] {
      assert s + t == t;
      NothingHasNoStatements();
    } else {
      var k := ConsumedStep(s);
      NextEndConcat(s, t);
      StatementsUnfold(s, k);
      StatementsUnfold(s + t, k);
      assert (s + t)[..k] == s[..k] && (s + t)[k..] == s[k..] + t;
      StatementsConcat(s[k..], t);
      Regroup([Trim(s[..k])], Statements(s[k..]), Statements(t));
    }
  }

  lemma StripEnded(x: string, y: string) returns (gap: string)
    requires EndsStatement(x)
    ensures Blank(gap) && StripComments(x + y) == StripComments(x) + (gap + StripComments(y))
  {
    StatementEndsSafely(x);
    SemicolonIsVisible();
    hide StripComments, StripBlocks, InLineComment, Consumed, HasPair;
    assert !IsSpace('/') && !IsSpace('-');
    gap := StripConcat(x, y);
    Regroup(StripComments(x), gap, StripComments(y));
  }

  /** Appending to a text that ends a statement appends its statements. */
  lemma SplitOfConcat(x: string, y: string)
    requires EndsStatement(x)
    ensures SplitStatements(x + y) == SplitStatements(x) + SplitStatements(y)
  {
    hide StripComments, Statements, StripBlocks, InLineComment, Consumed;
    var gap := StripEnded(x, y);
    StatementsConcat(StripComments(x), gap + StripComments(y));
    StatementsSkipBlank(gap, StripComments(y));
  }

  lemma {:induction false} HighestConcat(lex: Lexicon, a: seq<string>, b: seq<string>)
    ensures Highest(lex, a + b) == Higher(Highest(lex, a), Highest(lex, b))
  {
    hide OwnLevel;
    if a == [] {
      assert a + b == b;
    } else {
      assert (a + b)[0] == a[0] && (a + b)[1..] == a[1..] + b;
      HighestConcat(lex, a[1..], b);
    }
  }

  /** So the level of the whole is the higher of the levels of the parts. */
  lemma LevelOfConcat(lex: Lexicon, x: string, y: string)
    requires EndsStatement(x)
    ensures Classified(lex, x + y).level == Higher(Classified(lex, x).level, Classified(lex, y).level)
  {
    hide SplitStatements, Classified, EndsStatement, OwnLevel;
    SplitOfConcat(x, y);
    LevelIsHighest(lex, x);
    LevelIsHighest(lex, y);
    LevelIsHighest(lex, x + y);
    HighestConcat(lex, SplitStatements(x), SplitStatements(y));
  }
}
