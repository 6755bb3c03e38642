/** SQL texts that leave a block comment open: the part before it, and what a following text makes of both. */
module SqlOpen {
  import opened Common
  import opened Text
  import opened SqlScan
  import opened SqlStatements
  import opened SqlConcat

  /** The text up to the first comment start that nothing closes. */
  function ClosedPart(s: string): (r: string)
    ensures |r| <= |s| && r == s[..|r|]
    decreases |s|
  {
    if s == [] then []
    else if OpensBlock(s) then s[..|s| - |AfterBlock(s)|] + ClosedPart(AfterBlock(s))
    else if OpensComment(s) then []
    else [s[0]] + ClosedPart(s[1..])
  }

  predicate OpensComment(s: string) { |s| >= 2 && s[0] == '/' && s[1] == '*' }

  /** The text from that comment start on. */
  function OpenPart(s: string): (r: string)
    ensures s == ClosedPart(s) + r
  {
    s[|ClosedPart(s)|..]
  }

  /** A comment start that nothing in the text closes. */
  predicate Unclosed(s: string) { OpensComment(s) && !HasPair(s[2..], '*', '/') }

  lemma ClosedPartStep(s: string)
    requires s != []
    ensures ClosedPart(s) ==
      if OpensBlock(s) then s[..|s| - |AfterBlock(s)|] + ClosedPart(AfterBlock(s))
      else if OpensComment(s) then [] else [s[0]] + ClosedPart(s[1..])
  {
  }

  lemma {:induction false} OpenPartShape(s: string)
    ensures OpenPart(s) == [] || Unclosed(OpenPart(s))
    decreases |s|
  {
    hide HasPair, ClosedPart;
    if s != [] {
      ClosedPartStep(s);
      if OpensBlock(s) {
        OpenPartShape(AfterBlock(s));
        assert OpenPart(s) == OpenPart(AfterBlock(s));
      } else if !OpensComment(s) {
        OpenPartShape(s[1..]);
        assert OpenPart(s) == OpenPart(s[1..]);
      }
    }
  }

  // ---- texts whose comments are closed ----

  /** A comment start that nothing closes comes through the block stripper. */
  lemma UnclosedStays(s: string)
    requires Unclosed(s)
    ensures StripBlocks(s) == s && HasPair(s, '/', '*')
  {
    assert PairAt(s, 0, '/', '*');
    BlocksStep(s);
    BlocksStep(s[1..]);
    assert s[1..][1..] == s[2..];
    NothingClosesNothingStripped(s[2..]);
    assert s == [s[0]] + ([s[1]] + s[2..]);
  }

  lemma OpenStartShows(x: string)
    requires OpensComment(x) && !OpensBlock(x)
    ensures HasPair(StripBlocks(x), '/', '*')
  {
    UnclosedStays(x);
  }

  lemma StartStaysClosed(x: string, y: string)
    requires x != [] && !OpensComment(x) && (y == [] || y[0] != '*')
    ensures !OpensComment(x + y)
  {
  }

  /** A text without an open comment start, before a text that does not complete one. */
  lemma {:induction false} BlocksThen(x: string, y: string)
    requires !HasPair(StripBlocks(x), '/', '*') && (y == [] || y[0] != '*')
    ensures StripBlocks(x + y) == StripBlocks(x) + StripBlocks(y)
    decreases |x|
  {
    hide StripBlocks, AfterBlock, HasPair;
    if x == [] {
      assert x + y == y;
      NothingStripsToNothing();
    } else {
      BlocksStep(x);
      BlocksStep(x + y);
      var b := StripBlocks(x);
      PairTail(b, '/', '*');
      if OpensBlock(x) {
        var rest := AfterBlock(x);
        OpensBlockConcat(x, y);
        assert b[1..] == StripBlocks(rest);
        BlocksThen(rest, y);
        Regroup(" ", StripBlocks(rest), StripBlocks(y));
      } else {
        assert b[1..] == StripBlocks(x[1..]);
        assert (x + y)[0] == x[0] && (x + y)[1..] == x[1..] + y;
        assert !OpensComment(x) by { if OpensComment(x) { OpenStartShows(x); } }
        StartStaysClosed(x, y);
        BlocksThen(x[1..], y);
        Regroup([x[0]], StripBlocks(x[1..]), StripBlocks(y));
      }
    }
  }

  /** What a closed text and an open comment start make, put together. */
  lemma {:induction false} ClosedPartOfBoth(x: string, y: string)
    requires !HasPair(StripBlocks(x), '/', '*') && (y == [] || Unclosed(y))
    ensures ClosedPart(x + y) == x
    decreases |x|
  {
    hide StripBlocks, HasPair, ClosedPart, AfterBlock;
    if x == [] {
      assert x + y == y;
      if y != [] { ClosedPartStep(y); }
    } else {
      BlocksStep(x);
      ClosedPartStep(x + y);
      var b := StripBlocks(x);
      PairTail(b, '/', '*');
      if OpensBlock(x) {
        var rest := AfterBlock(x);
        OpensBlockConcat(x, y);
        assert b[1..] == StripBlocks(rest);
        ClosedPartOfBoth(rest, y);
        assert (x + y)[..|x| - |rest|] + rest == x;
      } else {
        assert b[1..] == StripBlocks(x[1..]);
        assert (x + y)[0] == x[0] && (x + y)[1..] == x[1..] + y;
        assert !OpensComment(x) by { if OpensComment(x) { OpenStartShows(x); } }
        StartStaysClosed(x, y);
        ClosedPartOfBoth(x[1..], y);
      }
    }
  }

  lemma BlockThen(s: string, t: string)
    requires OpensBlock(s)
    ensures StripBlocks(s[..|s| - |AfterBlock(s)|] + t) == " " + StripBlocks(t)
  {
    var k := FindPair(s[2..], '*', '/').value;
    var head := s[..|s| - |AfterBlock(s)|];
    assert head[2..] == s[2..][..k + 2] && PairAt(head[2..], k, '*', '/');
    forall i: nat | i < k ensures !PairAt(head[2..], i, '*', '/') { assert !PairAt(s[2..], i, '*', '/'); }
    assert FindPair(head[2..], '*', '/') == Some(k);
    assert AfterBlock(head) == [];
    OpensBlockConcat(head, t);
    BlocksStep(head + t);
    assert [] + t == t;
  }

  /** What the block stripper makes of the closed part has no comment start left. */
  lemma {:induction false} ClosedPartCloses(s: string)
    ensures !HasPair(StripBlocks(ClosedPart(s)), '/', '*')
    decreases |s|
  {
    hide HasPair, StripBlocks, OpensBlock, AfterBlock, ClosedPart;
    NothingStripsToNothing();
    NothingPaired('/', '*');
    if s == [] {
      assert ClosedPart(s) == [];
    } else {
      ClosedPartStep(s);
      if OpensBlock(s) {
        var rest := AfterBlock(s);
        ClosedPartCloses(rest);
        BlockThen(s, ClosedPart(rest));
        var b := " " + StripBlocks(ClosedPart(rest));
        PairTail(b, '/', '*');
        assert b[1..] == StripBlocks(ClosedPart(rest));
      } else if !OpensComment(s) {
        ClosedPartCloses(s[1..]);
        CharThen(s[0], ClosedPart(s[1..]), s);
      }
    }
  }

  /** A character before a closed part that starts as the text goes on. */
  lemma CharThen(c: char, t: string, s: string)
    requires s != [] && c == s[0] && !OpensComment(s)
    requires t == ClosedPart(s[1..]) && !HasPair(StripBlocks(t), '/', '*')
    ensures !HasPair(StripBlocks([c] + t), '/', '*')
  {
    hide HasPair, StripBlocks, ClosedPart;
    var x := [c] + t;
    assert x[1..] == t;
    if t != [] {
      assert x[1] == s[1];
      BlocksFirst(t);
    } else {
      NothingStripsToNothing();
    }
    assert !OpensBlock(x);
    BlocksStep(x);
    var b := StripBlocks(x);
    assert b == [c] + StripBlocks(t) && b[1..] == StripBlocks(t);
    PairTail(b, '/', '*');
  }

  /** Block by block: the closed part is stripped, and the open comment start stays. */
  lemma BlocksOfParts(s: string)
    ensures StripBlocks(s) == StripBlocks(ClosedPart(s)) + OpenPart(s)
  {
    hide StripBlocks, HasPair, ClosedPart;
    ClosedPartCloses(s);
    OpenPartShape(s);
    BlocksThen(ClosedPart(s), OpenPart(s));
    if OpenPart(s) == [] {
      NothingStripsToNothing();
    } else {
      UnclosedStays(OpenPart(s));
    }
  }

  /** A text leaves no comment open exactly when the block stripper leaves no comment start. */
  lemma ClosedExactly(s: string)
    ensures OpenPart(s) == [] <==> !HasPair(StripBlocks(s), '/', '*')
  {
    hide StripBlocks, HasPair, ClosedPart;
    ClosedPartCloses(s);
    OpenPartShape(s);
    BlocksOfParts(s);
    if OpenPart(s) == [] {
      assert ClosedPart(s) == s;
    } else {
      UnclosedStays(OpenPart(s));
      PairInConcat(StripBlocks(ClosedPart(s)), OpenPart(s), '/', '*');
    }
  }

  // ---- text after a line comment, and text after white space ----

  /** After a text that stops inside a line comment, the rest of the line is comment too. */
  lemma {:induction false} LinesInComment(x: string, y: string)
    requires InLineComment(x)
    ensures StripLines(x + y) == StripLines(x) + StripLines(SkipLine(y))
    decreases |x|
  {
    hide StripLines, SkipLine;
    LinesStep(x);
    LinesStep(x + y);
    assert (x + y)[0] == x[0] && (x + y)[1] == x[1] && (x + y)[1..] == x[1..] + y && (x + y)[2..] == x[2..] + y;
    if OpensLine(x) {
      var rest := SkipLine(x[2..]);
      if rest == [] {
        SkipNothingLeft(x[2..], y);
        NothingStripsToNothing();
      } else {
        SkipLineConcat(x[2..], y);
        LinesInComment(rest, y);
        Regroup(" ", StripLines(rest), StripLines(SkipLine(y)));
      }
    } else {
      LinesInComment(x[1..], y);
      Regroup([x[0]], StripLines(x[1..]), StripLines(SkipLine(y)));
    }
  }

  /** Two trimmed texts, one blank apart when both are there. */
  function Joined(x: string, y: string): string { if x == [] then y else if y == [] then x else x + (" " + y) }

  lemma BlankCollapses(s: string)
    requires Blank(s)
    ensures TrimCollapse(s) == []
  {
    CollapseOfBlank(s);
    BlankTrims(Collapse(s));
  }

  lemma CollapseRun(run: string, b: string)
    requires Blank(run) && run != [] && !Blank(b)
    ensures Collapse(run + b) == " " + Collapse(TrimStart(b))
  {
    hide TrimStart, Collapse;
    CollapseStep(run + b);
    assert (run + b)[0] == run[0] && (run + b)[1..] == run[1..] + b;
    assert Blank(run[1..]) by { BlankConcat([run[0]], run[1..]); assert run == [run[0]] + run[1..]; }
    TrimStartSkipsBlank(run[1..], b);
  }

  lemma LeadsBlank(pre: string, rest: string)
    requires Blank(pre)
    ensures pre != [] ==> IsSpace((pre + rest)[0])
  {
  }

  lemma VisibleJoin(u: string, v: string)
    requires EndsVisible(u) && v != [] && !IsSpace(v[0])
    ensures Trim(u) != [] && Trim(v) != [] && Trim(u + (" " + v)) == Trim(u) + (" " + Trim(v))
  {
    hide Trim, IsSpace, Margins;
    BlankTrims(v);
    var head := VisibleMargin(u);
    var t := Trim(u);
    var (pre, post) := Margins(v);
    LeadsBlank(pre, Trim(v) + post);
    Regroup(pre, Trim(v), post);
    assert pre == [];
    var s := t + (" " + Trim(v));
    assert u + (" " + v) == head + s + post;
    assert s[0] == t[0] && s[|s| - 1] == Trim(v)[|Trim(v)| - 1];
    TrimInside(head, s, post);
  }

  /** White space between two texts becomes one blank between what is left of them. */
  lemma SpacedJoin(a: string, w: string, b: string)
    requires Blank(w) && w != []
    ensures TrimCollapse(a + (w + b)) == Joined(TrimCollapse(a), TrimCollapse(b))
  {
    hide Collapse, Trim, Blank, TrimStart, IsSpace;
    if Blank(a) {
      BlankConcat(a, w);
      Regroup(a, w, b);
      BlankBefore(a + w, b);
      BlankCollapses(a);
    } else if Blank(b) {
      BlankConcat(w, b);
      BlankAfter(a, w + b);
      BlankCollapses(b);
    } else {
      var e, post := LastVisible(a);
      CollapseConcat(e, post + w + b);
      BlankConcat(post, w);
      CollapseRun(post + w, b);
      assert a + (w + b) == e + (post + w + b);
      BlankAfter(e, post);
      CollapseFromVisible(b);
      CollapseKeepsEnd(e);
      FirstVisible(b);
      CollapseStep(TrimStart(b));
      VisibleJoin(Collapse(e), Collapse(TrimStart(b)));
    }
  }

  lemma LastVisible(a: string) returns (e: string, post: string)
    requires !Blank(a)
    ensures EndsVisible(e) && Blank(post) && a == e + post
  {
    e := TrimEnd(a);
    post := a[|e|..];
    assert e != [] by { BlankTrims(a); }
  }

  lemma FirstVisible(b: string)
    requires !Blank(b)
    ensures TrimStart(b) != [] && !IsSpace(TrimStart(b)[0])
  {
    var k := LeadingSpaces(b);
    assert k < |b|;
  }

  lemma NoPairAcross(u: string, c: char, v: string, a: char, b: char)
    requires !HasPair(u, a, b) && !HasPair(v, a, b) && c != a && c != b
    ensures !HasPair(u + ([c] + v), a, b)
  {
    var s := u + ([c] + v);
    forall i: nat | i < |s| ensures !PairAt(s, i, a, b) {
      if i + 1 < |u| {
        assert !PairAt(u, i, a, b);
      } else if i > |u| && i + 1 < |s| {
        assert !PairAt(v, i - |u| - 1, a, b);
        assert s[i] == v[i - |u| - 1] && s[i + 1] == v[i - |u|];
      }
    }
  }
}
