/** Which parts of a manual migration file are live SQL: what the statement splitter sees of the whole file. */
module ManualLive {
  import opened Common
  import opened Text
  import opened SqlScan
  import opened SqlStatements
  import opened SqlClassify
  import opened SqlConcat
  import opened ManualMigration

  // ---- the comment stripper and white space ----

  lemma {:induction false} BlocksBlankAfter(x: string, b: string)
    requires Blank(b)
    ensures StripBlocks(x + b) == StripBlocks(x) + b
    decreases |x|
  {
    hide StripBlocks, IsSpace, OpensBlock, AfterBlock;
    if x == [] {
      NothingStripsToNothing();
      BlankStripsNothing(b);
      assert x + b == b && [] + b == b;
    } else {
      BlocksStep(x);
      BlocksStep(x + b);
      assert (x + b)[0] == x[0] && (x + b)[1..] == x[1..] + b;
      BlankOpensNothing(x, b);
      if OpensBlock(x) {
        OpensBlockConcat(x, b);
        BlocksBlankAfter(AfterBlock(x), b);
        Regroup(" ", StripBlocks(AfterBlock(x)), b);
      } else {
        BlocksBlankAfter(x[1..], b);
        Regroup([x[0]], StripBlocks(x[1..]), b);
      }
    }
  }

  lemma BlankHasNoSlash(b: string)
    requires Blank(b)
    ensures '/' !in b && '*' !in b && '-' !in b
  {
  }

  lemma BlankOpensNothing(x: string, b: string)
    requires x != [] && Blank(b)
    ensures OpensBlock(x + b) <==> OpensBlock(x)
  {
    BlankHasNoSlash(b);
    var s := x + b;
    forall j | |x| <= j < |s| ensures s[j] != '*' && s[j] != '/' {
      assert s[j] == b[j - |x|] && b[j - |x|] in b;
    }
    if OpensBlock(s) {
      assert s[2..] == x[2..] + b;
      var i: nat :| i < |s[2..]| && PairAt(s[2..], i, '*', '/');
      assert s[2..][i + 1] == s[i + 3];
      assert PairAt(x[2..], i, '*', '/');
    } else if OpensBlock(x) {
      OpensBlockConcat(x, b);
    }
  }

  lemma BlankStripsNothing(b: string)
    requires Blank(b)
    ensures StripBlocks(b) == b && StripLines(b) == b
  {
    BlankHasNoSlash(b);
    NoCharNoPair(b, '*', '/');
    NoCharNoPair(b, '-', '-');
    NothingClosesNothingStripped(b);
    NoDashStripsNothing(b);
  }

  lemma NoCharNoPair(s: string, a: char, b: char)
    requires a !in s
    ensures !HasPair(s, a, b)
  {
  }

  /** Text without a slash comes through the block stripper. */
  lemma {:induction false} BlocksPlainBefore(n: string, y: string)
    requires '/' !in n
    ensures StripBlocks(n + y) == n + StripBlocks(y)
  {
    hide StripBlocks;
    if n == [] {
      assert n + y == y;
    } else {
      BlocksStep(n + y);
      assert (n + y)[0] == n[0] && n[0] in n && (n + y)[1..] == n[1..] + y;
      BlocksPlainBefore(n[1..], y);
      Regroup([n[0]], n[1..], StripBlocks(y));
      assert [n[0]] + n[1..] == n;
    }
  }

  /** White space comes through the line stripper. */
  lemma {:induction false} LinesBlankBefore(b: string, y: string)
    requires Blank(b)
    ensures StripLines(b + y) == b + StripLines(y)
  {
    hide StripLines;
    if b == [] {
      assert b + y == y;
    } else {
      BlankHasNoSlash(b);
      LinesStep(b + y);
      assert (b + y)[0] == b[0] && b[0] in b && (b + y)[1..] == b[1..] + y;
      LinesBlankBefore(b[1..], y);
      Regroup([b[0]], b[1..], StripLines(y));
      assert [b[0]] + b[1..] == b;
    }
  }

  lemma SkipLineStep(s: string)
    ensures SkipLine(s) == if s == [] || LineEnd(s[0]) then s else SkipLine(s[1..])
  {
  }

  lemma {:induction false} SkipToLineEnd(a: string, t: string)
    requires t != [] && LineEnd(t[0])
    ensures SkipLine(a + t) == SkipLine(a) + t
  {
    hide SkipLine;
    SkipLineStep(a + t);
    SkipLineStep(a);
    if a == [] {
      assert a + t == t;
    } else if !LineEnd(a[0]) {
      SkipToLineEnd(a[1..], t);
      assert (a + t)[1..] == a[1..] + t;
    }
  }

  /** The line stripper works line by line. */
  lemma {:induction false} LinesSplit(a: string, c: char, b: string)
    requires LineEnd(c)
    ensures StripLines(a + ([c] + b)) == StripLines(a) + ([c] + StripLines(b))
    decreases |a|
  {
    hide StripLines, SkipLine;
    var s := a + ([c] + b);
    LinesStep(s);
    if a == [] {
      NothingStripsToNothing();
      assert s[0] == c && s[1..] == b && [] + ([c] + StripLines(b)) == [c] + StripLines(b);
    } else {
      LinesStep(a);
      assert s[0] == a[0] && s[1..] == a[1..] + ([c] + b);
      if OpensLine(a) {
        assert s[2..] == a[2..] + ([c] + b);
        SkipToLineEnd(a[2..], [c] + b);
        LinesSplit(SkipLine(a[2..]), c, b);
        Regroup(" ", StripLines(SkipLine(a[2..])), [c] + StripLines(b));
      } else {
        assert !OpensLine(s);
        LinesSplit(a[1..], c, b);
        Regroup([a[0]], StripLines(a[1..]), [c] + StripLines(b));
      }
    }
  }

  lemma {:induction false} SkipWholeLine(s: string)
    requires forall c | c in s :: !LineEnd(c)
    ensures SkipLine(s) == []
  {
    if s != [] {
      assert s[0] in s;
      SkipWholeLine(s[1..]);
    }
  }

  /** A comment line after any text leaves at most a blank. */
  lemma {:induction false} CommentLineVanishes(u: string, n: string) returns (pad: string)
    requires OpensLine(n) && (forall c | c in n :: !LineEnd(c)) && (u == [] || u[|u| - 1] != '-')
    ensures Blank(pad) && StripLines(u + n) == StripLines(u) + pad
    decreases |u|
  {
    hide StripLines, SkipLine;
    LinesStep(u + n);
    if u == [] {
      SkipWholeLine(n[2..]);
      NothingStripsToNothing();
      assert u + n == n;
      pad := " ";
      assert " " + [] == [] + pad;
    } else {
      LinesStep(u);
      OpensLineConcat(u, n);
      assert (u + n)[0] == u[0] && (u + n)[1..] == u[1..] + n;
      if OpensLine(u) {
        assert (u + n)[2..] == u[2..] + n;
        pad := CommentAfterComment(u, n);
      } else {
        pad := CommentLineVanishes(u[1..], n);
        Regroup([u[0]], StripLines(u[1..]), pad);
      }
    }
  }

  lemma {:induction false} CommentAfterComment(u: string, n: string) returns (pad: string)
    requires OpensLine(u) && OpensLine(n) && (forall c | c in n :: !LineEnd(c)) && u[|u| - 1] != '-'
    ensures Blank(pad) && " " + StripLines(SkipLine(u[2..] + n)) == " " + StripLines(SkipLine(u[2..])) + pad
    decreases |u|, 0
  {
    hide StripLines;
    var rest := SkipLine(u[2..]);
    if rest == [] {
      SkipNoLineEnd(u[2..]);
      SkipWholeLine(u[2..] + n);
      pad := [];
    } else {
      SkipLineConcat(u[2..], n);
      SkipLineIsSuffix(u[2..]);
      pad := CommentLineVanishes(rest, n);
      Regroup(" ", StripLines(rest), pad);
    }
  }

  lemma {:induction false} SkipNoLineEnd(s: string)
    requires SkipLine(s) == []
    ensures forall c | c in s :: !LineEnd(c)
  {
    if s != [] {
      SkipNoLineEnd(s[1..]);
      assert forall c | c in s :: c == s[0] || c in s[1..];
    }
  }

  lemma {:induction false} LinesBlankAfter(x: string, b: string) returns (pad: string)
    requires Blank(b)
    ensures Blank(pad) && StripLines(x + b) == StripLines(x) + pad
    decreases |x|
  {
    hide StripLines, SkipLine, IsSpace;
    if x == [] {
      NothingStripsToNothing();
      BlankStripsNothing(b);
      assert x + b == b && [] + b == b;
      pad := b;
    } else {
      LinesStep(x);
      LinesStep(x + b);
      BlankHasNoSlash(b);
      assert (x + b)[0] == x[0] && (x + b)[1..] == x[1..] + b;
      assert OpensLine(x + b) <==> OpensLine(x) by { assert |x| == 1 && |b| > 0 ==> (x + b)[1] in b; }
      if OpensLine(x) {
        assert (x + b)[2..] == x[2..] + b;
        var t := SkipBlankAfter(x[2..], b);
        if SkipLine(x[2..]) == [] {
          BlankStripsNothing(t);
          NothingStripsToNothing();
          pad := t;
          assert " " + t == " " + [] + pad;
        } else {
          pad := LinesBlankAfter(SkipLine(x[2..]), b);
          Regroup(" ", StripLines(SkipLine(x[2..])), pad);
        }
      } else {
        pad := LinesBlankAfter(x[1..], b);
        Regroup([x[0]], StripLines(x[1..]), pad);
      }
    }
  }

  /** Skipping a line and more white space: either the line ends before it, or some of it is left. */
  lemma SkipBlankAfter(x: string, b: string) returns (t: string)
    requires Blank(b)
    ensures Blank(t) && SkipLine(x + b) == if SkipLine(x) == [] then t else SkipLine(x) + b
  {
    if SkipLine(x) == [] {
      t := SkipLine(x + b);
      SkipNothingLeft(x, b);
      SkipLineIsSuffix(b);
    } else {
      t := [];
      SkipLineConcat(x, b);
    }
  }

  /** White space around a text is as nothing to the stripper. */
  lemma StripMargins(pre: string, x: string, post: string)
    requires Blank(pre) && Blank(post)
    ensures StripComments(pre + x + post) == StripComments(x)
    ensures StripBlocks(pre + x + post) == pre + StripBlocks(x) + post
  {
    var b := StripBlocks(x);
    BlankHasNoSlash(pre);
    Regroup(pre, x, post);
    BlocksPlainBefore(pre, x + post);
    BlocksBlankAfter(x, post);
    Regroup(pre, b, post);
    LinesBlankBefore(pre, b + post);
    var pad := LinesBlankAfter(b, post);
    hide StripBlocks, StripLines, IsSpace, TrimCollapse, Trim, Collapse;
    BlankBefore(pre, StripLines(b) + pad);
    BlankAfter(StripLines(b), pad);
    StripIsTrimCollapse(x);
    StripIsTrimCollapse(pre + x + post);
  }

  lemma StripOfTrim(x: string)
    ensures StripComments(Trim(x)) == StripComments(x)
  {
    hide StripComments, StripBlocks, Trim;
    var (pre, post) := Margins(x);
    StripMargins(pre, Trim(x), post);
  }

  // ---- the pieces of a file ----

  /** The end mark is found where it stands, whatever star comes right before it. */
  lemma FirstPair(u: string, v: string)
    requires !HasPair(u, '*', '/') && PairAt(v, 0, '*', '/')
    ensures FindPair(u + v, '*', '/') == Some(|u|) && HasPair(u + v, '*', '/')
  {
    var s := u + v;
    assert PairAt(s, |u|, '*', '/');
    forall i: nat | i < |u| ensures !PairAt(s, i, '*', '/') {
      assert i + 1 < |u| ==> !PairAt(u, i, '*', '/');
    }
  }

  /** A block comment without an inner end mark becomes one blank. */
  lemma CommentVanishes(body: string, after: string)
    requires !HasPair(body, '*', '/')
    ensures StripBlocks("/*" + body + "*/" + after) == " " + StripBlocks(after)
  {
    var s := "/*" + body + "*/" + after;
    var v := "*/" + after;
    assert s[2..] == body + v && PairAt(v, 0, '*', '/');
    FirstPair(body, v);
    assert (body + v)[|body| + 2..] == after;
  }

  /** What stands after the first comment end mark. */
  function AfterEndMark(s: string): string
    requires HasPair(s, '*', '/')
  {
    s[FindPair(s, '*', '/').value + 2..]
  }

  lemma BeforeEndMark(s: string) returns (inner: string)
    requires HasPair(s, '*', '/')
    ensures s == inner + "*/" + AfterEndMark(s) && !HasPair(inner, '*', '/')
  {
    var k := FindPair(s, '*', '/').value;
    inner := s[..k];
    forall i: nat | i < |inner| ensures !PairAt(inner, i, '*', '/') { assert !PairAt(s, i, '*', '/'); }
  }

  /** The part of a rollback section that the parser takes for comment and the database does not: what follows the
      first end mark in the comment's body. */
  function Escaped(body: string, tail: string): string {
    if HasPair(body, '*', '/') then AfterEndMark(body) + "*/" + tail else []
  }

  /** What the block stripper leaves of a comment. */
  lemma CommentLeft(body: string, tail: string) returns (left: string)
    requires Blank(tail)
    ensures StripBlocks("/*" + body + "*/" + tail) == " " + left
    ensures if HasPair(body, '*', '/') then left == StripBlocks(Escaped(body, tail)) else left == tail
  {
    if HasPair(body, '*', '/') {
      var rest := AfterEndMark(body);
      var inner := BeforeEndMark(body);
      left := StripBlocks(rest + "*/" + tail);
      hide HasPair, StripBlocks;
      assert "/*" + body + "*/" + tail == "/*" + inner + "*/" + (rest + "*/" + tail);
      CommentVanishes(inner, rest + "*/" + tail);
    } else {
      left := tail;
      CommentVanishes(body, tail);
      BlankStripsNothing(tail);
    }
  }

  lemma CommentBlocks(body: string, tail: string) returns (left: string)
    requires Blank(tail)
    ensures StripBlocks("/*" + body + "*/" + tail) == " " + left
    ensures TrimCollapse(StripLines(left)) == StripComments(Escaped(body, tail))
  {
    left := CommentLeft(body, tail);
    if !HasPair(body, '*', '/') {
      BlankStripsNothing(tail);
      CollapseOfBlank(tail);
      BlankTrims(Collapse(tail));
      assert StripComments([]) == [];
    }
  }

  /** No block comment is left open, and the text does not end in half a comment start. */
  predicate Seamless(x: string) {
    var b := StripBlocks(x);
    ClosesBlocks(x) && (b == [] || b[|b| - 1] != '-')
  }

  /** A marker on a line of its own. */
  predicate MarkerLine(n: string) { OpensLine(n) && PlainText(n) }

  /** The block comments of a file in pieces: the text down to the forward marker, the forward section, the rollback
      marker, and the section with the rollback's comment. */
  lemma PiecesBlocks(g: string, c: char, a: string, n: string, lead: string, comment: string)
    requires ClosesBlocks(g) && ClosesBlocks(a) && LineEnd(c) && MarkerLine(n) && Blank(lead)
    ensures StripBlocks(g + ([c] + (a + (n + (lead + comment)))))
         == StripBlocks(g) + ([c] + (StripBlocks(a) + (n + (lead + StripBlocks(comment)))))
  {
    BlankHasNoSlash(lead);
    assert '/' !in n && '/' !in [c];
    hide StripBlocks, ClosesBlocks, LineEnd, OpensLine, PlainText, IsSpace;
    BlocksConcat(g, [c] + (a + (n + (lead + comment))));
    BlocksPlainBefore([c], a + (n + (lead + comment)));
    BlocksConcat(a, n + (lead + comment));
    BlocksPlainBefore(n, lead + comment);
    BlocksPlainBefore(lead, comment);
  }

  /** The lines of those pieces once block comments are gone. */
  lemma PiecesLines(g: string, c: char, a: string, n: string, d: char, lead: string, left: string) returns (pad: string)
    requires LineEnd(c) && LineEnd(d) && MarkerLine(n) && Blank(lead) && (a == [] || a[|a| - 1] != '-')
    ensures Blank(pad)
    ensures StripLines(g + ([c] + (a + (n + ([d] + (lead + left))))))
         == StripLines(g) + ([c] + (StripLines(a) + (pad + ([d] + (lead + StripLines(left))))))
  {
    assert forall x | x in n :: !LineEnd(x);
    hide StripLines, LineEnd, PlainText, OpensLine, IsSpace;
    LinesSplit(g, c, a + (n + ([d] + (lead + left))));
    Regroup(a, n, [d] + (lead + left));
    LinesSplit(a + n, d, lead + left);
    pad := CommentLineVanishes(a, n);
    LinesBlankBefore(lead, left);
    Regroup(StripLines(a), pad, [d] + (lead + StripLines(left)));
  }

  /** Stripping a text whose parts are separated by white space. */
  lemma SpacedParts(g: string, c: char, a: string, blank: string, left: string) returns (gap1: string, gap2: string)
    requires IsSpace(c) && Blank(blank)
    ensures Blank(gap1) && Blank(gap2)
    ensures TrimCollapse(g + ([c] + (a + (blank + left))))
         == TrimCollapse(g) + (gap1 + (TrimCollapse(a) + (gap2 + TrimCollapse(left))))
  {
    assert Blank([c]);
    hide IsSpace, Blank, TrimCollapse;
    gap1 := TrimCollapseConcat(g, [c] + (a + (blank + left)));
    BlankBefore([c], a + (blank + left));
    gap2 := TrimCollapseConcat(a, blank + left);
    BlankBefore(blank, left);
    Regroup(TrimCollapse(g), gap1, TrimCollapse(a) + (gap2 + TrimCollapse(left)));
    Regroup(TrimCollapse(a), gap2, TrimCollapse(left));
  }

  /** What the stripper leaves of a whole file: of the text down to the forward marker, of the forward section, and of
      what escapes the rollback's comment. */
  lemma PiecesStrip(g: string, c: char, a: string, n: string, d: char, lead: string, body: string, tail: string)
    returns (gap1: string, gap2: string)
    requires ClosesBlocks(g) && Seamless(a) && LineEnd(c) && LineEnd(d) && MarkerLine(n) && Blank(lead) && Blank(tail)
    ensures Blank(gap1) && Blank(gap2)
    ensures StripComments(g + ([c] + (a + (n + ([d] + lead + ("/*" + body + "*/" + tail))))))
         == StripComments(g) + (gap1 + (StripComments(a) + (gap2 + StripComments(Escaped(body, tail)))))
  {
    var comment := "/*" + body + "*/" + tail;
    var left := CommentBlocks(body, tail);
    SpaceLines(c, d, lead);
    hide StripBlocks, LineEnd, IsSpace, Trim, Collapse, OpensLine, PlainText, TrimCollapse, Escaped, Blank;
    PiecesBlocks(g, c, a, n, [d] + lead, comment);
    SpaceAfterLead(d, lead, left);
    var pad := PiecesLines(StripBlocks(g), c, StripBlocks(a), n, d, lead + " ", left);
    BlankPad(pad, d, lead);
    hide StripLines, ClosesBlocks, MarkerLine;
    PadGroups(pad, d, lead, StripLines(left));
    gap1, gap2 := SpacedParts(StripLines(StripBlocks(g)), c, StripLines(StripBlocks(a)), pad + ([d] + (lead + " ")), StripLines(left));
    StripIsTrimCollapse(g);
    StripIsTrimCollapse(a);
    StripIsTrimCollapse(g + ([c] + (a + (n + ([d] + lead + comment)))));
  }

  lemma SpaceLines(c: char, d: char, lead: string)
    requires LineEnd(c) && LineEnd(d) && Blank(lead)
    ensures IsSpace(c) && IsSpace(d) && Blank([d] + lead) && Blank(lead + " ")
  {
  }

  lemma SpaceAfterLead(d: char, lead: string, left: string)
    ensures [d] + lead + (" " + left) == [d] + ((lead + " ") + left)
  {
  }

  lemma BlankPad(pad: string, d: char, lead: string)
    requires Blank(pad) && IsSpace(d) && Blank(lead)
    ensures Blank(pad + ([d] + (lead + " ")))
  {
    BlankConcat(pad, [d] + (lead + " "));
  }

  lemma PadGroups(pad: string, d: char, lead: string, x: string)
    ensures pad + ([d] + ((lead + " ") + x)) == (pad + ([d] + (lead + " "))) + x
  {
  }
}
