/** Splitting, joining and concatenating SQL texts. */
module SqlStatements {
  import opened Common
  import opened Text
  import opened SqlScan

  function JoinSpaced(ss: seq<string>): string {
    if ss == [] then [] else if |ss| == 1 then ss[0] else ss[0] + " " + JoinSpaced(ss[1..])
  }

  // ---- scanning ----

  /** A statement's end depends on nothing after it. */
  lemma {:induction false} FirstEndPrefix(s: string, t: string, q: Quote, escaped: bool)
    requires FirstEnd(s, q, escaped).Some?
    ensures FirstEnd(s + t, q, escaped) == FirstEnd(s, q, escaped)
  {
    hide Toggle;
    var q' := Toggle(q, s[0], escaped);
    assert (s + t)[0] == s[0] && (s + t)[1..] == s[1..] + t;
    if !(s[0] == ';' && q' == Unquoted) {
      FirstEndPrefix(s[1..], t, q', s[0] == '\\');
    }
  }

  lemma {:induction false} FirstEndTake(s: string, q: Quote, escaped: bool)
    requires FirstEnd(s, q, escaped).Some?
    ensures var k := FirstEnd(s, q, escaped).value; FirstEnd(s[..k], q, escaped) == Some(k)
  {
    hide Toggle;
    var q' := Toggle(q, s[0], escaped);
    var k := FirstEnd(s, q, escaped).value;
    if !(s[0] == ';' && q' == Unquoted) {
      FirstEndTake(s[1..], q', s[0] == '\\');
      assert s[..k][1..] == s[1..][..k - 1];
    }
  }

  lemma BlankIsInert(c: char, s: string)
    requires IsSpace(c)
    ensures NextEnd([c] + s) == match NextEnd(s) case None => None case Some(k) => Some(k + 1)
  {
    assert ([c] + s)[1..] == s;
  }

  lemma {:induction false} NextEndSkipsBlank(b: string, s: string)
    requires Blank(b)
    ensures NextEnd(b + s) == match NextEnd(s) case None => None case Some(k) => Some(|b| + k)
  {
    if b == [] {
      assert b + s == s;
    } else {
      hide IsSpace, FirstEnd, NextEnd;
      var rest := b[1..];
      assert forall i | 0 <= i < |rest| :: rest[i] == b[i + 1];
      BlankIsInert(b[0], rest + s);
      NextEndSkipsBlank(rest, s);
      assert b + s == [b[0]] + (rest + s);
    }
  }

  lemma BlankConcat(a: string, b: string)
    ensures Blank(a + b) <==> Blank(a) && Blank(b)
  {
    assert forall i | 0 <= i < |a| :: (a + b)[i] == a[i];
    assert forall i | 0 <= i < |b| :: (a + b)[|a| + i] == b[i];
  }

  lemma TrimSkipsBlank(b: string, s: string)
    requires Blank(b)
    ensures Trim(b + s) == Trim(s)
  {
    hide Trim, Trimmed, Blank;
    BlankTrims(s);
    if Blank(s) {
      BlankConcat(b, s);
      BlankTrims(b + s);
    } else {
      var (pre, post) := Margins(s);
      assert b + s == b + pre + Trim(s) + post;
      BlankConcat(b, pre);
      TrimInside(b + pre, Trim(s), post);
    }
  }

  /** The white space `Trim` removes on either side. */
  function Margins(s: string): (r: (string, string))
    ensures s == r.0 + Trim(s) + r.1 && Blank(r.0) && Blank(r.1)
    ensures Trimmed(Trim(s))
  {
    TrimIsTrimmed(s);
    var e := TrimEnd(s);
    assert e == e[..LeadingSpaces(e)] + Trim(s) && s == e + s[|e|..];
    (e[..LeadingSpaces(e)], s[|e|..])
  }

  lemma StatementsUnfold(s: string, k: nat)
    requires NextEnd(s) == Some(k)
    ensures Statements(s) == [Trim(s[..k])] + Statements(s[k..])
  {
  }

  lemma StatementsSkipBlank(b: string, s: string)
    requires Blank(b)
    ensures Statements(b + s) == Statements(s)
  {
    hide Trim, Blank, FirstEnd, NextEnd;
    NextEndSkipsBlank(b, s);
    match NextEnd(s) {
      case None =>
        BlankConcat(b, s);
        TrimSkipsBlank(b, s);
      case Some(k) =>
        StatementsUnfold(s, k);
        StatementsUnfold(b + s, |b| + k);
        hide Statements;
        assert (b + s)[..|b| + k] == b + s[..k] && (b + s)[|b| + k..] == s[k..];
        TrimSkipsBlank(b, s[..k]);
    }
  }

  /** Trimming a statement that is whole leaves a whole statement. */
  lemma TrimmedStatement(s: string)
    requires NextEnd(s) == Some(|s|)
    ensures var t := Trim(s); t != [] && NextEnd(t) == Some(|t|) && t[|t| - 1] == ';' && !IsSpace(t[0])
  {
    hide FirstEnd, IsSpace, NextEnd, Blank;
    LastIsSemicolon(s);
    SemicolonIsVisible();
    SemicolonEnds(s);
    var k := LeadingSpaces(s);
    var t := s[k..];
    hide Trim;
    assert s == s[..k] + t;
    if k == |s| {
      AllBlank(s, |s| - 1);
      assert false;
    }
    NextEndSkipsBlank(s[..k], t);
  }

  lemma AllBlank(s: string, i: nat)
    requires i < LeadingSpaces(s) <= |s|
    ensures IsSpace(s[i])
  {
    assert s[..LeadingSpaces(s)][i] == s[i];
  }

  lemma SemicolonIsVisible()
    ensures !IsSpace(';')
  {
  }

  lemma LastIsSemicolon(s: string)
    requires NextEnd(s) == Some(|s|)
    ensures s != [] && s[|s| - 1] == ';'
  {
  }

  lemma UnfinishedTrim(s: string)
    requires NextEnd(s) == None
    ensures NextEnd(Trim(s)) == None
  {
    hide Trim;
    var (pre, post) := Margins(s);
    assert s == pre + (Trim(s) + post);
    NextEndSkipsBlank(pre, Trim(s) + post);
    if NextEnd(Trim(s)).Some? {
      FirstEndPrefix(Trim(s), post, Unquoted, false);
      assert false;
    }
  }

  /** The statements of a text whose first statement is whole. */
  lemma StatementsOfWhole(s: string, rest: string)
    requires NextEnd(s) == Some(|s|)
    ensures Statements(s + rest) == [Trim(s)] + Statements(rest)
  {
    FirstEndPrefix(s, rest, Unquoted, false);
    assert (s + rest)[..|s|] == s && (s + rest)[|s|..] == rest;
  }

  lemma StatementsDoNotVanish(s: string)
    ensures forall t | t in Statements(s) :: t != [] && !IsSpace(t[0])
    decreases |s|
  {
    match NextEnd(s) {
      case None =>
        BlankTrims(s);
      case Some(k) =>
        FirstEndTake(s, Unquoted, false);
        TrimmedStatement(s[..k]);
        StatementsDoNotVanish(s[k..]);
    }
  }

  /** The statements of any text, joined by blanks, split into the same statements. */
  lemma {:induction false} StatementsOfJoin(s: string)
    ensures Statements(JoinSpaced(Statements(s))) == Statements(s)
    decreases |s|
  {
    hide Trim;
    match NextEnd(s) {
      case None =>
        BlankTrims(s);
        if !Blank(s) {
          UnfinishedTrim(s);
          TrimIsTrimmed(s);
          TrimOfTrimmed(Trim(s));
          BlankTrims(Trim(s));
        }
      case Some(k) =>
        StatementsOfJoin(s[k..]);
        FirstEndTake(s, Unquoted, false);
        TrimmedStatement(s[..k]);
        TrimIsTrimmed(s[..k]);
        TrimOfTrimmed(Trim(s[..k]));
        var first, rest := Trim(s[..k]), Statements(s[k..]);
        assert Statements(s) == [first] + rest && ([first] + rest)[1..] == rest;
        if rest == [] {
          assert first + [] == first;
          StatementsOfWhole(first, []);
        } else {
          assert first + " " + JoinSpaced(rest) == first + (" " + JoinSpaced(rest));
          StatementsOfWhole(first, " " + JoinSpaced(rest));
          StatementsSkipBlank(" ", JoinSpaced(rest));
        }
    }
  }

  // ---- the joined statements need no stripping ----

  lemma {:induction false} NoBlockSplice(u: string, v: string, w: string)
    requires NoBlock(u + v) && NoBlock(w)
    requires HasPair(w, '*', '/') ==> HasPair(v, '*', '/')
    requires u == [] || u[|u| - 1] == ';'
    ensures NoBlock(u + " " + w)
  {
    var x := u + " " + w;
    if u == [] {
      assert x[1..] == w;
    } else {
      assert (u + v)[1..] == u[1..] + v && x[1..] == u[1..] + " " + w;
      NoBlockSplice(u[1..], v, w);
      if x[0] == '/' && x[1] == '*' && HasPair(x[2..], '*', '/') {
        assert |u| >= 3 && x[2..] == u[2..] + " " + w && (u + v)[2..] == u[2..] + v;
        PairAcrossBlank(u[2..], w, '*', '/');
        PairInConcat(u[2..], v, '*', '/');
        assert false;
      }
    }
  }

  lemma PairInConcat(u: string, v: string, a: char, b: char)
    requires HasPair(u, a, b) || HasPair(v, a, b)
    ensures HasPair(u + v, a, b)
  {
    if HasPair(u, a, b) {
      assert (u + v)[0..|u|] == u;
      PairInPart(u + v, 0, |u|, a, b);
    } else {
      assert (u + v)[|u|..|u + v|] == v;
      PairInPart(u + v, |u|, |u + v|, a, b);
    }
  }

  lemma PairAcrossBlank(u: string, w: string, a: char, b: char)
    requires a != ' ' && b != ' ' && HasPair(u + " " + w, a, b)
    ensures HasPair(u, a, b) || HasPair(w, a, b)
  {
    var x := u + " " + w;
    var i: nat :| i < |x| && PairAt(x, i, a, b);
    if i < |u| {
      assert PairAt(u, i, a, b);
    } else {
      assert PairAt(w, i - |u| - 1, a, b);
    }
  }

  predicate TailCanonical(s: string) {
    NoBlock(s) && !HasPair(s, '-', '-') && SingleSpaced(s) && (s == [] || !IsSpace(s[|s| - 1]))
  }

  /** Every pair of visible neighbours in w is one in v. */
  ghost predicate PairsWithin(w: string, v: string) {
    forall a, b | !IsSpace(a) && !IsSpace(b) && HasPair(w, a, b) :: HasPair(v, a, b)
  }

  lemma CanonicalPart(s: string, i: nat, j: nat)
    requires NoBlock(s) && !HasPair(s, '-', '-') && SingleSpaced(s) && i <= j <= |s|
    ensures NoBlock(s[i..j]) && !HasPair(s[i..j], '-', '-') && SingleSpaced(s[i..j])
    ensures PairsWithin(s[i..j], s)
  {
    NoBlockPrefix(s, j);
    NoBlockSuffix(s[..j], i);
    assert s[..j][i..] == s[i..j];
    forall a, b | HasPair(s[i..j], a, b) ensures HasPair(s, a, b) {
      PairInPart(s, i, j, a, b);
    }
    PartOfSingleSpaced(s, i, j);
  }

  lemma JoinStartsVisible(ss: seq<string>)
    requires ss != [] && forall t | t in ss :: t != [] && !IsSpace(t[0])
    ensures JoinSpaced(ss) != [] && !IsSpace(JoinSpaced(ss)[0])
  {
    assert ss[0] in ss;
  }

  /** One joined step: a statement, a blank, and the join of the rest. */
  lemma JoinStepIsCanonical(u: string, v: string, w: string)
    requires TailCanonical(u + v) && TailCanonical(w) && w != [] && !IsSpace(w[0]) && PairsWithin(w, v)
    requires u != [] && u[|u| - 1] == ';'
    ensures TailCanonical(u + " " + w) && PairsWithin(u + " " + w, u + v)
  {
    assert HasPair(w, '*', '/') ==> HasPair(v, '*', '/');
    assert HasPair(w, '-', '-') ==> HasPair(v, '-', '-');
    assert IsSpace(' ') && !IsSpace('-') && !IsSpace(';');
    hide NoBlock, HasPair, IsSpace;
    NoBlockSplice(u, v, w);
    SpliceSingleSpaced(u, v, w);
    forall a, b | !IsSpace(a) && !IsSpace(b) && HasPair(u + " " + w, a, b) ensures HasPair(u + v, a, b) {
      PairAcrossBlank(u, w, a, b);
      PairInConcat(u, v, a, b);
    }
  }

  lemma SpliceSingleSpaced(u: string, v: string, w: string)
    requires SingleSpaced(u + v) && SingleSpaced(w) && w != [] && !IsSpace(w[0])
    requires u != [] && !IsSpace(u[|u| - 1])
    ensures SingleSpaced(u + " " + w)
  {
    var x := u + " " + w;
    forall i | 0 <= i < |x| && IsSpace(x[i]) ensures x[i] == ' ' && (i + 1 < |x| ==> !IsSpace(x[i + 1])) {
      if i < |u| {
        assert (u + v)[i] == u[i] && i + 1 < |u| && (u + v)[i + 1] == u[i + 1];
      } else if i > |u| {
        assert x[i] == w[i - |u| - 1];
      } else {
        assert x[i + 1] == w[0];
      }
    }
  }

  /** Where the first statement's visible text begins. */
  lemma FirstStatement(s: string, n: nat) returns (k: nat)
    requires NextEnd(s) == Some(n)
    ensures k < n <= |s| && Statements(s) == [s[k..n]] + Statements(s[n..])
    ensures s[n - 1] == ';' && !IsSpace(s[k])
  {
    hide IsSpace, FirstEnd;
    FirstEndTake(s, Unquoted, false);
    TrimmedStatement(s[..n]);
    LastIsSemicolon(s[..n]);
    k := LeadingSpaces(s[..n]);
    SemicolonEnds(s[..n]);
    assert Trim(s[..n]) == s[..n][k..] == s[k..n];
  }

  lemma JoinOfWhole(s: string, n: nat)
    requires TailCanonical(s) && NextEnd(s) == Some(n)
    requires var rest := JoinSpaced(Statements(s[n..]));
             TailCanonical(rest) && PairsWithin(rest, s[n..])
    ensures var j := JoinSpaced(Statements(s));
            TailCanonical(j) && j != [] && !IsSpace(j[0]) && PairsWithin(j, s)
  {
    SemicolonIsVisible();
    hide NoBlock, HasPair, IsSpace, SingleSpaced, NextEnd, PairsWithin, Statements;
    var k := FirstStatement(s, n);
    var first, rest := s[k..n], Statements(s[n..]);
    assert s[k..|s|] == first + s[n..];
    assert ([first] + rest)[1..] == rest && first[|first| - 1] == ';';
    CanonicalPart(s, k, n);
    CanonicalPart(s, k, |s|);
    if rest != [] {
      StatementsDoNotVanish(s[n..]);
      JoinStartsVisible(rest);
      JoinStepIsCanonical(first, s[n..], JoinSpaced(rest));
      PairsWithinTrans(JoinSpaced(Statements(s)), s[k..|s|], s);
    }
  }

  lemma PairsWithinTrans(u: string, v: string, w: string)
    requires PairsWithin(u, v) && PairsWithin(v, w)
    ensures PairsWithin(u, w)
  {
  }

  lemma SemicolonEnds(s: string)
    requires s != [] && s[|s| - 1] == ';'
    ensures TrimEnd(s) == s && Trim(s) == s[LeadingSpaces(s)..]
  {
  }

  lemma {:induction false} JoinIsCanonical(s: string)
    requires TailCanonical(s)
    ensures var j := JoinSpaced(Statements(s));
            TailCanonical(j) && (j != [] ==> !IsSpace(j[0])) && PairsWithin(j, s)
    decreases |s|
  {
    match NextEnd(s) {
      case None =>
        var k := LeadingSpaces(s);
        assert TrimEnd(s) == s && Trim(s) == s[k..|s|];
        CanonicalPart(s, k, |s|);
        BlankTrims(s);
      case Some(n) =>
        CanonicalPart(s, n, |s|);
        assert s[n..|s|] == s[n..];
        JoinIsCanonical(s[n..]);
        JoinOfWhole(s, n);
    }
  }

  /** Splitting the blank-joined statements of any input gives the same statements again. */
  lemma SplitOfJoin(sql: string)
    ensures SplitStatements(JoinSpaced(SplitStatements(sql))) == SplitStatements(sql)
  {
    hide Trim, StripBlocks, StripLines, Collapse;
    StripIsCanonical(sql);
    JoinIsCanonical(StripComments(sql));
    CanonicalIsFixed(JoinSpaced(SplitStatements(sql)));
    StatementsOfJoin(StripComments(sql));
  }

  // ---- nothing is lost ----

  /** A text without its white space. */
  function Visible(s: string): string {
    if s == [] then [] else (if IsSpace(s[0]) then [] else [s[0]]) + Visible(s[1..])
  }

  function AllVisible(ss: seq<string>): string { if ss == [] then [] else Visible(ss[0]) + AllVisible(ss[1..]) }

  lemma {:induction false} VisibleConcat(a: string, b: string)
    ensures Visible(a + b) == Visible(a) + Visible(b)
  {
    hide IsSpace;
    if a == [] {
      assert a + b == b;
    } else {
      assert (a + b)[0] == a[0] && (a + b)[1..] == a[1..] + b;
      VisibleConcat(a[1..], b);
    }
  }

  lemma {:induction false} NothingVisible(s: string)
    ensures Visible(s) == [] <==> Blank(s)
  {
    if s != [] {
      NothingVisible(s[1..]);
      BlankConcat([s[0]], s[1..]);
      assert s == [s[0]] + s[1..];
    }
  }

  lemma VisibleOfTrim(s: string)
    ensures Visible(Trim(s)) == Visible(s)
  {
    hide IsSpace, Trim, Visible;
    var (pre, post) := Margins(s);
    NothingVisible(pre);
    NothingVisible(post);
    VisibleConcat(pre + Trim(s), post);
    VisibleConcat(pre, Trim(s));
    assert [] + Visible(Trim(s)) + [] == Visible(Trim(s));
  }

  /** Splitting distributes the visible characters over the statements, in order, and drops none. */
  lemma {:induction false} StatementsConserve(s: string)
    ensures AllVisible(Statements(s)) == Visible(s)
    decreases |s|
  {
    hide IsSpace, Trim, Visible, NextEnd, FirstEnd;
    NothingVisible(s);
    match NextEnd(s) {
      case None =>
        if !Blank(s) {
          VisibleOfTrim(s);
          assert [Trim(s)][1..] == [];
          assert Visible(Trim(s)) + [] == Visible(s);
        }
      case Some(k) =>
        StatementsUnfold(s, k);
        var rest := Statements(s[k..]);
        assert ([Trim(s[..k])] + rest)[1..] == rest;
        VisibleOfTrim(s[..k]);
        StatementsConserve(s[k..]);
        VisibleConcat(s[..k], s[k..]);
        assert s == s[..k] + s[k..];
    }
  }

  /** Every visible character outside comments is in exactly one statement, in the order of the text. */
  lemma SplitConserves(sql: string)
    ensures AllVisible(SplitStatements(sql)) == Visible(StripComments(sql))
  {
    hide StripComments, Statements;
    StatementsConserve(StripComments(sql));
  }
}
