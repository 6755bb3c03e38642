/** SQL comment stripping and quote-aware statement splitting. */
module SqlScan {
  import opened Common
  import opened Text

  // ---- comment stripping ----

  predicate PairAt(s: string, i: nat, a: char, b: char) { i + 1 < |s| && s[i] == a && s[i + 1] == b }

  predicate HasPair(s: string, a: char, b: char) { exists i: nat | i < |s| :: PairAt(s, i, a, b) }

  /** The first place where `a` is followed by `b`. */
  function FindPair(s: string, a: char, b: char): (r: Option<nat>)
    ensures r.None? <==> !HasPair(s, a, b)
    ensures r.Some? ==> PairAt(s, r.value, a, b) && forall i: nat | i < r.value :: !PairAt(s, i, a, b)
  {
    if |s| < 2 then None
    else if s[0] == a && s[1] == b then
      assert PairAt(s, 0, a, b);
      Some(0)
    else
      var r := FindPair(s[1..], a, b);
      assert forall i: nat :: PairAt(s, i + 1, a, b) <==> PairAt(s[1..], i, a, b);
      assert forall i: nat | i > 0 :: PairAt(s, i, a, b) <==> PairAt(s[1..], i - 1, a, b);
      if r.None? then None else Some(r.value + 1)
  }

  /** Each block comment, up to its first end mark, becomes a blank; an unclosed one stays. */
  function StripBlocks(s: string): string {
    if |s| < 2 then s
    else if s[0] == '/' && s[1] == '*' && HasPair(s[2..], '*', '/') then
      " " + StripBlocks(s[2..][FindPair(s[2..], '*', '/').value + 2..])
    else [s[0]] + StripBlocks(s[1..])
  }

  predicate LineEnd(c: char) { c == '\n' || c == '\r' }

  /** From the first line end on. */
  function SkipLine(s: string): (r: string)
    ensures |r| <= |s|
  {
    if s == [] || LineEnd(s[0]) then s else SkipLine(s[1..])
  }

  lemma {:induction false} SkipLineIsSuffix(s: string)
    ensures SkipLine(s) == s[|s| - |SkipLine(s)|..]
  {
    if s != [] && !LineEnd(s[0]) {
      SkipLineIsSuffix(s[1..]);
    }
  }

  function StripLines(s: string): string
    decreases |s|
  {
    if |s| < 2 then s
    else if s[0] == '-' && s[1] == '-' then " " + StripLines(SkipLine(s[2..]))
    else [s[0]] + StripLines(s[1..])
  }

  /** Each run of white space becomes one blank. */
  function Collapse(s: string): string {
    if s == [] then []
    else if IsSpace(s[0]) then " " + Collapse(TrimStart(s[1..]))
    else [s[0]] + Collapse(s[1..])
  }

  function StripComments(s: string): string { Trim(Collapse(StripLines(StripBlocks(s)))) }

  // ---- statement splitting ----

  datatype Quote = Unquoted | Quoted(mark: char)

  function Toggle(q: Quote, c: char, escaped: bool): Quote {
    if (c == '\'' || c == '"') && !escaped then
      (if q == Quoted(c) then Unquoted else if q == Unquoted then Quoted(c) else q)
    else q
  }

  /** The length of the first statement, through its unquoted semicolon. */
  function FirstEnd(s: string, q: Quote, escaped: bool): (r: Option<nat>)
    ensures r.Some? ==> 1 <= r.value <= |s| && s[r.value - 1] == ';'
  {
    if s == [] then None
    else
      var q' := Toggle(q, s[0], escaped);
      if s[0] == ';' && q' == Unquoted then Some(1)
      else
        match FirstEnd(s[1..], q', s[0] == '\\')
        case None => None
        case Some(k) => Some(k + 1)
  }

  function NextEnd(s: string): (r: Option<nat>)
    ensures r.Some? ==> 1 <= r.value <= |s| && s[r.value - 1] == ';'
  {
    FirstEnd(s, Unquoted, false)
  }

  function Statements(s: string): seq<string>
    decreases |s|
  {
    match NextEnd(s)
    case Some(k) => [Trim(s[..k])] + Statements(s[k..])
    case None => if Blank(s) then [] else [Trim(s)]
  }

  function SplitStatements(sql: string): seq<string> { Statements(StripComments(sql)) }

  /** What is still to come when `current` has been read of the current statement. */
  function Continued(current: string, rest: string, q: Quote, escaped: bool): seq<string> {
    match FirstEnd(rest, q, escaped)
    case Some(k) => [Trim(current + rest[..k])] + Statements(rest[k..])
    case None => if Blank(current + rest) then [] else [Trim(current + rest)]
  }

  /** The splitting loop. */
  method SplitSqlStatements(sql: string) returns (out: seq<string>)
    ensures out == SplitStatements(sql)
  {
    var text := StripComments(sql);
    out := [];
    var current := "";
    var quote := Unquoted;
    ghost var rest := text;
    FreshStatement(text);
    hide Continued, Trim, Toggle, StripComments, Statements, IsSpace;
    for i := 0 to |text|
      invariant rest == text[i..]
      invariant out + Continued(current, rest, quote, i > 0 && text[i - 1] == '\\') == Statements(text)
    {
      var ch := text[i];
      var escaped := i > 0 && text[i - 1] == '\\';
      ContinuedStep(current, rest, quote, escaped);
      ghost var now := out;
      RestStep(text, i);
      rest := rest[1..];
      current := current + [ch];
      quote := Toggle(quote, ch, escaped);
      if ch == ';' && quote == Unquoted {
        ghost var more := Continued("", rest, Unquoted, false);
        assert now + ([Trim(current)] + more) == (now + [Trim(current)]) + more;
        FreshStatement(rest);
        out := out + [Trim(current)];
        current := "";
      }
    }
    LastStatement(current, quote, text != [] && text[|text| - 1] == '\\');
    if !Blank(current) {
      out := out + [Trim(current)];
    }
  }

  lemma RestStep(text: string, i: nat)
    requires i < |text|
    ensures text[i..] != [] && text[i..][0] == text[i] && text[i..][1..] == text[i + 1..]
  {
  }

  lemma LastStatement(current: string, q: Quote, escaped: bool)
    ensures Continued(current, [], q, escaped) == if Blank(current) then [] else [Trim(current)]
  {
    assert current + [] == current;
  }

  lemma ContinuedStep(current: string, rest: string, q: Quote, escaped: bool)
    requires rest != []
    ensures var q' := Toggle(q, rest[0], escaped);
            Continued(current, rest, q, escaped) ==
            if rest[0] == ';' && q' == Unquoted then
              [Trim(current + [rest[0]])] + Continued("", rest[1..], Unquoted, false)
            else Continued(current + [rest[0]], rest[1..], q', rest[0] == '\\')
  {
    hide Trim, Blank, Toggle, Statements, FirstEnd;
    var q' := Toggle(q, rest[0], escaped);
    var tail := rest[1..];
    FirstEndStep(rest, q, escaped);
    if rest[0] == ';' && q' == Unquoted {
      assert rest[..1] == [rest[0]];
      FreshStatement(tail);
    } else {
      match FirstEnd(tail, q', rest[0] == '\\') {
        case None =>
          assert current + rest == current + [rest[0]] + tail;
        case Some(k) =>
          assert current + rest[..k + 1] == current + [rest[0]] + tail[..k];
          assert rest[k + 1..] == tail[k..];
      }
    }
  }

  lemma FirstEndStep(s: string, q: Quote, escaped: bool)
    requires s != []
    ensures var q' := Toggle(q, s[0], escaped);
            FirstEnd(s, q, escaped) ==
            if s[0] == ';' && q' == Unquoted then Some(1)
            else match FirstEnd(s[1..], q', s[0] == '\\') case None => None case Some(k) => Some(k + 1)
  {
  }

  lemma FreshStatement(rest: string)
    ensures Continued("", rest, Unquoted, false) == Statements(rest)
  {
    hide Trim, Blank;
    assert "" + rest == rest;
    match NextEnd(rest) {
      case None =>
      case Some(k) => assert "" + rest[..k] == rest[..k];
    }
  }

  // ---- canonical text: what stripping leaves ----

  /** No block comment opens and closes. */
  predicate NoBlock(s: string) {
    |s| < 2 || (!(s[0] == '/' && s[1] == '*' && HasPair(s[2..], '*', '/')) && NoBlock(s[1..]))
  }

  predicate SingleSpaced(s: string) {
    forall i | 0 <= i < |s| && IsSpace(s[i]) :: s[i] == ' ' && (i + 1 < |s| ==> !IsSpace(s[i + 1]))
  }

  predicate Canonical(s: string) { NoBlock(s) && !HasPair(s, '-', '-') && SingleSpaced(s) && Trimmed(s) }

  predicate OpensBlock(s: string) { |s| >= 2 && s[0] == '/' && s[1] == '*' && HasPair(s[2..], '*', '/') }

  function AfterBlock(s: string): (r: string)
    requires OpensBlock(s)
    ensures |r| < |s| && r == s[|s| - |r|..] && s[|s| - |r| - 1] == '/'
  {
    s[2..][FindPair(s[2..], '*', '/').value + 2..]
  }

  /** One step of the block stripper. */
  lemma BlocksStep(s: string)
    requires s != []
    ensures StripBlocks(s) == if OpensBlock(s) then " " + StripBlocks(AfterBlock(s)) else [s[0]] + StripBlocks(s[1..])
  {
  }

  lemma BlocksFirst(s: string)
    requires s != []
    ensures StripBlocks(s) != [] && (StripBlocks(s)[0] == s[0] || StripBlocks(s)[0] == ' ')
  {
    hide StripBlocks;
    BlocksStep(s);
  }

  predicate OpensLine(s: string) { |s| >= 2 && s[0] == '-' && s[1] == '-' }

  /** One step of the line-comment stripper. */
  lemma LinesStep(s: string)
    requires s != []
    ensures StripLines(s) == if OpensLine(s) then " " + StripLines(SkipLine(s[2..])) else [s[0]] + StripLines(s[1..])
  {
  }

  /** One step of the white-space collapser. */
  lemma CollapseStep(s: string)
    requires s != []
    ensures Collapse(s) == if IsSpace(s[0]) then " " + Collapse(TrimStart(s[1..])) else [s[0]] + Collapse(s[1..])
  {
  }

  lemma PairTail(s: string, a: char, b: char)
    requires s != []
    ensures HasPair(s, a, b) <==> PairAt(s, 0, a, b) || HasPair(s[1..], a, b)
  {
    var t := s[1..];
    forall i: nat | i < |t| && PairAt(t, i, a, b) ensures HasPair(s, a, b) { assert PairAt(s, i + 1, a, b); }
    forall i: nat | 0 < i < |s| && PairAt(s, i, a, b) ensures HasPair(t, a, b) { assert PairAt(t, i - 1, a, b); }
  }

  lemma PairInPart(s: string, i: nat, j: nat, a: char, b: char)
    requires i <= j <= |s| && HasPair(s[i..j], a, b)
    ensures HasPair(s, a, b)
  {
    var k: nat :| k < |s[i..j]| && PairAt(s[i..j], k, a, b);
    assert PairAt(s, i + k, a, b);
  }

  lemma {:induction false} NoBlockSuffix(s: string, i: nat)
    requires NoBlock(s) && i <= |s|
    ensures NoBlock(s[i..])
  {
    if i > 0 && |s| >= 2 {
      NoBlockSuffix(s[1..], i - 1);
      assert s[i..] == s[1..][i - 1..];
    } else {
      assert i == 0 ==> s[i..] == s;
    }
  }

  lemma {:induction false} NoBlockPrefix(s: string, i: nat)
    requires NoBlock(s) && i <= |s|
    ensures NoBlock(s[..i])
  {
    if i >= 2 {
      NoBlockPrefix(s[1..], i - 1);
      assert s[..i][1..] == s[1..][..i - 1];
      if HasPair(s[..i][2..], '*', '/') {
        assert s[..i][2..] == s[2..i];
        assert s[2..][0..i - 2] == s[2..i];
        PairInPart(s[2..], 0, i - 2, '*', '/');
      }
    }
  }

  lemma {:induction false} NothingClosesNothingStripped(s: string)
    requires !HasPair(s, '*', '/')
    ensures StripBlocks(s) == s
  {
    if |s| >= 2 {
      PairTail(s, '*', '/');
      PairTail(s[1..], '*', '/');
      assert s[1..][1..] == s[2..];
      NothingClosesNothingStripped(s[1..]);
    }
  }

  lemma {:induction false} StripBlocksNoBlock(s: string)
    ensures NoBlock(StripBlocks(s))
    decreases |s|
  {
    if |s| >= 2 {
      if s[0] == '/' && s[1] == '*' && HasPair(s[2..], '*', '/') {
        var rest := s[2..][FindPair(s[2..], '*', '/').value + 2..];
        StripBlocksNoBlock(rest);
        assert (" " + StripBlocks(rest))[1..] == StripBlocks(rest);
      } else {
        var r := StripBlocks(s[1..]);
        StripBlocksNoBlock(s[1..]);
        assert ([s[0]] + r)[1..] == r;
        if s[0] == '/' && r != [] && r[0] == '*' {
          assert s[1] == '*';
          assert s[1..][1..] == s[2..];
          assert r[1..] == StripBlocks(s[2..]);
          NothingClosesNothingStripped(s[2..]);
          assert ([s[0]] + r)[2..] == r[1..];
        }
      }
    }
  }

  lemma StripLinesFirst(s: string)
    requires s != []
    ensures StripLines(s) != [] && (StripLines(s)[0] == s[0] || StripLines(s)[0] == ' ')
  {
  }

  /** Stripping line comments makes no new adjacent pair of visible characters. */
  lemma {:induction false} StripLinesPairs(s: string, a: char, b: char)
    requires a != ' ' && b != ' ' && HasPair(StripLines(s), a, b)
    ensures HasPair(s, a, b)
    decreases |s|
  {
    hide HasPair, StripLines, SkipLine;
    if s == [] {
      NothingPaired(a, b);
    } else {
      var out := StripLines(s);
      LinesStep(s);
      PairTail(out, a, b);
      PairTail(s, a, b);
      if OpensLine(s) {
        var rest := SkipLine(s[2..]);
        SkipLineIsSuffix(s[2..]);
        assert out[1..] == StripLines(rest) && rest == s[|s| - |rest|..|s|];
        StripLinesPairs(rest, a, b);
        PairInPart(s, |s| - |rest|, |s|, a, b);
      } else {
        assert out[0] == s[0] && out[1..] == StripLines(s[1..]);
        if PairAt(out, 0, a, b) {
          assert s[1..] != [] by { NothingPaired(a, b); }
          StripLinesFirst(s[1..]);
        } else {
          StripLinesPairs(s[1..], a, b);
        }
      }
    }
  }

  lemma NothingPaired(a: char, b: char)
    ensures StripLines([]) == [] && !HasPair([], a, b)
  {
  }

  lemma {:induction false} StripLinesNoBlock(s: string)
    requires NoBlock(s)
    ensures NoBlock(StripLines(s))
    decreases |s|
  {
    if |s| >= 2 {
      if s[0] == '-' && s[1] == '-' {
        var rest := SkipLine(s[2..]);
        SkipLineIsSuffix(s[2..]);
        assert rest == s[|s| - |rest|..];
        NoBlockSuffix(s, |s| - |rest|);
        StripLinesNoBlock(rest);
        assert StripLines(s)[1..] == StripLines(rest);
      } else {
        var r := StripLines(s[1..]);
        StripLinesNoBlock(s[1..]);
        assert StripLines(s)[1..] == r;
        if s[0] == '/' && r != [] && r[0] == '*' && HasPair(r[1..], '*', '/') {
          assert s[1] == '*' && s[1..][1..] == s[2..];
          assert r[1..] == StripLines(s[2..]);
          StripLinesPairs(s[2..], '*', '/');
          assert false;
        }
        assert |r| >= 1 ==> StripLines(s)[2..] == r[1..];
      }
    }
  }

  lemma {:induction false} StripLinesNoDash(s: string)
    ensures !HasPair(StripLines(s), '-', '-')
    decreases |s|
  {
    if |s| >= 2 {
      PairTail(StripLines(s), '-', '-');
      if s[0] == '-' && s[1] == '-' {
        assert StripLines(s)[1..] == StripLines(SkipLine(s[2..]));
        StripLinesNoDash(SkipLine(s[2..]));
      } else {
        assert StripLines(s)[1..] == StripLines(s[1..]);
        StripLinesNoDash(s[1..]);
      }
    }
  }

  lemma {:induction false} CollapsePairs(s: string, a: char, b: char)
    requires !IsSpace(a) && !IsSpace(b) && HasPair(Collapse(s), a, b)
    ensures HasPair(s, a, b)
    decreases |s|
  {
    if s != [] {
      PairTail(s, a, b);
      PairTail(Collapse(s), a, b);
      if IsSpace(s[0]) {
        var rest := TrimStart(s[1..]);
        assert Collapse(s)[1..] == Collapse(rest);
        CollapsePairs(rest, a, b);
        assert rest == s[1..][LeadingSpaces(s[1..])..|s[1..]|];
        PairInPart(s[1..], LeadingSpaces(s[1..]), |s[1..]|, a, b);
      } else {
        assert Collapse(s)[1..] == Collapse(s[1..]);
        if PairAt(Collapse(s), 0, a, b) {
          assert PairAt(s, 0, a, b);
        } else {
          CollapsePairs(s[1..], a, b);
        }
      }
    }
  }

  lemma {:induction false} CollapseNoBlock(s: string)
    requires NoBlock(s)
    ensures NoBlock(Collapse(s))
    decreases |s|
  {
    if s != [] {
      NoBlockSuffix(s, 1);
      if IsSpace(s[0]) {
        var rest := TrimStart(s[1..]);
        NoBlockSuffix(s[1..], LeadingSpaces(s[1..]));
        CollapseNoBlock(rest);
        assert Collapse(s)[1..] == Collapse(rest);
      } else {
        var r := Collapse(s[1..]);
        CollapseNoBlock(s[1..]);
        assert Collapse(s)[1..] == r;
        if s[0] == '/' && r != [] && r[0] == '*' && HasPair(r[1..], '*', '/') {
          assert s[1] == '*' && s[1..][1..] == s[2..];
          assert r[1..] == Collapse(s[2..]);
          CollapsePairs(s[2..], '*', '/');
          assert false;
        }
        assert |r| >= 1 ==> Collapse(s)[2..] == r[1..];
      }
    }
  }

  lemma {:induction false} CollapseSingleSpaced(s: string)
    ensures SingleSpaced(Collapse(s))
    ensures s != [] && !IsSpace(s[0]) ==> Collapse(s) != [] && Collapse(s)[0] == s[0]
    ensures s == [] <==> Collapse(s) == []
    decreases |s|
  {
    hide Collapse, SingleSpaced, IsSpace, TrimStart;
    NothingIsSpaced();
    if s != [] {
      CollapseStep(s);
      if IsSpace(s[0]) {
        var rest := TrimStart(s[1..]);
        TrimStartIsVisible(s[1..]);
        CollapseSingleSpaced(rest);
        OneMoreSpaced(' ', Collapse(rest));
      } else {
        CollapseSingleSpaced(s[1..]);
        OneMoreSpaced(s[0], Collapse(s[1..]));
      }
    }
  }

  lemma NothingIsSpaced()
    ensures Collapse([]) == [] && SingleSpaced([]) && IsSpace(' ')
  {
  }

  lemma TrimStartIsVisible(s: string)
    ensures |TrimStart(s)| <= |s| && (TrimStart(s) != [] ==> !IsSpace(TrimStart(s)[0]))
  {
  }

  lemma OneMoreSpaced(c: char, r: string)
    requires SingleSpaced(r) && (IsSpace(c) ==> c == ' ' && (r == [] || !IsSpace(r[0])))
    ensures SingleSpaced([c] + r)
  {
    hide IsSpace;
    var s := [c] + r;
    forall i | 0 <= i < |s| && IsSpace(s[i]) ensures s[i] == ' ' && (i + 1 < |s| ==> !IsSpace(s[i + 1])) {
      if i > 0 {
        assert s[i] == r[i - 1];
      }
    }
  }

  lemma PartOfSingleSpaced(s: string, i: nat, j: nat)
    requires SingleSpaced(s) && i <= j <= |s|
    ensures SingleSpaced(s[i..j])
  {
  }

  /** Stripping produces canonical text. */
  lemma StripIsCanonical(s: string)
    ensures Canonical(StripComments(s))
  {
    var blocks := StripBlocks(s);
    var lines := StripLines(blocks);
    var single := Collapse(lines);
    StripBlocksNoBlock(s);
    StripLinesNoBlock(blocks);
    StripLinesNoDash(blocks);
    CollapseNoBlock(lines);
    if HasPair(single, '-', '-') {
      CollapsePairs(lines, '-', '-');
    }
    CollapseSingleSpaced(lines);
    var e := TrimEnd(single);
    var k := LeadingSpaces(e);
    assert e == single[..|e|] && StripComments(s) == e[k..] == single[k..|e|];
    NoBlockPrefix(single, |e|);
    NoBlockSuffix(e, k);
    PartOfSingleSpaced(single, k, |e|);
    if HasPair(StripComments(s), '-', '-') {
      PairInPart(single, k, |e|, '-', '-');
    }
    TrimIsTrimmed(single);
  }

  lemma {:induction false} NoBlockStripsNothing(s: string)
    requires NoBlock(s)
    ensures StripBlocks(s) == s
  {
    if |s| >= 2 {
      NoBlockStripsNothing(s[1..]);
    }
  }

  lemma {:induction false} NoDashStripsNothing(s: string)
    requires !HasPair(s, '-', '-')
    ensures StripLines(s) == s
  {
    if |s| >= 2 {
      PairTail(s, '-', '-');
      NoDashStripsNothing(s[1..]);
    }
  }

  lemma {:induction false} SingleSpacedCollapsesNothing(s: string)
    requires SingleSpaced(s)
    ensures Collapse(s) == s
  {
    if s != [] {
      PartOfSingleSpaced(s, 1, |s|);
      assert s[1..|s|] == s[1..];
      SingleSpacedCollapsesNothing(s[1..]);
      if IsSpace(s[0]) {
        assert LeadingSpaces(s[1..]) == 0;
      }
    }
  }

  lemma CanonicalIsFixed(s: string)
    requires Canonical(s)
    ensures StripComments(s) == s
  {
    NoBlockStripsNothing(s);
    NoDashStripsNothing(s);
    SingleSpacedCollapsesNothing(s);
    TrimOfTrimmed(s);
  }

  /** Stripping comments twice is stripping them once, whatever the input leaves unclosed. */
  lemma StripIdempotent(s: string)
    ensures StripComments(StripComments(s)) == StripComments(s)
  {
    StripIsCanonical(s);
    CanonicalIsFixed(StripComments(s));
  }
}
