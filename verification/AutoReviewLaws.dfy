/** What reconciling keeps, and when repeating it changes nothing (src/core/auto-review.ts 113-142, 180-280). */
module AutoReviewLaws {

  import opened TomlLines
  import opened AutoReview

  // ---- through blank lines ----

  lemma SolidCons(l: Line, rest: seq<Line>)
    ensures Solid([l] + rest) == (if l == Blank then [] else [l]) + Solid(rest)
  {
    SolidConcat([l], rest);
    SolidOne(l);
  }

  lemma {:induction false} TableOfSolid(d: seq<Line>, t: Table, block: seq<Line>)
    requires Solid(block) == block
    ensures TableBody(Solid(d), t) == Solid(TableBody(d, t))
    ensures WithTable(Solid(d), t, block) == Solid(WithTable(d, t, block))
  {
    hide Top, Rest;
    if d != [] {
      var l, rest := d[0], d[1..];
      assert d == [l] + rest;
      SolidCons(l, rest);
      if l == Header(t) {
        TopOfSolid(rest);
        SolidConcat(block, Rest(rest));
        assert ([l] + Solid(rest))[1..] == Solid(rest);
      } else {
        TableOfSolid(rest, t, block);
        SolidCons(l, WithTable(rest, t, block));
        if l == Blank {
          assert [] + Solid(rest) == Solid(rest);
        } else {
          assert ([l] + Solid(rest))[1..] == Solid(rest);
        }
      }
    }
  }

  lemma {:induction false} WithoutFirstOfSolid(lines: seq<Line>, l: Line)
    requires l != Blank
    ensures WithoutFirst(Solid(lines), l) == Solid(WithoutFirst(lines, l))
  {
    if lines != [] {
      var h, rest := lines[0], lines[1..];
      assert lines == [h] + rest;
      SolidCons(h, rest);
      WithoutFirstOfSolid(rest, l);
      SolidCons(h, WithoutFirst(rest, l));
      if h == Blank {
        assert [] + Solid(rest) == Solid(rest);
      } else {
        assert ([h] + Solid(rest))[1..] == Solid(rest);
      }
    }
  }

  lemma NormalizeIsSolid(lines: seq<Line>)
    ensures Solid(Normalize(lines)) == Solid(lines)
  {
    hide Squeeze, TrimEnd;
    var d := ToDoc(lines);
    SqueezeIsSolid(d);
    TrimEndIsSolid(Squeeze(d));
    var t: seq<Line> := TrimEnd(Squeeze(d));
    SolidConcat(t, [Blank]);
    SolidOne(Blank);
    assert Solid(t) + [] == Solid(t);
    if lines == [] {
      assert Solid(d) == [];
    }
  }

  /** Removing a table on the non-blank lines of a text. */
  lemma RemoveTableSolid(d: Doc, t: Table)
    ensures Solid(RemoveTable(d, t)) == WithoutTable(Solid(d), t)
  {
    hide Normalize, TrimEnd, Solid;
    TrimEndIsSolid(d);
    var lines: seq<Line> := TrimEnd(d);
    SolidMembers(lines);
    NormalizeIsSolid(WithoutTable(lines, t));
    NoLines();
    TableOfSolid(lines, t, []);
    if Header(t) !in lines {
      NoTable(Solid(d), t, []);
    }
  }

  lemma {:induction false} NoTable(s: seq<Line>, t: Table, block: seq<Line>)
    requires Header(t) !in s
    ensures WithTable(s, t, block) == s && TableBody(s, t) == []
  {
    if s != [] {
      assert s[0] in s && forall l | l in s[1..] :: l in s;
      NoTable(s[1..], t, block);
    }
  }

  lemma RemoveSelectorSolid(d: Doc, p: Quotable)
    ensures Solid(RemoveSelector(d, p)) == WithoutFirst(Top(Solid(d)), Selector(p)) + Rest(Solid(d))
  {
    hide Normalize, Solid, WithoutFirst, Top, Rest;
    TopOfSolid(d);
    var lines := WithoutFirst(Top(d), Selector(p)) + Rest(d);
    NormalizeIsSolid(lines);
    SolidConcat(WithoutFirst(Top(d), Selector(p)), Rest(d));
    WithoutFirstOfSolid(Top(d), Selector(p));
  }

  // ---- regions ----

  lemma TableCons(l: Line, rest: seq<Line>, t: Table, block: seq<Line>)
    ensures TableBody([l] + rest, t) == if l == Header(t) then Top(rest) else TableBody(rest, t)
    ensures WithTable([l] + rest, t, block) == if l == Header(t) then block + Rest(rest) else [l] + WithTable(rest, t, block)
  {
    assert ([l] + rest)[1..] == rest;
  }

  lemma SplitRegion(d: seq<Line>, i: nat) returns (end: nat)
    requires i < |d|
    ensures i < end <= |d| && d == d[..i] + [d[i]] + d[i + 1..end] + d[end..]
    ensures Headless(d[i + 1..end]) && Tables(d[end..])
  {
    hide TopEnd;
    var rest := d[i + 1..];
    PartsOf(rest);
    end := i + 1 + |Top(rest)|;
    assert d[i + 1..end] == Top(rest) && d[end..] == Rest(rest);
  }

  /** A text that holds the table, around the table's first header and body. */
  lemma RegionOf(d: seq<Line>, t: Table) returns (before: seq<Line>, after: seq<Line>)
    requires Header(t) in d
    ensures Around(d, t, before, after)
  {
    hide TopEnd, WithTable, TableBody, Top, Rest;
    var i := FirstAt(d, Header(t));
    assert d[..|d|] == d;
    var end := SplitRegion(d, i);
    before, after := d[..i], d[end..];
    assert forall j | i < j < end :: d[j] == d[i + 1..end][j - i - 1] && d[j] in d[i + 1..end];
    TableAt(d, t, i, end, []);
  }

  ghost predicate Around(d: seq<Line>, t: Table, before: seq<Line>, after: seq<Line>) {
    d == before + [Header(t)] + TableBody(d, t) + after && Header(t) !in before && Headless(TableBody(d, t)) && Tables(after)
  }

  lemma RegionWith(d: seq<Line>, t: Table, before: seq<Line>, after: seq<Line>, block: seq<Line>)
    requires Around(d, t, before, after)
    ensures WithTable(d, t, block) == before + block + after
  {
    hide TopEnd, WithTable, TableBody;
    var body := TableBody(d, t);
    var i := |before|;
    var end := i + 1 + |body|;
    assert d[..i] == before && d[i] == Header(t) && d[end..] == after;
    assert forall j | i < j < end :: d[j] == body[j - i - 1] && d[j] in body;
    TableAt(d, t, i, end, block);
  }

  lemma PartsOf(d: seq<Line>)
    ensures Headless(Top(d)) && Tables(Rest(d)) && d == Top(d) + Rest(d)
  {
    TopIsHeadless(d);
  }

  /** Removing a table takes out its first header and the lines that `TableBody` reads, and no other line. */
  lemma RemovesExactlyTheRegion(d: Doc, t: Table) returns (before: seq<Line>, after: seq<Line>)
    requires Header(t) in d
    ensures Solid(d) == before + [Header(t)] + Solid(TableBody(d, t)) + after && Header(t) !in before
    ensures Solid(RemoveTable(d, t)) == before + after
  {
    hide Solid, RemoveTable, WithTable;
    SolidMembers(d);
    before, after := RegionOf(Solid(d), t);
    RegionWith(Solid(d), t, before, after, []);
    NoLines();
    TableOfSolid(d, t, []);
    RemoveTableSolid(d, t);
    assert WithTable(Solid(d), t, []) == before + [] + after;
    assert before + [] + after == before + after;
  }

  /** Replacing or removing one table leaves every other table's body, and the top level. */
  lemma {:induction false} OthersKept(s: seq<Line>, t: Table, block: seq<Line>, other: Table)
    requires other != t && (block == [] || (block[0] == Header(t) && Headless(block[1..])))
    ensures TableBody(WithTable(s, t, block), other) == TableBody(s, other)
    ensures Top(WithTable(s, t, block)) == Top(s)
  {
    hide WithTable, TableBody, Top, Rest;
    if s == [] {
      assert WithTable(s, t, block) == s by { NoTable(s, t, block); }
    } else {
      var l, rest := s[0], s[1..];
      assert s == [l] + rest;
      TableCons(l, rest, t, block);
      TableCons(l, rest, other, block);
      TopCons(l, rest);
      if l == Header(t) {
        PastBlock(rest, block, t, other);
      } else {
        OthersKept(rest, t, block, other);
        var w := WithTable(rest, t, block);
        TableCons(l, w, other, block);
        TopCons(l, w);
      }
    }
  }

  lemma TopCons(l: Line, rest: seq<Line>)
    ensures Top([l] + rest) == if l.Header? then [] else [l] + Top(rest)
  {
    assert ([l] + rest)[1..] == rest;
  }

  lemma PastBlock(rest: seq<Line>, block: seq<Line>, t: Table, other: Table)
    requires other != t && (block == [] || (block[0] == Header(t) && Headless(block[1..])))
    ensures TableBody(block + Rest(rest), other) == TableBody(rest, other)
    ensures Top(block + Rest(rest)) == []
  {
    TopIsHeadless(rest);
    assert rest == Top(rest) + Rest(rest);
    SkipHeadless(Top(rest), Rest(rest), other);
    if block == [] {
      assert [] + Rest(rest) == Rest(rest);
    } else {
      assert block + Rest(rest) == [block[0]] + (block[1..] + Rest(rest));
      assert ([block[0]] + (block[1..] + Rest(rest)))[1..] == block[1..] + Rest(rest);
      SkipHeadless(block[1..], Rest(rest), other);
    }
  }

  lemma {:induction false} SkipHeadless(a: seq<Line>, b: seq<Line>, t: Table)
    requires Headless(a)
    ensures TableBody(a + b, t) == TableBody(b, t)
  {
    if a == [] {
      assert a + b == b;
    } else {
      assert a[0] in a && forall l | l in a[1..] :: l in a;
      assert (a + b)[0] == a[0] && (a + b)[1..] == a[1..] + b;
      SkipHeadless(a[1..], b, t);
    }
  }

  /** The table itself then reads as the block's body. */
  lemma {:induction false} BlockIsRead(s: seq<Line>, t: Table, block: seq<Line>)
    requires Header(t) in s && block != [] && block[0] == Header(t) && Headless(block[1..])
    ensures TableBody(WithTable(s, t, block), t) == block[1..]
  {
    var rest := s[1..];
    if s[0] == Header(t) {
      var w := block + Rest(rest);
      assert w[1..] == block[1..] + Rest(rest);
      TopIsHeadless(rest);
      TopEndOf(block[1..], Rest(rest));
    } else {
      BlockIsRead(rest, t, block);
    }
  }

  /** Removing one table leaves the top level and every other table's lines. */
  lemma OtherTablesKept(d: Doc, t: Table, other: Table)
    requires other != t
    ensures Solid(TableBody(RemoveTable(d, t), other)) == Solid(TableBody(d, other))
    ensures Solid(Top(RemoveTable(d, t))) == Solid(Top(d))
  {
    hide Solid, RemoveTable, WithTable, TableBody, Top;
    var e := RemoveTable(d, t);
    RemoveTableSolid(d, t);
    NoLines();
    TableOfSolid(e, other, []);
    TableOfSolid(d, other, []);
    OthersKept(Solid(d), t, [], other);
    TopOfSolid(d);
    TopOfSolid(e);
  }

  lemma NoLines()
    ensures Solid([]) == []
  {
  }
}
