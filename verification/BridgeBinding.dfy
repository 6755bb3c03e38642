/** What the managed-binding edits keep, for every text (src/cli/install-helpers-codex-lb-config.ts).

    Blank lines move, so a text is compared by its View: the non-blank lines above the first table, and the rest. */
module BridgeBinding {

  import opened Common
  import opened TomlLines
  import opened BridgeConfig

  datatype View = View(top: seq<Line>, tables: seq<Line>)

  function ViewOf(d: seq<Line>): View { View(Solid(Top(d)), Solid(Rest(d))) }

  /** The lines that the program may write or remove. */
  predicate Owned(l: Line) { (l.Bind? && Managed(l.key)) || l.Mark? }

  /** The first table's lines, its header first. */
  function FirstTable(tables: seq<Line>): seq<Line> {
    if tables == [] then [] else [tables[0]] + Top(tables[1..])
  }

  // ---- views of the line edits ----

  lemma ViewFrom(d: seq<Line>, t: seq<Line>, r: seq<Line>)
    requires Headless(t) && Tables(r) && Solid(d) == Solid(t) + Solid(r)
    ensures ViewOf(d) == View(Solid(t), Solid(r))
  {
    SolidSplits(d, t, r);
  }

  lemma SolidOfView(d: seq<Line>)
    ensures Solid(d) == ViewOf(d).top + ViewOf(d).tables
  {
    TopIsHeadless(d);
    SolidConcat(Top(d), Rest(d));
  }

  lemma SameSolidSameView(d: seq<Line>, e: seq<Line>)
    requires Solid(d) == Solid(e)
    ensures ViewOf(d) == ViewOf(e)
  {
    SolidOfView(e);
    TopIsHeadless(e);
    SolidConcat(Top(e), Rest(e));
    ViewFrom(d, Top(e), Rest(e));
  }

  lemma EndedView(d: Doc)
    ensures ViewOf(EnsureTrailingNewline(d)) == ViewOf(d)
  {
    EnsureNewlineIsSolid(d);
    SameSolidSameView(EnsureTrailingNewline(d), d);
  }

  lemma {:induction false} SolidOfKept(lines: seq<Line>, ks: set<Key>, ms: set<Marker>)
    ensures Solid(Kept(lines, ks, ms)) == Kept(Solid(lines), ks, ms)
  {
    if lines != [] {
      var l, rest := lines[0], lines[1..];
      SolidOfKept(rest, ks, ms);
      assert lines == [l] + rest;
      KeptCons(l, rest, ks, ms);
      SolidConcat([l], Kept(rest, ks, ms));
      SolidOne(l);
      KeptCons(l, Solid(rest), ks, ms);
      assert [] + Kept(rest, ks, ms) == Kept(rest, ks, ms);
      assert [] + Solid(rest) == Solid(rest);
    }
  }

  lemma {:induction false} KeptMembers(lines: seq<Line>, ks: set<Key>, ms: set<Marker>)
    ensures forall l :: l in Kept(lines, ks, ms) <==> l in lines && !Dropped(l, ks, ms)
  {
    if lines != [] {
      KeptMembers(lines[1..], ks, ms);
      assert forall l :: l in lines <==> l == lines[0] || l in lines[1..];
    }
  }

  lemma {:induction false} KeptTwice(lines: seq<Line>, ks: set<Key>, ms: set<Marker>, ks': set<Key>, ms': set<Marker>)
    ensures Kept(Kept(lines, ks, ms), ks', ms') == Kept(lines, ks + ks', ms + ms')
  {
    if lines != [] {
      KeptTwice(lines[1..], ks, ms, ks', ms');
      var k := Kept(lines[1..], ks, ms);
      if Dropped(lines[0], ks, ms) {
        assert Kept(lines, ks, ms) == k;
      } else {
        KeptCons(lines[0], k, ks', ms');
      }
    }
  }

  lemma {:induction false} KeptAll(lines: seq<Line>, ks: set<Key>, ms: set<Marker>)
    requires forall l | l in lines :: !Dropped(l, ks, ms)
    ensures Kept(lines, ks, ms) == lines
  {
    if lines != [] {
      KeptAll(lines[1..], ks, ms);
    }
  }

  lemma {:induction false} KeptNothing(lines: seq<Line>, ks: set<Key>, ms: set<Marker>)
    requires forall l | l in lines :: Dropped(l, ks, ms)
    ensures Kept(lines, ks, ms) == []
  {
    if lines != [] {
      KeptNothing(lines[1..], ks, ms);
    }
  }

  lemma {:induction false} ReadOfKept(lines: seq<Line>, ks: set<Key>, ms: set<Marker>, k: Key)
    requires k !in ks
    ensures Read(Kept(lines, ks, ms), k) == Read(lines, k)
  {
    if lines != [] {
      ReadOfKept(lines[1..], ks, ms, k);
      ReadConcat([lines[0]], Kept(lines[1..], ks, ms), k);
      ReadConcat([lines[0]], lines[1..], k);
      assert lines == [lines[0]] + lines[1..];
      if Dropped(lines[0], ks, ms) {
        assert Kept(lines, ks, ms) == Kept(lines[1..], ks, ms);
      }
    }
  }

  lemma StripView(d: Doc, ks: set<Key>, ms: set<Marker>)
    ensures ViewOf(Strip(d, ks, ms)) == View(Kept(ViewOf(d).top, ks, ms), ViewOf(d).tables)
  {
    hide Tidy;
    TopIsHeadless(d);
    KeptMembers(Top(d), ks, ms);
    TidySplits(Kept(Top(d), ks, ms), Rest(d));
    SolidOfKept(Top(d), ks, ms);
  }

  predicate NoKey(lines: seq<Line>, k: Key) { forall l | l in lines :: !(l.Bind? && l.key == k) }

  lemma SolidNoKey(lines: seq<Line>, k: Key)
    ensures NoKey(Solid(lines), k) <==> NoKey(lines, k)
  {
    SolidMembers(lines);
  }

  lemma {:induction false} KeyAtPast(t: seq<Line>, l: Line, k: Key)
    requires NoKey(t, k) && l.Bind? && l.key == k
    ensures KeyAt(t, k) == |t| && KeyAt(t + [l], k) == |t|
  {
    if t != [] {
      assert (t + [l])[1..] == t[1..] + [l];
      KeyAtPast(t[1..], l, k);
    }
  }

  /** Inserting a key that is not there. */
  lemma InsertView(d: Doc, k: Key, v: Quotable)
    requires NoKey(ViewOf(d).top, k)
    ensures ViewOf(Upsert(d, k, v)) == View(ViewOf(d).top + [Bind(k, Some(v))], ViewOf(d).tables)
  {
    hide Tidy, Squeeze;
    var t, l := Top(d), Bind(k, Some(v));
    TopIsHeadless(d);
    SolidNoKey(t, k);
    KeyAtPast(t, l, k);
    TidySplits(t + [l], Rest(d));
    SolidConcat(t, [l]);
    SolidOne(l);
  }

  /** Putting other lines between two parts of the top level. */
  lemma SpliceView(d: Doc, e: Doc, a: seq<Line>, m: seq<Line>, m': seq<Line>, c: seq<Line>)
    requires Top(d) == a + m + c && Headless(m') && Solid(e) == Solid(a + m' + c + Rest(d))
    ensures ViewOf(d).top == Solid(a) + Solid(m) + Solid(c)
    ensures ViewOf(e) == View(Solid(a) + Solid(m') + Solid(c), ViewOf(d).tables)
  {
    TopIsHeadless(d);
    assert Headless(a + m' + c) by {
      forall l | l in a + m' + c ensures !l.Header? {
        assert l in m' || l in a + m + c;
      }
    }
    SolidConcat(a + m' + c, Rest(d));
    ViewFrom(e, a + m' + c, Rest(d));
    SolidConcat(a + m', c);
    SolidConcat(a, m');
    SolidConcat(a + m, c);
    SolidConcat(a, m);
  }

  lemma {:induction false} KeyAtSplit(a: seq<Line>, l: Line, c: seq<Line>, k: Key)
    requires NoKey(a, k) && l.Bind? && l.key == k
    ensures KeyAt(a + [l] + c, k) == |a|
  {
    if a == [] {
      assert (a + [l] + c)[0] == l;
    } else {
      assert (a + [l] + c)[1..] == a[1..] + [l] + c && (a + [l] + c)[0] == a[0];
      KeyAtSplit(a[1..], l, c, k);
    }
  }

  /** A top level that binds a key, split at the first binding. */
  lemma SplitAtKey(top: seq<Line>, k: Key) returns (a: seq<Line>, b: Line, c: seq<Line>)
    requires !NoKey(top, k)
    ensures top == a + [b] + c && NoKey(a, k) && b.Bind? && b.key == k && KeyAt(top, k) == |a|
  {
    var n := KeyAt(top, k);
    a, b, c := top[..n], top[n], top[n + 1..];
  }

  lemma InsertAt(a: seq<Line>, b: Line, c: seq<Line>, x: Line)
    ensures var d := a + [b] + c; d[..|a|] + [x] + d[|a|..] == a + [x, b] + c
  {
    var d := a + [b] + c;
    assert d[..|a|] == a && d[|a|..] == [b] + c;
    assert [x] + [b] == [x, b];
  }

  lemma MarkSplit(d: Doc, a: seq<Line>, b: Line, c: seq<Line>, k: Key, m: Marker)
    requires Top(d) == a + [b] + c && NoKey(a, k) && b.Bind? && b.key == k && Mark(m) !in Top(d)
    ensures ViewOf(d).top == Solid(a) + [b] + Solid(c)
    ensures ViewOf(AddMark(d, k, m)) == View(Solid(a) + [Mark(m), b] + Solid(c), ViewOf(d).tables)
  {
    MarkInserted(d, a, b, c, k, m);
    hide Solid, TopEnd, AddMark, Top, Rest;
    SpliceView(d, AddMark(d, k, m), a, [b], [Mark(m), b], c);
    SolidOne(b);
    SolidConcat([Mark(m)], [b]);
    SolidOne(Mark(m));
    assert [Mark(m)] + [b] == [Mark(m), b];
  }

  lemma MarkInserted(d: Doc, a: seq<Line>, b: Line, c: seq<Line>, k: Key, m: Marker)
    requires Top(d) == a + [b] + c && NoKey(a, k) && b.Bind? && b.key == k && Mark(m) !in Top(d)
    ensures AddMark(d, k, m) == a + [Mark(m), b] + c + Rest(d)
  {
    hide TopEnd, NoKey;
    var rest := Rest(d);
    KeyAtSplit(a, b, c, k);
    TopIsHeadless(d);
    InsertAt(a, b, c + rest, Mark(m));
    assert a + [b] + c + rest == a + [b] + (c + rest);
    assert a + [Mark(m), b] + (c + rest) == a + [Mark(m), b] + c + rest;
  }

  /** Marking a key that is bound once, on the last line. */
  lemma MarkView(d: Doc, t: seq<Line>, l: Line, k: Key, m: Marker)
    requires ViewOf(d).top == t + [l] && l.Bind? && l.key == k && NoKey(t, k) && Mark(m) !in t
    ensures ViewOf(AddMark(d, k, m)) == View(t + [Mark(m), l], ViewOf(d).tables)
  {
    hide Solid, AddMark, Top;
    SolidMembers(Top(d));
    SolidNoKey(Top(d), k);
    assert l in ViewOf(d).top;
    var a, b, c := SplitAtKey(Top(d), k);
    MarkSplit(d, a, b, c, k, m);
    SolidNoKey(a, k);
    KeyAtSplit(Solid(a), b, Solid(c), k);
    KeyAtPast(t, l, k);
    FirstPart(Solid(a), b, Solid(c), t, l);
    assert Solid(a) + [Mark(m), b] + [] == t + [Mark(m), l];
  }

  lemma FirstPart(a: seq<Line>, b: Line, c: seq<Line>, t: seq<Line>, l: Line)
    requires a + [b] + c == t + [l] && |a| == |t|
    ensures a == t && b == l && c == []
  {
    assert a == (a + [b] + c)[..|a|] && t == (t + [l])[..|t|];
    assert b == (a + [b] + c)[|a|];
    assert |a + [b] + c| == |t| + 1;
  }

  lemma WriteView(d: Doc, k: Key, v: Quotable)
    requires Managed(k) && NoKey(ViewOf(d).top, k) && Mark(MarkerOf(k)) !in ViewOf(d).top
    ensures ViewOf(Write(d, k, v)) == View(ViewOf(d).top + [Mark(MarkerOf(k)), Bind(k, Some(v))], ViewOf(d).tables)
  {
    hide Upsert, AddMark, Solid;
    InsertView(d, k, v);
    MarkView(Upsert(d, k, v), ViewOf(d).top, Bind(k, Some(v)), k, MarkerOf(k));
  }

  // ---- what the readers see ----

  /** The readers take a header on the first line for an ordinary line, and so read the first table. */
  function SeenBy(d: Doc): seq<Line> {
    if d[0].Header? then FirstTable(ViewOf(d).tables) else ViewOf(d).top
  }

  /** What they see once leading blank lines are gone. */
  function Exposed(v: View): seq<Line> { if v.top != [] then v.top else FirstTable(v.tables) }

  lemma SeenSolid(d: Doc)
    ensures Solid(d[..ReadEnd(d)]) == SeenBy(d)
  {
    hide Solid;
    if d[0].Header? {
      FirstTableSeen(d);
    } else {
      assert d == [d[0]] + d[1..];
      assert ReadEnd(d) == TopEnd(d);
    }
  }

  lemma FirstTableSeen(d: Doc)
    requires d[0].Header?
    ensures Solid(d[..ReadEnd(d)]) == FirstTable(ViewOf(d).tables)
  {
    var rest: seq<Line> := d[1..];
    assert Rest(d) == d && d == [d[0]] + rest;
    assert d[..ReadEnd(d)] == [d[0]] + Top(rest);
    hide Solid, TopEnd, Rest;
    SolidConcat([d[0]], rest);
    SolidConcat([d[0]], Top(rest));
    SolidOne(d[0]);
    TopOfSolid(rest);
    assert ([d[0]] + Solid(rest))[1..] == Solid(rest);
  }

  lemma Seen(d: Doc)
    ensures forall k :: TopString(d, k) == Read(SeenBy(d), k)
    ensures forall m :: HasMark(d, m) <==> Mark(m) in SeenBy(d)
  {
    SeenSolid(d);
    SolidMembers(d[..ReadEnd(d)]);
    forall k ensures TopString(d, k) == Read(SeenBy(d), k) {
      ReadOfSolid(d[..ReadEnd(d)], k);
    }
  }

  lemma {:induction false} DroppedHead(d: Doc)
    ensures DropLeading(d)[0] == Blank ==> DropLeading(d) == [Blank]
  {
    if |d| > 1 && d[0] == Blank {
      DroppedHead(d[1..]);
    }
  }

  lemma {:induction false} SqueezedHead(d: seq<Line>)
    requires d != []
    ensures Squeeze(d) != [] && Squeeze(d)[0] == d[0]
    decreases |d|
  {
    if |d| >= 4 && d[1] == Blank && d[2] == Blank {
      SqueezedHead([d[0]] + d[2..]);
    }
  }

  /** A tidied text starts with a line that is not blank, if it has one. */
  lemma TidyHead(lines: seq<Line>)
    ensures Tidy(lines)[0] == Blank ==> Solid(lines) == []
  {
    var d := ToDoc(lines);
    DroppedHead(d);
    SqueezedHead(DropLeading(d));
    DropLeadingIsSolid(d);
    SolidOne(Blank);
  }

  lemma HeadOfView(d: Doc)
    ensures d[0].Header? ==> ViewOf(d).top == []
    ensures d[0] != Blank && !d[0].Header? ==> ViewOf(d).top != []
  {
    if d[0] != Blank && !d[0].Header? {
      assert d[0] in Top(d) by { assert Top(d)[0] == d[0]; }
      SolidMembers(Top(d));
    }
  }

  lemma StripSeen(d: Doc, ks: set<Key>, ms: set<Marker>)
    ensures SeenBy(Strip(d, ks, ms)) == Exposed(ViewOf(Strip(d, ks, ms)))
  {
    hide Solid, Kept, Tidy;
    var lines := Kept(Top(d), ks, ms) + Rest(d);
    var e := Strip(d, ks, ms);
    TidyHead(lines);
    TidyIsSolid(lines);
    SolidOfView(e);
    HeadOfView(e);
  }

  /** A text with a line above its first table is read as it is meant to be. */
  lemma SeenAbove(d: Doc)
    requires ViewOf(d).top != []
    ensures SeenBy(d) == ViewOf(d).top
  {
    HeadOfView(d);
  }
}
