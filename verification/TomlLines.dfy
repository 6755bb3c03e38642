/** A TOML text as the line editors see it: one element a line, the text split at line ends.

    Every table header is a line of its own without a trailing comment, keys and markers are not indented,
    bindings carry no trailing comment, and a line of white space is empty. */
module TomlLines {

  import opened Common

  /** A string that can stand between double quotes on one line and be read back. */
  type Quotable = s: string | s != "" && '"' !in s && '\n' !in s witness "x"

  datatype Table = Profile(profile: Quotable) | AutoReview | CodexLbProvider | OtherTable(name: string)

  datatype Key = ModelProvider | OpenaiBaseUrl | ModelCatalogJson | ProfileKey | PolicyKey | OtherKey(name: string)

  /** The comment lines that mark a key as managed. */
  datatype Marker = ProviderMarker | BaseUrlMarker | CatalogMarker

  /** A binding's value is there when it is a non-empty double-quoted string, which is all the readers see. */
  datatype Line = Header(table: Table) | Bind(key: Key, value: Option<Quotable>) | Mark(marker: Marker) | Blank
                | Other(text: string)

  /** The lines of a text; the empty text is one blank line. */
  type Doc = d: seq<Line> | d != [] witness [Blank]

  function ToDoc(lines: seq<Line>): Doc { if lines == [] then [Blank] else lines }

  // ---- blank lines ----

  /** Without leading line ends. */
  function DropLeading(d: Doc): Doc {
    if |d| > 1 && d[0] == Blank then DropLeading(d[1..]) else d
  }

  /** At most one blank line in a row, except at the very start or end: three line ends become two. */
  function Squeeze(d: seq<Line>): seq<Line>
    decreases |d|
  {
    if |d| < 4 then d
    else if d[1] == Blank && d[2] == Blank then Squeeze([d[0]] + d[2..])
    else [d[0]] + Squeeze(d[1..])
  }

  function TrimEnd(d: Doc): Doc {
    if |d| > 1 && d[|d| - 1] == Blank then TrimEnd(d[..|d| - 1]) else d
  }

  function EnsureTrailingNewline(d: Doc): Doc {
    var t: seq<Line> := TrimEnd(d);
    if t == [Blank] then [Blank] else t + [Blank]
  }

  /** The lines that are not blank. */
  function Solid(d: seq<Line>): seq<Line> {
    if d == [] then [] else (if d[0] == Blank then [] else [d[0]]) + Solid(d[1..])
  }

  lemma {:induction false} SolidConcat(a: seq<Line>, b: seq<Line>)
    ensures Solid(a + b) == Solid(a) + Solid(b)
  {
    if a == [] {
      assert a + b == b;
    } else {
      assert (a + b)[0] == a[0] && (a + b)[1..] == a[1..] + b;
      SolidConcat(a[1..], b);
    }
  }

  lemma {:induction false} SolidMembers(d: seq<Line>)
    ensures forall l :: l in Solid(d) <==> l in d && l != Blank
  {
    if d != [] {
      SolidMembers(d[1..]);
    }
  }

  lemma SolidOne(l: Line)
    ensures Solid([l]) == if l == Blank then [] else [l]
  {
    assert [l][1..] == [];
  }

  lemma {:induction false} DropLeadingIsSolid(d: Doc)
    ensures Solid(DropLeading(d)) == Solid(d)
  {
    if |d| > 1 && d[0] == Blank {
      DropLeadingIsSolid(d[1..]);
    }
  }

  lemma {:induction false} SqueezeIsSolid(d: seq<Line>)
    ensures Solid(Squeeze(d)) == Solid(d)
    ensures d != [] ==> Squeeze(d) != []
    decreases |d|
  {
    if |d| >= 4 {
      if d[1] == Blank && d[2] == Blank {
        var e := [d[0]] + d[2..];
        SqueezeIsSolid(e);
        assert d == [d[0]] + [d[1]] + d[2..];
        SolidConcat([d[0]], d[2..]);
        SolidConcat([d[0]], [d[1]] + d[2..]);
        SolidConcat([d[1]], d[2..]);
        SolidOne(d[1]);
        assert [d[0]] + ([d[1]] + d[2..]) == d;
      } else {
        SqueezeIsSolid(d[1..]);
        var r := Squeeze(d[1..]);
        assert ([d[0]] + r)[1..] == r;
      }
    }
  }

  lemma {:induction false} TrimEndIsSolid(d: Doc)
    ensures Solid(TrimEnd(d)) == Solid(d)
  {
    if |d| > 1 && d[|d| - 1] == Blank {
      var init: Doc := d[..|d| - 1];
      TrimEndIsSolid(init);
      assert d == init + [Blank];
      SolidConcat(init, [Blank]);
      SolidOne(Blank);
    }
  }

  lemma EnsureNewlineIsSolid(d: Doc)
    ensures Solid(EnsureTrailingNewline(d)) == Solid(d)
  {
    TrimEndIsSolid(d);
    SolidConcat(TrimEnd(d), [Blank]);
    SolidOne(Blank);
    assert Solid(TrimEnd(d)) + [] == Solid(TrimEnd(d));
  }

  /** The two clean-ups after an edit. */
  function Tidy(lines: seq<Line>): Doc {
    SqueezeIsSolid(DropLeading(ToDoc(lines)));
    Squeeze(DropLeading(ToDoc(lines)))
  }

  lemma TidyIsSolid(lines: seq<Line>)
    ensures Solid(Tidy(lines)) == Solid(lines)
  {
    DropLeadingIsSolid(ToDoc(lines));
    SqueezeIsSolid(DropLeading(ToDoc(lines)));
    if lines == [] {
      SolidOne(Blank);
    }
  }

  // ---- the top level ----

  /** The first header line, or the end. */
  function TopEnd(d: seq<Line>): (n: nat)
    ensures n <= |d| && (forall i | 0 <= i < n :: !d[i].Header?) && (n < |d| ==> d[n].Header?)
  {
    if d == [] || d[0].Header? then 0 else 1 + TopEnd(d[1..])
  }

  /** Where the readers stop: a header counts only after a line end, so not on the first line. */
  function ReadEnd(d: Doc): (n: nat)
    ensures 1 <= n <= |d| && (forall i | 1 <= i < n :: !d[i].Header?) && (n < |d| ==> d[n].Header?)
  {
    1 + TopEnd(d[1..])
  }

  function Top(d: seq<Line>): seq<Line> { d[..TopEnd(d)] }

  function Rest(d: seq<Line>): seq<Line> { d[TopEnd(d)..] }

  /** The first readable value of a key among some lines. */
  function Read(lines: seq<Line>, k: Key): Option<Quotable> {
    if lines == [] then None
    else if lines[0].Bind? && lines[0].key == k && lines[0].value.Some? then lines[0].value
    else Read(lines[1..], k)
  }

  predicate Headless(lines: seq<Line>) { forall l | l in lines :: !l.Header? }

  predicate Tables(lines: seq<Line>) { lines == [] || lines[0].Header? }

  lemma {:induction false} TopEndOf(t: seq<Line>, r: seq<Line>)
    requires Headless(t) && Tables(r)
    ensures TopEnd(t + r) == |t| && Top(t + r) == t && Rest(t + r) == r
  {
    if t == [] {
      assert t + r == r;
    } else {
      assert t[0] in t && (t + r)[0] == t[0] && (t + r)[1..] == t[1..] + r;
      assert forall l | l in t[1..] :: l in t;
      TopEndOf(t[1..], r);
    }
  }

  lemma TopIsHeadless(d: seq<Line>)
    ensures Headless(Top(d)) && Tables(Rest(d)) && d == Top(d) + Rest(d)
  {
  }

  lemma SolidOfTables(r: seq<Line>)
    requires Tables(r)
    ensures Tables(Solid(r))
  {
  }

  /** The solid lines of a text determine its solid top level and its solid tables. */
  lemma SolidSplits(d: seq<Line>, t: seq<Line>, r: seq<Line>)
    requires Headless(t) && Tables(r) && Solid(d) == Solid(t) + Solid(r)
    ensures Solid(Top(d)) == Solid(t) && Solid(Rest(d)) == Solid(r)
  {
    TopIsHeadless(d);
    SolidConcat(Top(d), Rest(d));
    SolidMembers(t);
    SolidMembers(Top(d));
    SolidOfTables(r);
    SolidOfTables(Rest(d));
    TopEndOf(Solid(t), Solid(r));
    TopEndOf(Solid(Top(d)), Solid(Rest(d)));
  }

  /** Cutting off the tables and dropping blank lines may be done in either order. */
  lemma TopOfSolid(d: seq<Line>)
    ensures Top(Solid(d)) == Solid(Top(d)) && Rest(Solid(d)) == Solid(Rest(d))
  {
    hide Solid;
    TopIsHeadless(d);
    SolidConcat(Top(d), Rest(d));
    SolidMembers(Top(d));
    SolidOfTables(Rest(d));
    TopEndOf(Solid(Top(d)), Solid(Rest(d)));
  }

  /** Tidying a top level and tables keeps both. */
  lemma TidySplits(t: seq<Line>, r: seq<Line>)
    requires Headless(t) && Tables(r)
    ensures Solid(Top(Tidy(t + r))) == Solid(t) && Solid(Rest(Tidy(t + r))) == Solid(r)
  {
    TidyIsSolid(t + r);
    SolidConcat(t, r);
    SolidSplits(Tidy(t + r), t, r);
  }

  lemma {:induction false} ReadConcat(a: seq<Line>, b: seq<Line>, k: Key)
    ensures Read(a + b, k) == if Read(a, k).Some? then Read(a, k) else Read(b, k)
  {
    if a == [] {
      assert a + b == b;
    } else {
      assert (a + b)[0] == a[0] && (a + b)[1..] == a[1..] + b;
      ReadConcat(a[1..], b, k);
    }
  }

  lemma {:induction false} ReadOfSolid(lines: seq<Line>, k: Key)
    ensures Read(Solid(lines), k) == Read(lines, k)
  {
    if lines != [] {
      ReadOfSolid(lines[1..], k);
      var s := Solid(lines[1..]);
      if lines[0] != Blank {
        assert Solid(lines) == [lines[0]] + s && ([lines[0]] + s)[1..] == s;
      } else {
        assert Solid(lines) == s;
      }
    }
  }

  lemma {:induction false} ReadMeaning(lines: seq<Line>, k: Key)
    ensures Read(lines, k).Some? <==> exists l :: l in lines && l.Bind? && l.key == k && l.value.Some?
    ensures Read(lines, k).Some? ==> Bind(k, Read(lines, k)) in lines
  {
    if lines != [] {
      ReadMeaning(lines[1..], k);
      assert forall l :: l in lines <==> l == lines[0] || l in lines[1..];
    }
  }
}
