/** Switching the managed model catalog on and off (src/cli/install-helpers-codex-lb-config.ts 48-60). */
module BridgeCatalog {

  import opened Common
  import opened TomlLines
  import opened BridgeConfig
  import opened BridgeBinding
  import opened BridgeLaws

  lemma KeptWithout(a: seq<Line>, m: seq<Line>, m': seq<Line>, c: seq<Line>, ks: set<Key>, ms: set<Marker>)
    requires Kept(m, ks, ms) == Kept(m', ks, ms)
    ensures Kept(a + m + c, ks, ms) == Kept(a + m' + c, ks, ms)
  {
    KeptConcat(a + m, c, ks, ms);
    KeptConcat(a, m, ks, ms);
    KeptConcat(a + m', c, ks, ms);
    KeptConcat(a, m', ks, ms);
  }

  /** Replacing or inserting a key leaves it readable and keeps every other line. */
  lemma UpsertKeeps(d: Doc, k: Key, v: Quotable, ms: set<Marker>)
    ensures var t, w := ViewOf(d).top, ViewOf(Upsert(d, k, v));
      w.tables == ViewOf(d).tables && Kept(w.top, {k}, ms) == Kept(t, {k}, ms) &&
      Read(w.top, k) == Some(v) && !NoKey(w.top, k) && (forall m :: Mark(m) in w.top <==> Mark(m) in t)
  {
    hide Solid, Kept, Read, Tidy, Squeeze;
    var t, l := ViewOf(d).top, Bind(k, Some(v));
    KeptOne(l, {k}, ms);
    if NoKey(t, k) {
      InsertView(d, k, v);
      KeptConcat(t, [l], {k}, ms);
      ReadAfter(t, l, k, []);
      assert t + [l] + [] == t + [l];
    } else {
      SolidNoKey(Top(d), k);
      var a, b, c := SplitAtKey(Top(d), k);
      ReplaceSplit(d, a, b, c, k, v);
      KeptOne(b, {k}, ms);
      KeptWithout(Solid(a), [b], [l], Solid(c), {k}, ms);
      SolidNoKey(a, k);
      ReadAfter(Solid(a), l, k, Solid(c));
    }
  }

  lemma ReadAfter(a: seq<Line>, l: Line, k: Key, c: seq<Line>)
    requires NoKey(a, k) && l.Bind? && l.key == k && l.value.Some?
    ensures Read(a + [l] + c, k) == l.value && !NoKey(a + [l] + c, k)
  {
    NothingToRead(a, k);
    ReadConcat(a, [l], k);
    ReadConcat(a + [l], c, k);
    assert l in a + [l] + c;
  }

  lemma ReplaceSplit(d: Doc, a: seq<Line>, b: Line, c: seq<Line>, k: Key, v: Quotable)
    requires Top(d) == a + [b] + c && NoKey(a, k) && b.Bind? && b.key == k
    ensures ViewOf(d).top == Solid(a) + [b] + Solid(c)
    ensures ViewOf(Upsert(d, k, v)) == View(Solid(a) + [Bind(k, Some(v))] + Solid(c), ViewOf(d).tables)
  {
    hide Solid, Squeeze, Tidy;
    var l := Bind(k, Some(v));
    KeyAtSplit(a, b, c, k);
    assert d == a + [b] + c + Rest(d);
    assert d[|a| := l] == a + [l] + c + Rest(d);
    SqueezeIsSolid(d[|a| := l]);
    SpliceView(d, Upsert(d, k, v), a, [b], [l], c);
    SolidOne(b);
    SolidOne(l);
  }

  /** Marking a bound key adds the marker if it is missing, and nothing else. */
  lemma AddMarkKeeps(d: Doc, k: Key, m: Marker, ks: set<Key>)
    requires !NoKey(ViewOf(d).top, k)
    ensures var t, w := ViewOf(d).top, ViewOf(AddMark(d, k, m));
      w.tables == ViewOf(d).tables && Kept(w.top, ks, {m}) == Kept(t, ks, {m}) &&
      Read(w.top, k) == Read(t, k) && Mark(m) in w.top
  {
    hide Solid, Kept, Read;
    SolidMembers(Top(d));
    if Mark(m) !in Top(d) {
      SolidNoKey(Top(d), k);
      var a, b, c := SplitAtKey(Top(d), k);
      MarkSplit(d, a, b, c, k, m);
      var x, z := Solid(a), Solid(c);
      KeptOne(b, ks, {m});
      KeptCons(Mark(m), [b], ks, {m});
      assert [Mark(m)] + [b] == [Mark(m), b];
      KeptWithout(x, [b], [Mark(m), b], z, ks, {m});
      ReadPast(x, b, z, k, Mark(m));
      assert Mark(m) in x + [Mark(m), b] + z;
    }
  }

  lemma ReadPast(x: seq<Line>, b: Line, z: seq<Line>, k: Key, l: Line)
    requires !l.Bind?
    ensures Read(x + [l, b] + z, k) == Read(x + [b] + z, k)
  {
    ReadConcat(x + [l, b], z, k);
    ReadConcat(x, [l, b], k);
    ReadConcat(x + [b], z, k);
    ReadConcat(x, [b], k);
    assert [l, b][1..] == [b];
  }

  /** Whatever it is given, the switch changes no line but the catalog's key and marker. */
  lemma SwitchKeepsOthers(d: Doc, path: Option<Inline>)
    ensures var r := SetCatalog(d, path);
      r.Ok? ==>
        (ViewOf(r.doc).tables == ViewOf(d).tables &&
         Kept(ViewOf(r.doc).top, {ModelCatalogJson}, {CatalogMarker}) == Kept(ViewOf(d).top, {ModelCatalogJson}, {CatalogMarker}))
  {
    hide Solid, Kept, Read, Top, Strip, Upsert, AddMark, Basename, EnsureTrailingNewline, HasMark, TopString;
    var r := SetCatalog(d, path);
    var t := ViewOf(d).top;
    if r.Ok? && r.doc != d {
      if path.None? {
        OffView(d);
        KeptTwice(t, {ModelCatalogJson}, {CatalogMarker}, {ModelCatalogJson}, {CatalogMarker});
        assert {ModelCatalogJson} + {ModelCatalogJson} == {ModelCatalogJson} && {CatalogMarker} + {CatalogMarker} == {CatalogMarker};
      } else {
        UpsertKeeps(d, ModelCatalogJson, path.value, {CatalogMarker});
        var u := Upsert(d, ModelCatalogJson, path.value);
        AddMarkKeeps(u, ModelCatalogJson, CatalogMarker, {ModelCatalogJson});
        EndedView(Write(d, ModelCatalogJson, path.value));
      }
    }
  }

  lemma OffView(d: Doc)
    ensures ViewOf(EnsureTrailingNewline(RemoveMark(RemoveKey(d, ModelCatalogJson), CatalogMarker)))
         == View(Kept(ViewOf(d).top, {ModelCatalogJson}, {CatalogMarker}), ViewOf(d).tables)
  {
    hide Solid, Kept, Top, Strip, EnsureTrailingNewline;
    var t := ViewOf(d).top;
    var a := RemoveKey(d, ModelCatalogJson);
    var b := RemoveMark(a, CatalogMarker);
    StripView(d, {ModelCatalogJson}, {});
    StripView(a, {}, {CatalogMarker});
    KeptTwice(t, {ModelCatalogJson}, {}, {}, {CatalogMarker});
    assert {ModelCatalogJson} + {} == {ModelCatalogJson} && {} + {CatalogMarker} == {CatalogMarker};
    EndedView(b);
  }

  /** On a managed binding without a catalog of the user's own, the readers find after the switch what it was asked for,
      except when a header on the first line makes them read a catalog of the first table that is to be switched off: the
      switch does not reach into tables. Where it takes, switching again changes nothing at all. */
  lemma SwitchTakesExactly(d: Doc, path: Option<Inline>)
    requires HasMark(d, BaseUrlMarker) && !HasUserOwnedCatalog(d)
    requires path.Some? ==> CatalogPathValid(path.value)
    ensures var r := SetCatalog(d, path);
      r.Ok? &&
      (TopString(r.doc, ModelCatalogJson) == path <==> !(d[0].Header? && path.None? && TopString(d, ModelCatalogJson).Some?)) &&
      (TopString(r.doc, ModelCatalogJson) == path ==>
        (path.Some? ==> HasMark(r.doc, CatalogMarker)) && SetCatalog(r.doc, path) == r)
  {
    hide Solid, Kept, Read, Top, Strip, Upsert, AddMark, Basename, EnsureTrailingNewline, HasMark, TopString;
    if TopString(d, ModelCatalogJson) != path {
      if path.Some? {
        SwitchedOn(d, path.value);
      } else {
        SwitchedOff(d);
      }
    }
  }

  lemma SwitchedOn(d: Doc, path: Quotable)
    ensures var e := EnsureTrailingNewline(Write(d, ModelCatalogJson, path));
      TopString(e, ModelCatalogJson) == Some(path) && HasMark(e, CatalogMarker)
  {
    hide Solid, Kept, Read, Top, Strip, Upsert, AddMark, EnsureTrailingNewline, HasMark, TopString;
    var e := EnsureTrailingNewline(Write(d, ModelCatalogJson, path));
    UpsertKeeps(d, ModelCatalogJson, path, {CatalogMarker});
    AddMarkKeeps(Upsert(d, ModelCatalogJson, path), ModelCatalogJson, CatalogMarker, {ModelCatalogJson});
    EndedView(Write(d, ModelCatalogJson, path));
    Seen(e);
    SeenAbove(e);
  }

  lemma SwitchedOff(d: Doc)
    requires HasMark(d, BaseUrlMarker) && TopString(d, ModelCatalogJson).Some?
    ensures var e := EnsureTrailingNewline(RemoveMark(RemoveKey(d, ModelCatalogJson), CatalogMarker));
      TopString(e, ModelCatalogJson) == if d[0].Header? then TopString(d, ModelCatalogJson) else None
  {
    hide Solid, Kept, Read, Top, Strip, EnsureTrailingNewline, HasMark, TopString;
    var s := RemoveMark(RemoveKey(d, ModelCatalogJson), CatalogMarker);
    var e := EnsureTrailingNewline(s);
    Seen(d);
    Seen(e);
    OffView(d);
    EndedView(s);
    EndedHead(s);
    StripSeen(RemoveKey(d, ModelCatalogJson), {}, {CatalogMarker});
    HeadOfView(d);
    if d[0].Header? {
      KeptEmpty({ModelCatalogJson}, {CatalogMarker});
    } else {
      var t := ViewOf(d).top;
      KeptMembers(t, {ModelCatalogJson}, {CatalogMarker});
      NothingToRead(ViewOf(e).top, ModelCatalogJson);
      assert Mark(BaseUrlMarker) in ViewOf(e).top;
    }
  }

  /** A managed binding in a first table whose header is on the first line: the catalog is switched off and still read. */
  lemma SwitchOffMisses(table: Table, p: Quotable)
    ensures var d: Doc := [Header(table), Mark(BaseUrlMarker), Mark(CatalogMarker), Bind(ModelCatalogJson, Some(p))];
      SetCatalog(d, None).Ok? && TopString(SetCatalog(d, None).doc, ModelCatalogJson) == Some(p)
  {
    hide Strip, EnsureTrailingNewline;
    var d: Doc := [Header(table), Mark(BaseUrlMarker), Mark(CatalogMarker), Bind(ModelCatalogJson, Some(p))];
    ReadWholly(d, p);
    hide Read, TopString, HasMark, ReadEnd;
    SwitchedOff(d);
  }

  lemma ReadWholly(d: Doc, p: Quotable)
    requires |d| == 4 && d[1] == Mark(BaseUrlMarker) && d[2] == Mark(CatalogMarker) && d[3] == Bind(ModelCatalogJson, Some(p))
    requires d[0].Header?
    ensures HasMark(d, BaseUrlMarker) && HasMark(d, CatalogMarker) && TopString(d, ModelCatalogJson) == Some(p)
  {
    assert ReadEnd(d) == 4;
    assert d[..4] == [d[0], d[1], d[2]] + [d[3]];
    ReadConcat([d[0], d[1], d[2]], [d[3]], ModelCatalogJson);
    NothingToRead([d[0], d[1], d[2]], ModelCatalogJson);
    assert d[1] in d[..4] && d[2] in d[..4];
  }

  lemma EndedHead(d: Doc)
    ensures SeenBy(EnsureTrailingNewline(d)) == SeenBy(d)
  {
    EndedView(d);
    TrimmedHead(d);
  }

  lemma {:induction false} TrimmedHead(d: Doc)
    ensures TrimEnd(d)[0] == d[0]
  {
    if |d| > 1 && d[|d| - 1] == Blank {
      TrimmedHead(d[..|d| - 1]);
    }
  }

  /** After an update that binds the catalog, switching it off leaves what an update without it leaves, and switching
      it on again leaves what the update left. */
  lemma SwitchIsUnboundUpdate(d: Doc, input: Input, e: Doc)
    ensures input.bind && UpsertManaged(d, input) == Ok(e) ==>
      (var off := SetCatalog(e, None);
      off.Ok? && ViewOf(off.doc) == Updated(d, input.(bind := false)) &&
      var on := SetCatalog(off.doc, Some(input.catalogPath));
      on.Ok? && ViewOf(on.doc) == ViewOf(e))
  {
    hide Solid, Kept, Read, Top, Strip, Upsert, AddMark, Basename, EnsureTrailingNewline, HasMark, TopString, UpsertManaged, Looked, SetCatalog;
    if input.bind && UpsertManaged(d, input) == Ok(e) {
      UpdateMeaning(d, input);
      UpdatedReads(d, input, e);
      Seen(e);
      if UserOwns(ViewOf(d).top, ModelCatalogJson) {
        BoundHasNoUserCatalog(d, input);
      }
      SwitchOff(d, input, e);
      var off := SetCatalog(e, None).doc;
      SwitchOn(d, input, off);
    }
  }

  lemma SwitchOff(d: Doc, input: Input, e: Doc)
    requires input.bind && CatalogPathValid(input.catalogPath) && ViewOf(e) == Updated(d, input)
    requires HasMark(e, BaseUrlMarker) && HasMark(e, CatalogMarker) && TopString(e, ModelCatalogJson).Some?
    requires !UserOwns(ViewOf(d).top, ModelCatalogJson)
    ensures var off := SetCatalog(e, None);
      off.Ok? && ViewOf(off.doc) == Updated(d, input.(bind := false))
  {
    hide Solid, Kept, Read, Top, Strip, Basename, EnsureTrailingNewline, HasMark, TopString, Looked;
    var t := ViewOf(d).top;
    var kept := Kept(t, Cleared(false), AllMarks);
    var provider := Provider(Looked(d), ViewOf(d).tables);
    var bound := Entry(ModelProvider, provider) + Entry(OpenaiBaseUrl, input.baseUrl);
    var cat := Entry(ModelCatalogJson, input.catalogPath);
    OffView(e);
    KeptMembers(t, Cleared(false), AllMarks);
    assert ViewOf(e).top == kept + bound + cat;
    KeptConcat(kept + bound, cat, {ModelCatalogJson}, {CatalogMarker});
    KeptAll(kept + bound, {ModelCatalogJson}, {CatalogMarker});
    KeptNothing(cat, {ModelCatalogJson}, {CatalogMarker});
    assert Updated(d, input.(bind := false)).top == kept + bound;
  }

  lemma SwitchOn(d: Doc, input: Input, off: Doc)
    requires input.bind && CatalogPathValid(input.catalogPath) && ViewOf(off) == Updated(d, input.(bind := false))
    requires !UserOwns(ViewOf(d).top, ModelCatalogJson)
    ensures var on := SetCatalog(off, Some(input.catalogPath));
      on.Ok? && ViewOf(on.doc) == Updated(d, input)
  {
    hide Solid, Kept, Read, Top, Strip, Upsert, AddMark, Basename, EnsureTrailingNewline, HasMark, TopString, Looked;
    var t := ViewOf(d).top;
    var kept := Kept(t, Cleared(false), AllMarks);
    var provider := Provider(Looked(d), ViewOf(d).tables);
    var bound := Entry(ModelProvider, provider) + Entry(OpenaiBaseUrl, input.baseUrl);
    var cat := Entry(ModelCatalogJson, input.catalogPath);
    KeptMembers(t, Cleared(false), AllMarks);
    MarksAreAll();
    assert ViewOf(off).top == kept + bound;
    assert Mark(BaseUrlMarker) in bound;
    NothingToRead(kept + bound, ModelCatalogJson);
    Seen(off);
    SeenAbove(off);
    WriteView(off, ModelCatalogJson, input.catalogPath);
    EndedView(Write(off, ModelCatalogJson, input.catalogPath));
    assert kept + bound + cat == Updated(d, input).top;
  }

  /** A user's own catalog is left exactly as it is, after an update too. */
  lemma UserCatalogIsFixed(d: Doc, input: Input, e: Doc, path: Option<Inline>)
    ensures UpsertManaged(d, input) == Ok(e) && UserOwns(ViewOf(d).top, ModelCatalogJson) ==>
      (HasUserOwnedCatalog(e) && SetCatalog(e, path) == Ok(e))
    ensures UpsertManaged(d, input) == Ok(e) && UserOwns(ViewOf(d).top, ModelCatalogJson) ==>
      (TopString(e, ModelCatalogJson) == Read(ViewOf(d).top, ModelCatalogJson))
  {
    hide Solid, Kept, Read, Top, Basename, UpsertManaged, Looked, HasMark, TopString;
    if UpsertManaged(d, input) == Ok(e) && UserOwns(ViewOf(d).top, ModelCatalogJson) {
      UpdatedReads(d, input, e);
      BoundHasNoUserCatalog(d, input);
      Seen(e);
    }
  }
}
