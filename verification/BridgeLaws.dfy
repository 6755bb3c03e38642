/** What the managed-binding operations do to a text, and how they undo and repeat each other
    (src/cli/install-helpers-codex-lb-config.ts). Every result is about an arbitrary text. */
module BridgeLaws {

  import opened Common
  import opened TomlLines
  import opened BridgeConfig
  import opened BridgeBinding

  const AllKeys: set<Key> := {ModelProvider, OpenaiBaseUrl, ModelCatalogJson}

  const AllMarks: set<Marker> := {ProviderMarker, BaseUrlMarker, CatalogMarker}

  // ---- orphan markers ----

  predicate OrphanIn(seen: seq<Line>, k: Key)
    requires Managed(k)
  {
    Mark(MarkerOf(k)) in seen && !Content(k, Read(seen, k))
  }

  function OrphansIn(seen: seq<Line>, i: nat): set<Marker>
    decreases 3 - i
  {
    if i >= 3 then {} else (if OrphanIn(seen, Keys[i]) then {MarkerOf(Keys[i])} else {}) + OrphansIn(seen, i + 1)
  }

  lemma OrphansMeaning(seen: seq<Line>)
    ensures forall k | Managed(k) :: MarkerOf(k) in OrphansIn(seen, 0) <==> OrphanIn(seen, k)
  {
    assert OrphansIn(seen, 3) == {};
    assert OrphansIn(seen, 2) == if OrphanIn(seen, Keys[2]) then {MarkerOf(Keys[2])} else {};
    assert OrphansIn(seen, 1) == (if OrphanIn(seen, Keys[1]) then {MarkerOf(Keys[1])} else {}) + OrphansIn(seen, 2);
  }

  lemma {:induction false} OrphansView(source: Doc, next: Doc, i: nat)
    ensures var e, gone := RemoveOrphansFrom(source, next, i), OrphansIn(SeenBy(source), i);
      ViewOf(e) == View(Kept(ViewOf(next).top, {}, gone), ViewOf(next).tables) &&
      (if gone == {} then e == next else SeenBy(e) == Exposed(ViewOf(e)))
    decreases 3 - i
  {
    hide Kept, Tidy, Solid, Strip, Content, TopString, HasMark, SeenBy;
    var t := ViewOf(next).top;
    if i >= 3 {
      KeptAll(t, {}, {});
    } else {
      Seen(source);
      assert Orphan(source, Keys[i]) == OrphanIn(SeenBy(source), Keys[i]);
      if Orphan(source, Keys[i]) {
        var m := MarkerOf(Keys[i]);
        var e := RemoveMark(next, m);
        StripView(next, {}, {m});
        StripSeen(next, {}, {m});
        OrphansView(source, e, i + 1);
        KeptTwice(t, {}, {m}, {}, OrphansIn(SeenBy(source), i + 1));
        var none: set<Key> := {};
        assert none + none == none;
      } else {
        OrphansView(source, next, i + 1);
        assert {} + OrphansIn(SeenBy(source), i + 1) == OrphansIn(SeenBy(source), i + 1);
      }
    }
  }

  predicate OnlyMarks(t: seq<Line>) { forall l | l in t :: l.Mark? }

  /** The lines in which the update looks for the user's own settings: the top level, except that the first table is
      read instead when its header comes first, or will once orphan markers are gone. */
  function Looked(d: Doc): seq<Line> {
    if d[0].Header? || (ViewOf(d).top != [] && OnlyMarks(ViewOf(d).top)) then FirstTable(ViewOf(d).tables)
    else ViewOf(d).top
  }

  lemma {:induction false} NothingToRead(t: seq<Line>, k: Key)
    requires NoKey(t, k)
    ensures Read(t, k).None?
  {
    ReadMeaning(t, k);
  }

  /** After the orphan clean-up, the readers see the looked-up lines without their orphan markers. */
  lemma CleanedSees(d: Doc)
    ensures var e := RemoveOrphansFrom(d, d, 0);
      (forall k :: TopString(e, k) == Read(Looked(d), k)) &&
      (forall k | Managed(k) && Content(k, Read(Looked(d), k)) :: HasMark(e, MarkerOf(k)) <==> Mark(MarkerOf(k)) in Looked(d))
  {
    hide Kept, Solid, TopString, HasMark, RemoveOrphansFrom, OrphansIn, Content;
    var t, s := ViewOf(d).top, SeenBy(d);
    var gone := OrphansIn(s, 0);
    var e := RemoveOrphansFrom(d, d, 0);
    OrphansView(d, d, 0);
    OrphansMeaning(s);
    Seen(e);
    KeptMembers(t, {}, gone);
    HeadOfView(d);
    if d[0].Header? {
      KeptEmpty({}, gone);
      assert SeenBy(e) == Looked(d);
    } else if t != [] && OnlyMarks(t) {
      AllOrphans(d);
      KeptNothing(t, {}, gone);
      assert t[0] in t;
      assert SeenBy(e) == Looked(d);
    } else {
      KeptSees(d);
    }
  }

  lemma AllOrphans(d: Doc)
    requires !d[0].Header? && OnlyMarks(ViewOf(d).top)
    ensures forall l | l in ViewOf(d).top :: l.marker in OrphansIn(SeenBy(d), 0)
  {
    hide Solid;
    var t := ViewOf(d).top;
    OrphansMeaning(t);
    forall l | l in t ensures l.marker in OrphansIn(t, 0) {
      var k := match l.marker case ProviderMarker => ModelProvider case BaseUrlMarker => OpenaiBaseUrl case CatalogMarker => ModelCatalogJson;
      NothingToRead(t, k);
      assert OrphanIn(t, k);
    }
  }

  lemma KeptSees(d: Doc)
    requires !d[0].Header? && (ViewOf(d).top == [] || !OnlyMarks(ViewOf(d).top))
    ensures var e := RemoveOrphansFrom(d, d, 0);
      SeenBy(e) == Kept(ViewOf(d).top, {}, OrphansIn(SeenBy(d), 0)) &&
      (forall k :: Read(SeenBy(e), k) == Read(ViewOf(d).top, k)) &&
      (forall k | Managed(k) && Content(k, Read(ViewOf(d).top, k)) ::
        Mark(MarkerOf(k)) in SeenBy(e) <==> Mark(MarkerOf(k)) in ViewOf(d).top)
  {
    hide Kept, Solid, OrphansIn, RemoveOrphansFrom, Content;
    var t := ViewOf(d).top;
    var gone := OrphansIn(t, 0);
    OrphansView(d, d, 0);
    OrphansMeaning(t);
    KeptMembers(t, {}, gone);
    if gone == {} {
      KeptAll(t, {}, gone);
    } else if t == [] {
      forall k | Managed(k) ensures !OrphanIn(t, k) {}
      NoOrphans(t);
    } else {
      var l :| l in t && !l.Mark?;
      assert l in Kept(t, {}, gone);
    }
    forall k ensures Read(Kept(t, {}, gone), k) == Read(t, k) {
      ReadOfKept(t, {}, gone, k);
    }
  }

  lemma NoOrphans(seen: seq<Line>)
    requires forall k | Managed(k) :: !OrphanIn(seen, k)
    ensures OrphansIn(seen, 0) == {}
  {
    assert OrphansIn(seen, 3) == {};
    assert OrphansIn(seen, 2) == {};
    assert OrphansIn(seen, 1) == {};
  }

  // ---- the update ----

  /** A readable key that is not under its marker, or holds a provider that is not the program's. */
  predicate UserOwns(seen: seq<Line>, k: Key)
    requires Managed(k)
  {
    Read(seen, k).Some? && !(Mark(MarkerOf(k)) in seen && Content(k, Read(seen, k)))
  }

  function Refusal(seen: seq<Line>, bind: bool): Option<Key> {
    if UserOwns(seen, ModelProvider) then Some(ModelProvider)
    else if UserOwns(seen, OpenaiBaseUrl) then Some(OpenaiBaseUrl)
    else if bind && UserOwns(seen, ModelCatalogJson) then Some(ModelCatalogJson)
    else None
  }

  function Provider(seen: seq<Line>, tables: seq<Line>): Quotable {
    if Read(seen, ModelProvider) == Some("codex-lb") && Header(CodexLbProvider) in tables then "codex-lb" else "openai"
  }

  function Entry(k: Key, v: Quotable): seq<Line>
    requires Managed(k)
  {
    [Mark(MarkerOf(k)), Bind(k, Some(v))]
  }

  function Entries(input: Input, provider: Quotable): seq<Line>
    requires CatalogPathValid(input.catalogPath)
  {
    Entry(ModelProvider, provider) + Entry(OpenaiBaseUrl, input.baseUrl)
      + if input.bind then Entry(ModelCatalogJson, input.catalogPath) else []
  }

  function Cleared(userCatalog: bool): set<Key> {
    {ModelProvider, OpenaiBaseUrl} + if userCatalog then {} else {ModelCatalogJson}
  }

  /** The view that an accepted update leaves. */
  function Updated(d: Doc, input: Input): View
    requires CatalogPathValid(input.catalogPath)
  {
    var v := ViewOf(d);
    View(Kept(v.top, Cleared(UserOwns(v.top, ModelCatalogJson)), AllMarks)
           + Entries(input, Provider(Looked(d), v.tables)), v.tables)
  }

  lemma BindingsView(d: Doc, keepCatalog: bool)
    ensures ViewOf(RemoveBindings(d, keepCatalog)) == View(Kept(ViewOf(d).top, Cleared(keepCatalog), AllMarks), ViewOf(d).tables)
  {
    hide Strip, Kept, Solid;
    var t := ViewOf(d).top;
    var a := RemoveKey(d, ModelProvider);
    var b := RemoveKey(a, OpenaiBaseUrl);
    var c := if keepCatalog then b else RemoveKey(b, ModelCatalogJson);
    var e := RemoveMark(c, ProviderMarker);
    var f := RemoveMark(e, BaseUrlMarker);
    StripView(d, {ModelProvider}, {});
    StripView(a, {OpenaiBaseUrl}, {});
    KeptTwice(t, {ModelProvider}, {}, {OpenaiBaseUrl}, {});
    if !keepCatalog {
      StripView(b, {ModelCatalogJson}, {});
      KeptTwice(t, {ModelProvider} + {OpenaiBaseUrl}, {} + {}, {ModelCatalogJson}, {});
    }
    var ks := Cleared(keepCatalog);
    assert ks == if keepCatalog then {ModelProvider} + {OpenaiBaseUrl} else {ModelProvider} + {OpenaiBaseUrl} + {ModelCatalogJson};
    var none: set<Marker> := {};
    assert none + none == none && none + none + none == none;
    assert ViewOf(c).top == Kept(t, ks, {});
    StripView(c, {}, {ProviderMarker});
    StripView(e, {}, {BaseUrlMarker});
    StripView(f, {}, {CatalogMarker});
    KeptTwice(t, ks, {}, {}, {ProviderMarker});
    KeptTwice(t, ks, {ProviderMarker}, {}, {BaseUrlMarker});
    KeptTwice(t, ks, {ProviderMarker, BaseUrlMarker}, {}, {CatalogMarker});
    assert ks + {} == ks && {} + {ProviderMarker} == {ProviderMarker};
    assert {ProviderMarker} + {BaseUrlMarker} == {ProviderMarker, BaseUrlMarker};
    assert {ProviderMarker, BaseUrlMarker} + {CatalogMarker} == AllMarks;
  }

  lemma ConflictIsRefusal(d: Doc, bind: bool)
    ensures var e := RemoveOrphansFrom(d, d, 0);
      Conflict(e, bind) == Refusal(Looked(d), bind) &&
      HasUserOwnedCatalog(e) == UserOwns(Looked(d), ModelCatalogJson) &&
      Selection(e) == Provider(Looked(d), ViewOf(d).tables)
  {
    hide Kept, Solid, TopString, HasMark, RemoveOrphansFrom, OrphansIn, Looked;
    var e := RemoveOrphansFrom(d, d, 0);
    CleanedSees(d);
    OrphansView(d, d, 0);
    HeadersAreInTables(e, CodexLbProvider);
  }

  lemma HeadersAreInTables(d: Doc, table: Table)
    ensures Header(table) in d <==> Header(table) in ViewOf(d).tables
  {
    TopIsHeadless(d);
    SolidMembers(Rest(d));
    assert Header(table) !in Top(d);
  }

  lemma BaseView(d: Doc, keepCatalog: bool)
    ensures var e := RemoveBindings(RemoveOrphansFrom(d, d, 0), keepCatalog);
      ViewOf(e) == View(Kept(ViewOf(d).top, Cleared(keepCatalog), AllMarks), ViewOf(d).tables)
  {
    hide Kept, Solid, RemoveBindings, RemoveOrphansFrom;
    var gone := OrphansIn(SeenBy(d), 0);
    OrphansView(d, d, 0);
    BindingsView(RemoveOrphansFrom(d, d, 0), keepCatalog);
    KeptTwice(ViewOf(d).top, {}, gone, Cleared(keepCatalog), AllMarks);
    assert {} + Cleared(keepCatalog) == Cleared(keepCatalog);
    forall m | m in gone ensures m in AllMarks {
      match m case ProviderMarker => case BaseUrlMarker => case CatalogMarker =>
    }
    assert gone + AllMarks == AllMarks;
  }

  lemma EntriesView(d: Doc, input: Input, provider: Quotable)
    requires CatalogPathValid(input.catalogPath)
    requires forall m :: Mark(m) !in ViewOf(d).top
    requires NoKey(ViewOf(d).top, ModelProvider) && NoKey(ViewOf(d).top, OpenaiBaseUrl)
    requires input.bind ==> NoKey(ViewOf(d).top, ModelCatalogJson)
    ensures var bound := Write(Write(d, ModelProvider, provider), OpenaiBaseUrl, input.baseUrl);
      ViewOf(if input.bind then Write(bound, ModelCatalogJson, input.catalogPath) else bound)
        == View(ViewOf(d).top + Entries(input, provider), ViewOf(d).tables)
  {
    hide Write, Solid, Top;
    var t := ViewOf(d).top;
    var one := Write(d, ModelProvider, provider);
    WriteView(d, ModelProvider, provider);
    var bound := Write(one, OpenaiBaseUrl, input.baseUrl);
    WriteView(one, OpenaiBaseUrl, input.baseUrl);
    var e1, e2 := Entry(ModelProvider, provider), Entry(OpenaiBaseUrl, input.baseUrl);
    assert ViewOf(one).top == t + e1 && ViewOf(bound).top == t + e1 + e2;
    if input.bind {
      WriteView(bound, ModelCatalogJson, input.catalogPath);
      var e3 := Entry(ModelCatalogJson, input.catalogPath);
      assert t + e1 + e2 + e3 == t + (e1 + e2 + e3);
    } else {
      assert t + e1 + e2 == t + (e1 + e2 + []);
    }
  }

  /** The update of an arbitrary text: when it is refused and over which key, and every non-blank line it leaves. */
  lemma UpdateMeaning(d: Doc, input: Input)
    ensures match UpsertManaged(d, input)
      case Error(CatalogPathInvalid) => !CatalogPathValid(input.catalogPath)
      case Error(UserOwned(k)) => CatalogPathValid(input.catalogPath) && Refusal(Looked(d), input.bind) == Some(k)
      case Error(_) => false
      case Ok(e) => CatalogPathValid(input.catalogPath) && Refusal(Looked(d), input.bind).None? && ViewOf(e) == Updated(d, input)
  {
    hide Kept, Solid, Top, RemoveBindings, RemoveOrphansFrom, Looked, Write, Conflict, UserOwns, Selection, Provider, EnsureTrailingNewline, HasUserOwnedCatalog, Basename;
    ConflictIsRefusal(d, input.bind);
    var next := RemoveOrphansFrom(d, d, 0);
    if CatalogPathValid(input.catalogPath) && Conflict(next, input.bind).None? {
      var userCatalog := HasUserOwnedCatalog(next);
      var t, ks := ViewOf(d).top, Cleared(userCatalog);
      BaseView(d, userCatalog);
      SameCleared(d);
      KeptMembers(t, ks, AllMarks);
      var base := RemoveBindings(next, userCatalog);
      MarksAreAll();
      EntriesView(base, input, Selection(next));
      var bound := Write(Write(base, ModelProvider, Selection(next)), OpenaiBaseUrl, input.baseUrl);
      EndedView(if input.bind then Write(bound, ModelCatalogJson, input.catalogPath) else bound);
    }
  }

  /** A user's catalog is looked for where it would be kept, or there is nothing to keep. */
  lemma SameCleared(d: Doc)
    ensures Kept(ViewOf(d).top, Cleared(UserOwns(Looked(d), ModelCatalogJson)), AllMarks)
         == Kept(ViewOf(d).top, Cleared(UserOwns(ViewOf(d).top, ModelCatalogJson)), AllMarks)
  {
    hide Kept, Solid;
    var t := ViewOf(d).top;
    HeadOfView(d);
    if Looked(d) != t {
      KeptMembers(t, {}, AllMarks);
      MarksAreAll();
      KeptNothing(t, {}, AllMarks);
      KeptEmpty(Cleared(true), {});
      KeptEmpty(Cleared(false), {});
      KeptTwice(t, {}, AllMarks, Cleared(true), {});
      KeptTwice(t, {}, AllMarks, Cleared(false), {});
      var none: set<Key> := {};
      assert none + Cleared(true) == Cleared(true) && none + Cleared(false) == Cleared(false) && AllMarks + {} == AllMarks;
    }
  }

  lemma MarksAreAll()
    ensures forall m: Marker :: m in AllMarks
  {
    forall m: Marker ensures m in AllMarks {
      match m case ProviderMarker => case BaseUrlMarker => case CatalogMarker =>
    }
  }

  lemma UpdateRefusal(d: Doc, input: Input)
    ensures UpsertManaged(d, input).Ok? <==> CatalogPathValid(input.catalogPath) && Refusal(Looked(d), input.bind).None?
  {
    UpdateMeaning(d, input);
  }

  // ---- after an update ----

  lemma ReadOfEntry(k: Key, v: Quotable, k': Key)
    requires Managed(k)
    ensures Read(Entry(k, v), k') == if k == k' then Some(v) else None
    ensures forall m :: Mark(m) in Entry(k, v) <==> m == MarkerOf(k)
  {
    var m, b := [Mark(MarkerOf(k))], [Bind(k, Some(v))];
    assert m + b == Entry(k, v);
    ReadConcat(m, b, k');
    assert m[1..] == [] && b[1..] == [] && Read([], k') == None;
  }

  lemma ReadOfEntries(t: seq<Line>, input: Input, provider: Quotable, k: Key)
    requires CatalogPathValid(input.catalogPath) && Managed(k)
    ensures Read(t + Entries(input, provider), k) ==
      if Read(t, k).Some? then Read(t, k)
      else if k == ModelProvider then Some(provider)
      else if k == OpenaiBaseUrl then Some(input.baseUrl)
      else if input.bind then Some(input.catalogPath) else None
    ensures Mark(MarkerOf(k)) in t + Entries(input, provider) <==>
      Mark(MarkerOf(k)) in t || k != ModelCatalogJson || input.bind
  {
    hide Read, Entry;
    var e1, e2 := Entry(ModelProvider, provider), Entry(OpenaiBaseUrl, input.baseUrl);
    ReadOfEntry(ModelProvider, provider, k);
    ReadOfEntry(OpenaiBaseUrl, input.baseUrl, k);
    ReadConcat(e1, e2, k);
    ReadConcat(t, Entries(input, provider), k);
    if input.bind {
      ReadOfEntry(ModelCatalogJson, input.catalogPath, k);
      ReadConcat(e1 + e2, Entry(ModelCatalogJson, input.catalogPath), k);
    } else {
      assert Entries(input, provider) == e1 + e2;
    }
  }

  /** What an accepted update leaves to be read. */
  lemma UpdatedReads(d: Doc, input: Input, e: Doc)
    ensures UpsertManaged(d, input) == Ok(e) ==>
      (var t, seen := ViewOf(d).top, SeenBy(e);
      seen == ViewOf(e).top && Looked(e) == seen && seen != [] &&
      Read(seen, ModelProvider) == Some(Provider(Looked(d), ViewOf(d).tables)) && Mark(ProviderMarker) in seen &&
      Read(seen, OpenaiBaseUrl) == Some(input.baseUrl) && Mark(BaseUrlMarker) in seen &&
      (Mark(CatalogMarker) in seen <==> input.bind) &&
      Read(seen, ModelCatalogJson) ==
        if input.bind then Some(input.catalogPath)
        else if UserOwns(t, ModelCatalogJson) then Read(t, ModelCatalogJson) else None)
  {
    hide Kept, Solid, Top, Read, Looked, UpsertManaged, Provider, Basename;
    if UpsertManaged(d, input) == Ok(e) {
      UpdateMeaning(d, input);
      var t := ViewOf(d).top;
      var userCatalog := UserOwns(t, ModelCatalogJson);
      var kept := Kept(t, Cleared(userCatalog), AllMarks);
      var provider := Provider(Looked(d), ViewOf(d).tables);
      var entries := Entries(input, provider);
      KeptMembers(t, Cleared(userCatalog), AllMarks);
      MarksAreAll();
      forall k | Managed(k) && k in Cleared(userCatalog) ensures Read(kept, k).None? {
        NothingToRead(kept, k);
      }
      forall k | Managed(k)
        ensures Read(kept + entries, k) ==
          (if Read(kept, k).Some? then Read(kept, k)
          else if k == ModelProvider then Some(provider)
          else if k == OpenaiBaseUrl then Some(input.baseUrl)
          else if input.bind then Some(input.catalogPath) else None) {
        ReadOfEntries(kept, input, provider, k);
      }
      ReadOfEntries(kept, input, provider, ModelProvider);
      ReadOfEntries(kept, input, provider, OpenaiBaseUrl);
      ReadOfEntries(kept, input, provider, ModelCatalogJson);
      SeenAbove(e);
      BindIsNoMark(e, kept, input, provider);
      if userCatalog {
        ReadOfKept(t, Cleared(true), AllMarks, ModelCatalogJson);
        BoundHasNoUserCatalog(d, input);
      }
    }
  }

  lemma BindIsNoMark(e: Doc, kept: seq<Line>, input: Input, provider: Quotable)
    requires CatalogPathValid(input.catalogPath) && ViewOf(e).top == kept + Entries(input, provider)
    ensures Looked(e) == ViewOf(e).top
  {
    hide Solid, Top, Basename;
    HeadOfView(e);
    assert Bind(ModelProvider, Some(provider)) in Entries(input, provider);
    assert Bind(ModelProvider, Some(provider)) in ViewOf(e).top;
  }

  lemma BoundHasNoUserCatalog(d: Doc, input: Input)
    ensures UpsertManaged(d, input).Ok? && UserOwns(ViewOf(d).top, ModelCatalogJson) ==>
      (!input.bind)
  {
    hide Solid, Top, UpsertManaged, Basename;
    if UpsertManaged(d, input).Ok? && UserOwns(ViewOf(d).top, ModelCatalogJson) {
      UpdateRefusal(d, input);
      HeadOfView(d);
      ReadMeaning(ViewOf(d).top, ModelCatalogJson);
    }
  }
}
