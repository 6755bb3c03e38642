/** Repeating, undoing and switching the managed binding (src/cli/install-helpers-codex-lb-config.ts). */
module BridgeReversal {

  import opened Common
  import opened TomlLines
  import opened BridgeConfig
  import opened BridgeBinding
  import opened BridgeLaws

  // ---- repeating ----

  lemma EntriesDropped(input: Input, provider: Quotable, userCatalog: bool)
    requires CatalogPathValid(input.catalogPath) && !(userCatalog && input.bind)
    ensures Kept(Entries(input, provider), Cleared(userCatalog), AllMarks) == []
  {
    hide Kept, Basename;
    MarksAreAll();
    KeptNothing(Entries(input, provider), Cleared(userCatalog), AllMarks);
  }

  /** A second update does what it would have done alone: the last one wins, and one repeated changes only blanks.
      It is refused exactly when it binds a catalog over the user's own. */
  lemma LastUpdateWins(d: Doc, first: Input, e: Doc, second: Input)
    ensures UpsertManaged(d, first) == Ok(e) && CatalogPathValid(second.catalogPath) ==>
      (match UpsertManaged(e, second)
      case Ok(f) => !(second.bind && UserOwns(ViewOf(d).top, ModelCatalogJson)) && ViewOf(f) == Updated(d, second)
      case Error(x) => x == UserOwned(ModelCatalogJson) && second.bind && UserOwns(ViewOf(d).top, ModelCatalogJson))
  {
    hide Kept, Solid, Top, Read, Looked, UpsertManaged, Basename, Entries;
    if UpsertManaged(d, first) == Ok(e) && CatalogPathValid(second.catalogPath) {
      UpdateMeaning(d, first);
      UpdatedReads(d, first, e);
      UpdateMeaning(e, second);
      var t := ViewOf(d).top;
      var userCatalog := UserOwns(t, ModelCatalogJson);
      var provider := Provider(Looked(d), ViewOf(d).tables);
      var kept, entries := Kept(t, Cleared(userCatalog), AllMarks), Entries(first, provider);
      if userCatalog {
        BoundHasNoUserCatalog(d, first);
      }
      assert UserOwns(ViewOf(e).top, ModelCatalogJson) == userCatalog;
      KeptConcat(kept, entries, Cleared(userCatalog), AllMarks);
      EntriesDropped(first, provider, userCatalog);
      KeptMembers(t, Cleared(userCatalog), AllMarks);
      KeptAll(kept, Cleared(userCatalog), AllMarks);
    }
  }

  lemma UpdateIsIdempotent(d: Doc, input: Input, e: Doc)
    ensures UpsertManaged(d, input) == Ok(e) ==>
      (UpsertManaged(e, input).Ok? && Solid(UpsertManaged(e, input).doc) == Solid(e))
  {
    hide Kept, Solid, Top, UpsertManaged, Basename, Looked;
    if UpsertManaged(d, input) == Ok(e) {
      UpdateMeaning(d, input);
      LastUpdateWins(d, input, e, input);
      if UserOwns(ViewOf(d).top, ModelCatalogJson) {
        BoundHasNoUserCatalog(d, input);
      }
      SolidOfView(e);
      SolidOfView(UpsertManaged(e, input).doc);
    }
  }

  /** Besides the program's keys and markers every line stays where it is, and so does a user's own catalog. */
  lemma OnlyOwnedLinesChange(d: Doc, input: Input, e: Doc)
    ensures UpsertManaged(d, input) == Ok(e) ==>
      (ViewOf(e).tables == ViewOf(d).tables &&
       Kept(ViewOf(e).top, AllKeys, AllMarks) == Kept(ViewOf(d).top, AllKeys, AllMarks) &&
       (UserOwns(ViewOf(d).top, ModelCatalogJson) ==>
          Kept(ViewOf(e).top, Cleared(true), AllMarks) == Kept(ViewOf(d).top, Cleared(true), AllMarks)))
  {
    hide Kept, Solid, Top, UpsertManaged, Basename, Looked, Entries, UserOwns;
    if UpsertManaged(d, input) == Ok(e) {
      UpdateMeaning(d, input);
      var t := ViewOf(d).top;
      var userCatalog := UserOwns(t, ModelCatalogJson);
      var ks := Cleared(userCatalog);
      var kept := Kept(t, ks, AllMarks);
      var entries := Entries(input, Provider(Looked(d), ViewOf(d).tables));
      if userCatalog {
        BoundHasNoUserCatalog(d, input);
        KeptConcat(kept, entries, Cleared(true), AllMarks);
        EntriesDropped(input, Provider(Looked(d), ViewOf(d).tables), true);
        KeptMembers(t, ks, AllMarks);
        KeptAll(kept, ks, AllMarks);
      }
      KeptConcat(kept, entries, AllKeys, AllMarks);
      EntriesDropped(input, Provider(Looked(d), ViewOf(d).tables), false);
      assert AllKeys == Cleared(false) && ks + AllKeys == AllKeys && AllMarks + AllMarks == AllMarks;
      KeptTwice(t, ks, AllMarks, AllKeys, AllMarks);
    }
  }

  /** The bridge serves the models after an update exactly when it binds no catalog and the user has none. */
  lemma BridgeServesExactly(d: Doc, input: Input, e: Doc)
    ensures UpsertManaged(d, input) == Ok(e) ==>
      (ReadsBridgeModels(e) <==> !input.bind && !UserOwns(ViewOf(d).top, ModelCatalogJson))
  {
    hide Kept, Solid, Top, Read, Looked, UpsertManaged, Basename, Provider, TopString, HasMark;
    if UpsertManaged(d, input) == Ok(e) {
      UpdatedReads(d, input, e);
      Seen(e);
    }
  }

  /** A binding that the readers cannot read is not protected: whatever an accepted update finds outside a marker is
      replaced, except a readable catalog that it leaves unbound. */
  lemma UnmarkedSurvivesExactly(d: Doc, input: Input, e: Doc, k: Key)
    requires Managed(k) && !NoKey(ViewOf(d).top, k) && Mark(MarkerOf(k)) !in ViewOf(d).top
    ensures UpsertManaged(d, input) == Ok(e) ==>
      ((forall v | Bind(k, v) in ViewOf(d).top :: Bind(k, v) in ViewOf(e).top && Mark(MarkerOf(k)) !in ViewOf(e).top)
       <==> k == ModelCatalogJson && Read(ViewOf(d).top, k).Some?)
  {
    hide Kept, Solid, Top, Read, Looked, UpsertManaged, Basename, Provider;
    if UpsertManaged(d, input) == Ok(e) {
      UpdateMeaning(d, input);
      UpdatedReads(d, input, e);
      var t := ViewOf(d).top;
      KeptMembers(t, Cleared(UserOwns(t, ModelCatalogJson)), AllMarks);
      MarksAreAll();
      var l :| l in t && l.Bind? && l.key == k;
      assert Bind(k, l.value) in t;
      if k == ModelCatalogJson && Read(t, k).Some? {
        BoundHasNoUserCatalog(d, input);
      } else if k == ModelCatalogJson && !input.bind {
        NoCatalogLeft(d, input, e, l);
      }
    }
  }

  lemma NoCatalogLeft(d: Doc, input: Input, e: Doc, l: Line)
    requires !UserOwns(ViewOf(d).top, ModelCatalogJson)
    ensures UpsertManaged(d, input) == Ok(e) && !input.bind && l.Bind? && l.key == ModelCatalogJson ==>
      (l !in ViewOf(e).top)
  {
    hide Kept, Solid, Top, Read, Looked, UpsertManaged, Basename, Provider;
    if UpsertManaged(d, input) == Ok(e) && !input.bind && l.Bind? && l.key == ModelCatalogJson {
      UpdateMeaning(d, input);
      KeptMembers(ViewOf(d).top, Cleared(false), AllMarks);
    }
  }

  /** A provider in single quotes is replaced without a word. */
  lemma UnreadableIsReplaced(input: Input)
    requires CatalogPathValid(input.catalogPath)
    ensures var d: Doc := [Bind(ModelProvider, None)];
      var r := UpsertManaged(d, input);
      r.Ok? && Bind(ModelProvider, None) !in ViewOf(r.doc).top && Bind(ModelProvider, None) in ViewOf(d).top
  {
    hide Kept, UpsertManaged, Basename;
    var d: Doc := [Bind(ModelProvider, None)];
    assert d[1..] == [];
    assert ViewOf(d).top == d;
    UpdateRefusal(d, input);
    assert d[0] in d && !OnlyMarks(d);
    assert Looked(d) == d;
    assert forall l | l in d :: l == Bind(ModelProvider, None);
    NothingToRead(d, OpenaiBaseUrl);
    NothingToRead(d, ModelCatalogJson);
    assert Read(d, ModelProvider) == Read(d[1..], ModelProvider) == None;
    assert UpsertManaged(d, input).Ok?;
    ReplacedProvider(d, input);
  }

  lemma ReplacedProvider(d: Doc, input: Input)
    ensures UpsertManaged(d, input).Ok? ==>
      (Bind(ModelProvider, None) !in ViewOf(UpsertManaged(d, input).doc).top)
  {
    hide Kept, Solid, Top, UpsertManaged, Basename, Provider, Looked;
    if UpsertManaged(d, input).Ok? {
      UpdateMeaning(d, input);
      KeptMembers(ViewOf(d).top, Cleared(UserOwns(ViewOf(d).top, ModelCatalogJson)), AllMarks);
    }
  }

  // ---- undoing ----

  datatype Outcome = Left(view: View) | Refused(fault: Fault)

  /** The removal on views: `seen` is what the readers see at this step, `source` what they saw at the start. */
  function Removal(source: seq<Line>, v: View, seen: seq<Line>, i: nat): Outcome
    decreases 3 - i
  {
    if i >= 3 then Left(v)
    else
      var k := Keys[i];
      if Mark(MarkerOf(k)) !in seen then
        if Read(source, k).Some? then Refused(OwnershipMissing(k)) else Removal(source, v, seen, i + 1)
      else if !Content(k, Read(source, k)) then Refused(OwnedValueInvalid(k))
      else
        var v' := View(Kept(v.top, {k}, {MarkerOf(k)}), v.tables);
        Removal(source, v', Exposed(v'), i + 1)
  }

  function Shown(r: Result): Outcome { if r.Ok? then Left(ViewOf(r.doc)) else Refused(r.fault) }

  lemma {:induction false} RemovalRefines(source: Doc, next: Doc, i: nat)
    ensures Shown(RemoveManagedFrom(source, next, i)) == Removal(SeenBy(source), ViewOf(next), SeenBy(next), i)
    decreases 3 - i
  {
    hide Kept, Solid, Top, Read, Tidy, Strip, TopString, HasMark, SeenBy, EnsureTrailingNewline;
    if i >= 3 {
      EndedView(next);
    } else {
      Seen(source);
      Seen(next);
      var k := Keys[i];
      var m := MarkerOf(k);
      if HasMark(next, m) && Content(k, TopString(source, k)) {
        var a := RemoveKey(next, k);
        StripView(next, {k}, {});
        StripView(a, {}, {m});
        StripSeen(a, {}, {m});
        KeptTwice(ViewOf(next).top, {k}, {}, {}, {m});
        assert {k} + {} == {k} && {} + {m} == {m};
        RemovalRefines(source, RemoveMark(a, m), i + 1);
      } else {
        RemovalRefines(source, next, i + 1);
      }
    }
  }

  lemma RemovalShown(d: Doc)
    ensures Shown(RemoveManaged(d)) == Removal(SeenBy(d), ViewOf(d), SeenBy(d), 0)
  {
    RemovalRefines(d, d, 0);
  }

  predicate Clean(t: seq<Line>) { forall l | l in t :: !Owned(l) }

  lemma KeptEntry(t: seq<Line>, k: Key, v: Quotable, rest: seq<Line>, k': Key)
    requires Managed(k) && Managed(k') && Clean(t)
    ensures Kept(t + Entry(k, v) + rest, {k'}, {MarkerOf(k')}) ==
      t + (if k == k' then [] else Entry(k, v)) + Kept(rest, {k'}, {MarkerOf(k')})
  {
    hide Kept;
    KeptConcat(t + Entry(k, v), rest, {k'}, {MarkerOf(k')});
    KeptConcat(t, Entry(k, v), {k'}, {MarkerOf(k')});
    KeptAll(t, {k'}, {MarkerOf(k')});
    if k == k' {
      KeptNothing(Entry(k, v), {k'}, {MarkerOf(k')});
    } else {
      KeptAll(Entry(k, v), {k'}, {MarkerOf(k')});
    }
  }

  /** One step of the removal, on a view whose next entry is the first one below a clean top level. */
  lemma RemovalStep(source: seq<Line>, t: seq<Line>, v: Quotable, rest: seq<Line>, tables: seq<Line>, i: nat)
    requires i < 3 && Clean(t) && Content(Keys[i], Some(v)) && Read(source, Keys[i]) == Some(v)
    requires Kept(rest, {Keys[i]}, {MarkerOf(Keys[i])}) == rest
    ensures var full := View(t + Entry(Keys[i], v) + rest, tables);
      Removal(source, full, full.top, i) == Removal(source, View(t + rest, tables), Exposed(View(t + rest, tables)), i + 1)
  {
    hide Kept;
    KeptEntry(t, Keys[i], v, rest, Keys[i]);
    assert t + [] + rest == t + rest;
    assert Mark(MarkerOf(Keys[i])) in Entry(Keys[i], v);
  }

  predicate Restores(v: View, bind: bool) {
    bind || v.top != [] || Mark(CatalogMarker) !in FirstTable(v.tables)
  }

  lemma RemovalAfterUpdate(d: Doc, input: Input, e: Doc)
    ensures Clean(ViewOf(d).top) && UpsertManaged(d, input) == Ok(e) ==>
      (Shown(RemoveManaged(e)) ==
      if Restores(ViewOf(d), input.bind) then Left(ViewOf(d)) else Refused(OwnedValueInvalid(ModelCatalogJson)))
  {
    hide Kept, Solid, Top, Read, UpsertManaged, Basename, Removal, RemoveManaged, Entries, Looked, Exposed, FirstTable;
    if Clean(ViewOf(d).top) && UpsertManaged(d, input) == Ok(e) {
      var v := ViewOf(d);
      UpdateMeaning(d, input);
      UpdatedReads(d, input, e);
      RemovalShown(e);
      NotUserOwned(v.top);
      KeptAll(v.top, Cleared(false), AllMarks);
      RestoringRun(SeenBy(e), v, input, Provider(Looked(d), v.tables));
    }
  }

  /** On a text with none of the keys or markers above its tables, removing the binding after writing it restores
      every non-blank line in order, unless all the removal leaves above the tables is nothing, no catalog was bound,
      and the first table holds the catalog marker: the readers then take that marker for their own. */
  lemma RemoveRestoresExactly(d: Doc, input: Input, e: Doc)
    ensures Clean(ViewOf(d).top) && UpsertManaged(d, input) == Ok(e) ==>
      ((RemoveManaged(e).Ok? && Solid(RemoveManaged(e).doc) == Solid(d)) <==> Restores(ViewOf(d), input.bind))
  {
    hide *;
    if Clean(ViewOf(d).top) && UpsertManaged(d, input) == Ok(e) {
      RemovalAfterUpdate(d, input, e);
      ShownAs(RemoveManaged(e), d);
    }
  }

  lemma ShownAs(r: Result, d: Doc)
    ensures Shown(r) == Left(ViewOf(d)) ==> r.Ok? && Solid(r.doc) == Solid(d)
    ensures Shown(r).Refused? ==> r.Error?
  {
    hide Solid, Top;
    if r.Ok? {
      SolidOfView(d);
      SolidOfView(r.doc);
    }
  }

  lemma NotUserOwned(t: seq<Line>)
    requires Clean(t)
    ensures !UserOwns(t, ModelCatalogJson)
  {
    NothingToRead(t, ModelCatalogJson);
  }

  lemma RestoringRun(source: seq<Line>, v: View, input: Input, provider: Quotable)
    requires CatalogPathValid(input.catalogPath) && Clean(v.top) && Content(ModelProvider, Some(provider))
    requires source == v.top + Entries(input, provider)
    ensures Removal(source, View(source, v.tables), source, 0) ==
      if Restores(v, input.bind) then Left(v)
      else Refused(OwnedValueInvalid(ModelCatalogJson))
  {
    hide Kept, Read, Basename, Removal;
    var t := v.top;
    var e1, e2 := Entry(ModelProvider, provider), Entry(OpenaiBaseUrl, input.baseUrl);
    var e3 := if input.bind then Entry(ModelCatalogJson, input.catalogPath) else [];
    assert source == t + e1 + (e2 + e3);
    forall k | Managed(k)
      ensures Read(source, k) ==
        (if k == ModelProvider then Some(provider) else if k == OpenaiBaseUrl then Some(input.baseUrl)
        else if input.bind then Some(input.catalogPath) else None) {
      NothingToRead(t, k);
      ReadOfEntries(t, input, provider, k);
    }
    KeptAll(e2 + e3, {ModelProvider}, {ProviderMarker});
    KeptAll(e3, {OpenaiBaseUrl}, {BaseUrlMarker});
    RemovalStep(source, t, provider, e2 + e3, v.tables, 0);
    assert t + (e2 + e3) == t + e2 + e3;
    RemovalStep(source, t, input.baseUrl, e3, v.tables, 1);
    RestoringEnd(source, v, input);
  }

  lemma RestoringEnd(source: seq<Line>, v: View, input: Input)
    requires CatalogPathValid(input.catalogPath) && Clean(v.top)
    requires Read(source, ModelCatalogJson) == if input.bind then Some(input.catalogPath) else None
    ensures var t := v.top + if input.bind then Entry(ModelCatalogJson, input.catalogPath) else [];
      Removal(source, View(t, v.tables), Exposed(View(t, v.tables)), 2) ==
      if Restores(v, input.bind) then Left(v)
      else Refused(OwnedValueInvalid(ModelCatalogJson))
  {
    hide Kept, Read, Basename;
    if input.bind {
      KeptEmpty({ModelCatalogJson}, {CatalogMarker});
      RemovalStep(source, v.top, input.catalogPath, [], v.tables, 2);
      assert v.top + Entry(ModelCatalogJson, input.catalogPath) + [] == v.top + Entry(ModelCatalogJson, input.catalogPath);
      assert v.top + [] == v.top;
    } else {
      assert v.top + [] == v.top;
    }
  }

  // ---- removing from any text ----

  /** No removal can bring a first table that holds keys or markers of the program to the first line. */
  predicate Steady(v: View) { (exists l :: l in v.top && !Owned(l)) || Clean(FirstTable(v.tables)) }

  predicate Removable(source: seq<Line>, top: seq<Line>, k: Key)
    requires Managed(k)
  {
    if Mark(MarkerOf(k)) in top then Content(k, Read(source, k)) else Read(source, k).None?
  }

  predicate RemovableFrom(source: seq<Line>, top: seq<Line>, i: nat)
    decreases 3 - i
  {
    i >= 3 || (Removable(source, top, Keys[i]) && RemovableFrom(source, top, i + 1))
  }

  /** The keys whose marker is there. */
  function MarkedFrom(top: seq<Line>, i: nat): set<Key>
    decreases 3 - i
  {
    if i >= 3 then {} else (if Mark(MarkerOf(Keys[i])) in top then {Keys[i]} else {}) + MarkedFrom(top, i + 1)
  }

  function MarksFrom(top: seq<Line>, i: nat): set<Marker>
    decreases 3 - i
  {
    if i >= 3 then {}
    else (if Mark(MarkerOf(Keys[i])) in top then {MarkerOf(Keys[i])} else {}) + MarksFrom(top, i + 1)
  }

  lemma {:induction false} SameMarks(source: seq<Line>, a: seq<Line>, b: seq<Line>, i: nat)
    requires forall j | i <= j < 3 :: Mark(MarkerOf(Keys[j])) in a <==> Mark(MarkerOf(Keys[j])) in b
    ensures MarkedFrom(a, i) == MarkedFrom(b, i) && MarksFrom(a, i) == MarksFrom(b, i)
    ensures RemovableFrom(source, a, i) == RemovableFrom(source, b, i)
    decreases 3 - i
  {
    if i < 3 {
      SameMarks(source, a, b, i + 1);
    }
  }

  predicate Agree(seen: seq<Line>, top: seq<Line>) { forall m :: Mark(m) in seen <==> Mark(m) in top }

  lemma SteadyExposed(v: View)
    requires Steady(v)
    ensures Agree(Exposed(v), v.top)
  {
  }

  lemma SteadyKept(v: View, k: Key, m: Marker)
    requires Steady(v) && Managed(k)
    ensures Steady(View(Kept(v.top, {k}, {m}), v.tables))
  {
    hide Kept;
    KeptMembers(v.top, {k}, {m});
  }

  lemma {:induction false} SteadyRemoval(source: seq<Line>, v: View, seen: seq<Line>, i: nat)
    requires Steady(v) && Agree(seen, v.top)
    ensures var r := Removal(source, v, seen, i);
      r.Left? == RemovableFrom(source, v.top, i) &&
      (r.Left? ==> r.view == View(Kept(v.top, MarkedFrom(v.top, i), MarksFrom(v.top, i)), v.tables))
    decreases 3 - i
  {
    hide Kept, Content, Read, Exposed, Steady;
    if i >= 3 {
      KeptAll(v.top, {}, {});
    } else {
      var k := Keys[i];
      var m := MarkerOf(k);
      if Mark(m) in v.top {
        var v' := View(Kept(v.top, {k}, {m}), v.tables);
        KeptMembers(v.top, {k}, {m});
        SteadyKept(v, k, m);
        SteadyExposed(v');
        SteadyRemoval(source, v', Exposed(v'), i + 1);
        SameMarks(source, v'.top, v.top, i + 1);
        KeptTwice(v.top, {k}, {m}, MarkedFrom(v.top, i + 1), MarksFrom(v.top, i + 1));
      } else {
        SteadyRemoval(source, v, seen, i + 1);
        assert {} + MarkedFrom(v.top, i + 1) == MarkedFrom(v.top, i + 1);
        assert {} + MarksFrom(v.top, i + 1) == MarksFrom(v.top, i + 1);
      }
    }
  }

  lemma MarkedMeaning(source: seq<Line>, top: seq<Line>)
    ensures RemovableFrom(source, top, 0) <==> forall k | Managed(k) :: Removable(source, top, k)
    ensures forall k :: k in MarkedFrom(top, 0) <==> Managed(k) && Mark(MarkerOf(k)) in top
    ensures forall m :: Mark(m) in top ==> m in MarksFrom(top, 0)
  {
    hide Content, Read;
    assert RemovableFrom(source, top, 2) == (Removable(source, top, Keys[2]) && RemovableFrom(source, top, 3));
    assert RemovableFrom(source, top, 1) == (Removable(source, top, Keys[1]) && RemovableFrom(source, top, 2));
    assert MarkedFrom(top, 3) == {} && MarksFrom(top, 3) == {};
    assert MarkedFrom(top, 2) == (if Mark(MarkerOf(Keys[2])) in top then {Keys[2]} else {});
    assert MarksFrom(top, 2) == (if Mark(MarkerOf(Keys[2])) in top then {MarkerOf(Keys[2])} else {});
    assert MarkedFrom(top, 1) == (if Mark(MarkerOf(Keys[1])) in top then {Keys[1]} else {}) + MarkedFrom(top, 2);
    assert MarksFrom(top, 1) == (if Mark(MarkerOf(Keys[1])) in top then {MarkerOf(Keys[1])} else {}) + MarksFrom(top, 2);
    forall m | Mark(m) in top ensures m in MarksFrom(top, 0) {
      match m case ProviderMarker => case BaseUrlMarker => case CatalogMarker =>
    }
  }

  lemma SteadySeen(d: Doc)
    requires Steady(ViewOf(d))
    ensures Agree(SeenBy(d), ViewOf(d).top)
    ensures forall k | Managed(k) :: Read(SeenBy(d), k) == Read(ViewOf(d).top, k)
  {
    hide Solid, Read;
    HeadOfView(d);
    if d[0].Header? {
      forall k | Managed(k) ensures Read(SeenBy(d), k) == Read(ViewOf(d).top, k) {
        NothingToRead(SeenBy(d), k);
        NothingToRead(ViewOf(d).top, k);
      }
    }
  }

  /** On every text, a removal that succeeds keeps the tables and every other line above them. Unless it can bring a
      first table that holds keys or markers of the program to the first line, it succeeds exactly when each key is
      either marked and holds what the program writes, or is neither marked nor readable; it then removes the markers and
      the bindings under them and nothing else. */
  lemma RemovesExactlyMarked(d: Doc)
    ensures var t, r := ViewOf(d).top, RemoveManaged(d);
      (r.Ok? ==> ViewOf(r.doc).tables == ViewOf(d).tables && Kept(ViewOf(r.doc).top, AllKeys, AllMarks) == Kept(t, AllKeys, AllMarks)) &&
      (Steady(ViewOf(d)) ==>
        (r.Ok? <==> forall k | Managed(k) :: Removable(t, t, k)) &&
        (r.Ok? ==> ViewOf(r.doc) == View(Kept(t, MarkedFrom(t, 0), AllMarks), ViewOf(d).tables)))
    ensures forall k :: k in MarkedFrom(ViewOf(d).top, 0) <==> Managed(k) && Mark(MarkerOf(k)) in ViewOf(d).top
  {
    hide Solid, Top, Kept, Read, Steady, Removal, RemoveManaged, Content, MarkedFrom, Removable;
    RemovalShown(d);
    RemovalKeeps(SeenBy(d), ViewOf(d), SeenBy(d), 0);
    MarkedMeaning(SeenBy(d), ViewOf(d).top);
    if Steady(ViewOf(d)) {
      SteadyRemovesMarked(d);
    }
  }

  lemma {:induction false} RemovalKeeps(source: seq<Line>, v: View, seen: seq<Line>, i: nat)
    ensures var r := Removal(source, v, seen, i);
      r.Left? ==> r.view.tables == v.tables && Kept(r.view.top, AllKeys, AllMarks) == Kept(v.top, AllKeys, AllMarks)
    decreases 3 - i
  {
    hide Kept, Content, Read, Exposed;
    if i < 3 {
      var k := Keys[i];
      var v' := View(Kept(v.top, {k}, {MarkerOf(k)}), v.tables);
      MarksAreAll();
      KeptTwice(v.top, {k}, {MarkerOf(k)}, AllKeys, AllMarks);
      assert {k} + AllKeys == AllKeys && {MarkerOf(k)} + AllMarks == AllMarks;
      RemovalKeeps(source, v', Exposed(v'), i + 1);
      RemovalKeeps(source, v, seen, i + 1);
    }
  }

  lemma SteadyRemovesMarked(d: Doc)
    requires Steady(ViewOf(d))
    ensures var t, r := ViewOf(d).top, RemoveManaged(d);
      (r.Ok? <==> forall k | Managed(k) :: Removable(t, t, k)) &&
      (r.Ok? ==> ViewOf(r.doc) == View(Kept(t, MarkedFrom(t, 0), AllMarks), ViewOf(d).tables))
  {
    hide Solid, Top, Kept, Read, Steady, Removal, RemoveManaged, Content, SeenBy, RemovableFrom, MarkedFrom, MarksFrom;
    var t := ViewOf(d).top;
    RemovalShown(d);
    SteadySeen(d);
    SteadyRemoval(SeenBy(d), ViewOf(d), SeenBy(d), 0);
    MarkedMeaning(SeenBy(d), t);
    assert forall k | Managed(k) :: Removable(SeenBy(d), t, k) == Removable(t, t, k);
    var ks, ms := MarkedFrom(t, 0), MarksFrom(t, 0);
    KeptMembers(t, ks, ms);
    KeptAll(Kept(t, ks, ms), {}, AllMarks);
    KeptTwice(t, ks, ms, {}, AllMarks);
    MarksAreAll();
    assert ks + {} == ks && ms + AllMarks == AllMarks;
  }

  /** The refused removal: a text that starts with a table header, the catalog marker below it, and an update that binds
      no catalog. */
  lemma RemovalRefusesItsOwnUpdate(input: Input, table: Table)
    requires CatalogPathValid(input.catalogPath) && !input.bind
    ensures var d: Doc := [Header(table), Mark(CatalogMarker)];
      var r := UpsertManaged(d, input);
      r.Ok? && RemoveManaged(r.doc) == Error(OwnedValueInvalid(ModelCatalogJson))
  {
    hide Kept, UpsertManaged, RemoveManaged, Basename;
    var d: Doc := [Header(table), Mark(CatalogMarker)];
    MarkedTable(table);
    forall k ensures Read(d, k).None? { NothingToRead(d, k); }
    UpdateRefusal(d, input);
    hide Solid, Top, FirstTable;
    RemovalAfterUpdate(d, input, UpsertManaged(d, input).doc);
  }

  lemma MarkedTable(table: Table)
    ensures var d: Doc := [Header(table), Mark(CatalogMarker)];
      ViewOf(d) == View([], d) && FirstTable(d) == d
  {
    var d: Doc := [Header(table), Mark(CatalogMarker)];
    var m: seq<Line> := [Mark(CatalogMarker)];
    assert d[1..] == m && m[1..] == [];
    assert Top(m) == m && d == [d[0]] + m;
    assert Solid(m) == m && Solid(d) == d;
    assert Top(d) == [] && Rest(d) == d;
  }
}
