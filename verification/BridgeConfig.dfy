/** The managed bridge binding in a user's TOML text (src/cli/install-helpers-codex-lb-config.ts): three top-level
    keys, each under a marker comment that says the program wrote it. */
module BridgeConfig {

  import opened Common
  import opened TomlLines

  datatype Fault = CatalogPathInvalid | UserOwned(key: Key) | OwnershipMissing(key: Key) | OwnedValueInvalid(key: Key)

  datatype Result = Ok(doc: Doc) | Error(fault: Fault)

  /** The base URL is already validated; no string holds a double quote or a line end. */
  type Inline = s: string | '"' !in s && '\n' !in s

  datatype Input = Input(baseUrl: Quotable, catalogPath: Inline, bind: bool)

  const Keys: seq<Key> := [ModelProvider, OpenaiBaseUrl, ModelCatalogJson]

  predicate Managed(k: Key) { k == ModelProvider || k == OpenaiBaseUrl || k == ModelCatalogJson }

  function MarkerOf(k: Key): Marker
    requires Managed(k)
  {
    match k
    case ModelProvider => ProviderMarker
    case OpenaiBaseUrl => BaseUrlMarker
    case ModelCatalogJson => CatalogMarker
  }

  // ---- readers ----

  function TopString(d: Doc, k: Key): Option<Quotable> { Read(d[..ReadEnd(d)], k) }

  predicate HasMark(d: Doc, m: Marker) { Mark(m) in d[..ReadEnd(d)] }

  predicate ReadsBridgeModels(d: Doc) {
    HasMark(d, BaseUrlMarker) && TopString(d, OpenaiBaseUrl).Some? && TopString(d, ModelCatalogJson).None?
  }

  predicate HasUserOwnedCatalog(d: Doc) {
    TopString(d, ModelCatalogJson).Some? && !HasMark(d, CatalogMarker)
  }

  /** What a marked key must hold to count as the program's own. */
  predicate Content(k: Key, v: Option<Quotable>) {
    v.Some? && (k == ModelProvider ==> v.value == "openai" || v.value == "codex-lb")
  }

  // ---- line edits ----

  /** Without the bindings of some keys and without some markers. */
  function Kept(lines: seq<Line>, ks: set<Key>, ms: set<Marker>): seq<Line> {
    if lines == [] then [] else (if Dropped(lines[0], ks, ms) then [] else [lines[0]]) + Kept(lines[1..], ks, ms)
  }

  predicate Dropped(l: Line, ks: set<Key>, ms: set<Marker>) {
    (l.Bind? && l.key in ks) || (l.Mark? && l.marker in ms)
  }

  function Strip(d: Doc, ks: set<Key>, ms: set<Marker>): Doc { Tidy(Kept(Top(d), ks, ms) + Rest(d)) }

  function RemoveKey(d: Doc, k: Key): Doc { Strip(d, {k}, {}) }

  function RemoveMark(d: Doc, m: Marker): Doc { Strip(d, {}, {m}) }

  /** The first line that binds a key, or the end. */
  function KeyAt(lines: seq<Line>, k: Key): (n: nat)
    ensures n <= |lines| && (forall i | 0 <= i < n :: !(lines[i].Bind? && lines[i].key == k))
    ensures n < |lines| ==> lines[n].Bind? && lines[n].key == k
  {
    if lines == [] || (lines[0].Bind? && lines[0].key == k) then 0 else 1 + KeyAt(lines[1..], k)
  }

  /** Replace the first binding of a key, or insert one below the other top-level lines. */
  function Upsert(d: Doc, k: Key, v: Quotable): Doc {
    var n := KeyAt(Top(d), k);
    if n < |Top(d)| then
      SqueezeIsSolid(d[n := Bind(k, Some(v))]);
      Squeeze(d[n := Bind(k, Some(v))])
    else
      Tidy(Top(d) + [Bind(k, Some(v))] + Rest(d))
  }

  function AddMark(d: Doc, k: Key, m: Marker): Doc {
    var n := KeyAt(Top(d), k);
    if n < |Top(d)| && Mark(m) !in Top(d) then d[..n] + [Mark(m)] + d[n..] else d
  }

  // ---- operations ----

  predicate Orphan(d: Doc, k: Key)
    requires Managed(k)
  {
    HasMark(d, MarkerOf(k)) && !Content(k, TopString(d, k))
  }

  /** Remove the orphan markers of `source` for the keys from the i-th on. */
  function RemoveOrphansFrom(source: Doc, next: Doc, i: nat): Doc
    decreases 3 - i
  {
    if i >= 3 then next
    else RemoveOrphansFrom(source, if Orphan(source, Keys[i]) then RemoveMark(next, MarkerOf(Keys[i])) else next, i + 1)
  }

  function RemoveBindings(d: Doc, keepCatalog: bool): Doc {
    var d1 := RemoveKey(RemoveKey(d, ModelProvider), OpenaiBaseUrl);
    var d2 := if keepCatalog then d1 else RemoveKey(d1, ModelCatalogJson);
    RemoveMark(RemoveMark(RemoveMark(d2, ProviderMarker), BaseUrlMarker), CatalogMarker)
  }

  function Write(d: Doc, k: Key, v: Quotable): Doc
    requires Managed(k)
  {
    AddMark(Upsert(d, k, v), k, MarkerOf(k))
  }

  predicate CatalogPathValid(p: string) {
    IsAbsolute(p) && Basename(p) == "sks-bridge-catalog.json"
  }

  function Selection(next: Doc): Quotable {
    if TopString(next, ModelProvider) == Some("codex-lb") && Header(CodexLbProvider) in next then "codex-lb" else "openai"
  }

  /** The first conflict that the readers find, if any. */
  function Conflict(next: Doc, bind: bool): Option<Key> {
    var provider := TopString(next, ModelProvider);
    if provider.Some? && !(Content(ModelProvider, provider) && HasMark(next, ProviderMarker)) then Some(ModelProvider)
    else if TopString(next, OpenaiBaseUrl).Some? && !HasMark(next, BaseUrlMarker) then Some(OpenaiBaseUrl)
    else if HasUserOwnedCatalog(next) && bind then Some(ModelCatalogJson)
    else None
  }

  function UpsertManaged(d: Doc, input: Input): Result {
    if !CatalogPathValid(input.catalogPath) then Error(CatalogPathInvalid)
    else
      var next := RemoveOrphansFrom(d, d, 0);
      var conflict := Conflict(next, input.bind);
      if conflict.Some? then Error(UserOwned(conflict.value))
      else
        var base := RemoveBindings(next, HasUserOwnedCatalog(next));
        var bound := Write(Write(base, ModelProvider, Selection(next)), OpenaiBaseUrl, input.baseUrl);
        Ok(EnsureTrailingNewline(if input.bind then Write(bound, ModelCatalogJson, input.catalogPath) else bound))
  }

  function RemoveManagedFrom(source: Doc, next: Doc, i: nat): Result
    decreases 3 - i
  {
    if i >= 3 then Ok(EnsureTrailingNewline(next))
    else
      var k := Keys[i];
      if !HasMark(next, MarkerOf(k)) then
        if TopString(source, k).Some? then Error(OwnershipMissing(k)) else RemoveManagedFrom(source, next, i + 1)
      else if !Content(k, TopString(source, k)) then Error(OwnedValueInvalid(k))
      else RemoveManagedFrom(source, RemoveMark(RemoveKey(next, k), MarkerOf(k)), i + 1)
  }

  function RemoveManaged(d: Doc): Result { RemoveManagedFrom(d, d, 0) }

  function SetCatalog(d: Doc, path: Option<Inline>): Result {
    if !HasMark(d, BaseUrlMarker) || HasUserOwnedCatalog(d) then Ok(d)
    else if path.None? then
      if TopString(d, ModelCatalogJson).None? then Ok(d)
      else Ok(EnsureTrailingNewline(RemoveMark(RemoveKey(d, ModelCatalogJson), CatalogMarker)))
    else if !CatalogPathValid(path.value) then Error(CatalogPathInvalid)
    else if TopString(d, ModelCatalogJson) == Some(path.value) then Ok(d)
    else Ok(EnsureTrailingNewline(Write(d, ModelCatalogJson, path.value)))
  }

  // ---- the program's steps ----

  lemma {:induction false} KeptConcat(a: seq<Line>, b: seq<Line>, ks: set<Key>, ms: set<Marker>)
    ensures Kept(a + b, ks, ms) == Kept(a, ks, ms) + Kept(b, ks, ms)
  {
    if a == [] {
      assert a + b == b;
    } else {
      assert (a + b)[0] == a[0] && (a + b)[1..] == a[1..] + b;
      KeptConcat(a[1..], b, ks, ms);
    }
  }

  lemma KeptOne(l: Line, ks: set<Key>, ms: set<Marker>)
    ensures Kept([l], ks, ms) == if Dropped(l, ks, ms) then [] else [l]
  {
    assert [l][1..] == [];
  }

  lemma KeptEmpty(ks: set<Key>, ms: set<Marker>)
    ensures Kept([], ks, ms) == []
  {
  }

  lemma KeptCons(l: Line, lines: seq<Line>, ks: set<Key>, ms: set<Marker>)
    ensures Kept([l] + lines, ks, ms) == (if Dropped(l, ks, ms) then [] else [l]) + Kept(lines, ks, ms)
  {
    assert ([l] + lines)[1..] == lines;
  }

  lemma SpliceStep(top: seq<Line>, done: seq<Line>, rest: seq<Line>, m: Marker, index: nat)
    requires index < |top| && done == Kept(top[index + 1..], {}, {m})
    ensures var lines, l := top[..index + 1] + (done + rest), top[index];
      lines[index] == l &&
      (if l == Mark(m) then
        done == Kept(top[index..], {}, {m}) && lines[..index] + lines[index + 1..] == top[..index] + (done + rest)
      else
        [l] + done == Kept(top[index..], {}, {m}) && lines == top[..index] + ([l] + done + rest))
  {
    hide Kept;
    var l := top[index];
    KeptCons(l, top[index + 1..], {}, {m});
    assert top[index..] == [l] + top[index + 1..] && top[..index + 1] == top[..index] + [l];
    assert [] + done == done;
  }

  /** Splice the marker out of the top level, last line first. */
  method RemoveTopLevelLine(d: Doc, m: Marker) returns (r: Doc)
    ensures r == RemoveMark(d, m)
  {
    hide Tidy, Kept, TopEnd;
    var top, rest := Top(d), Rest(d);
    var lines: seq<Line> := d;
    var index := TopEnd(d);
    ghost var done: seq<Line> := [];
    KeptEmpty({}, {m});
    assert top[index..] == [] && d == top[..index] + ([] + rest);
    while index > 0
      invariant 0 <= index <= |top|
      invariant lines == top[..index] + (done + rest) && done == Kept(top[index..], {}, {m})
    {
      index := index - 1;
      SpliceStep(top, done, rest, m, index);
      if lines[index] == Mark(m) {
        lines := lines[..index] + lines[index + 1..];
      } else {
        done := [lines[index]] + done;
      }
    }
    assert top[0..] == top && top[..0] + (done + rest) == done + rest;
    r := Tidy(lines);
  }

  /** Replace the first binding in place and stop, or insert a line at the end of the top level. */
  method UpsertTopLevelTomlString(d: Doc, k: Key, v: Quotable) returns (r: Doc)
    ensures r == Upsert(d, k, v)
  {
    var end := TopEnd(d);
    var i := 0;
    while i < end
      invariant 0 <= i <= end
      invariant forall j :: 0 <= j < i ==> !(d[j].Bind? && d[j].key == k)
    {
      if d[i].Bind? && d[i].key == k {
        assert KeyAt(Top(d), k) == i;
        SqueezeIsSolid(d[i := Bind(k, Some(v))]);
        return Squeeze(d[i := Bind(k, Some(v))]);
      }
      i := i + 1;
    }
    assert KeyAt(Top(d), k) == end;
    r := Tidy(d[..end] + [Bind(k, Some(v))] + d[end..]);
  }

  method RemoveOrphanMarkers(d: Doc) returns (r: Doc)
    ensures r == RemoveOrphansFrom(d, d, 0)
  {
    r := d;
    var i := 0;
    while i < 3
      invariant 0 <= i <= 3 && RemoveOrphansFrom(d, r, i) == RemoveOrphansFrom(d, d, 0)
    {
      if Orphan(d, Keys[i]) {
        r := RemoveTopLevelLine(r, MarkerOf(Keys[i]));
      }
      i := i + 1;
    }
  }

  method UpsertDesktopBridgeManagedConfig(d: Doc, input: Input) returns (r: Result)
    ensures r == UpsertManaged(d, input)
  {
    if !CatalogPathValid(input.catalogPath) {
      return Error(CatalogPathInvalid);
    }
    var next := RemoveOrphanMarkers(d);
    var conflict := Conflict(next, input.bind);
    if conflict.Some? {
      return Error(UserOwned(conflict.value));
    }
    var selection := Selection(next);
    next := RemoveBindings(next, HasUserOwnedCatalog(next));
    next := UpsertTopLevelTomlString(next, ModelProvider, selection);
    next := AddMark(next, ModelProvider, ProviderMarker);
    next := UpsertTopLevelTomlString(next, OpenaiBaseUrl, input.baseUrl);
    next := AddMark(next, OpenaiBaseUrl, BaseUrlMarker);
    if input.bind {
      next := UpsertTopLevelTomlString(next, ModelCatalogJson, input.catalogPath);
      next := AddMark(next, ModelCatalogJson, CatalogMarker);
    }
    r := Ok(EnsureTrailingNewline(next));
  }

  method RemoveDesktopBridgeManagedConfig(d: Doc) returns (r: Result)
    ensures r == RemoveManaged(d)
  {
    var next := d;
    var i := 0;
    while i < 3
      invariant 0 <= i <= 3 && RemoveManagedFrom(d, next, i) == RemoveManaged(d)
    {
      var k := Keys[i];
      var value := TopString(d, k);
      if !HasMark(next, MarkerOf(k)) {
        if value.Some? {
          return Error(OwnershipMissing(k));
        }
      } else if !Content(k, value) {
        return Error(OwnedValueInvalid(k));
      } else {
        next := RemoveTopLevelLine(RemoveKey(next, k), MarkerOf(k));
      }
      i := i + 1;
    }
    r := Ok(EnsureTrailingNewline(next));
  }
}
