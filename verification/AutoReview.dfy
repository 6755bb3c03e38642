/** Retired profile tables and the review policy in a configuration text (src/core/auto-review.ts 113-142, 180-280). */
module AutoReview {

  import opened Common
  import opened TomlLines

  /** The constants of the program: retired profile names and policy texts, the policy it writes, the policy texts that
      hold the phrase it never overwrites, and the profile bodies it used to generate, without blank lines. */
  datatype Registry = Registry(profiles: seq<Quotable>, retired: set<Quotable>, policy: Quotable,
                               exempt: set<Quotable>, generated: set<seq<Line>>)

  datatype Reconciled = Reconciled(text: Doc, detected: nat, conflict: bool)

  // ---- tables ----

  /** The lines under a table's first header, up to the next header. */
  function TableBody(d: seq<Line>, t: Table): seq<Line> {
    if d == [] then [] else if d[0] == Header(t) then Top(d[1..]) else TableBody(d[1..], t)
  }

  /** Put other lines in place of a table's first header and body. */
  function WithTable(d: seq<Line>, t: Table, block: seq<Line>): seq<Line> {
    if d == [] then []
    else if d[0] == Header(t) then block + Rest(d[1..])
    else [d[0]] + WithTable(d[1..], t, block)
  }

  function WithoutTable(d: seq<Line>, t: Table): seq<Line> { WithTable(d, t, []) }

  function WithoutFirst(lines: seq<Line>, l: Line): seq<Line> {
    if lines == [] then [] else if lines[0] == l then lines[1..] else [lines[0]] + WithoutFirst(lines[1..], l)
  }

  /** No two blank lines in a row, none at the end, and a final line end. */
  function Normalize(lines: seq<Line>): Doc {
    SqueezeIsSolid(ToDoc(lines));
    var t: seq<Line> := TrimEnd(Squeeze(ToDoc(lines)));
    t + [Blank]
  }

  function RemoveTable(d: Doc, t: Table): Doc {
    if Header(t) in TrimEnd(d) then Normalize(WithoutTable(TrimEnd(d), t)) else d
  }

  /** Replace a table, or append it below a blank line. */
  function UpsertTable(d: Doc, t: Table, block: seq<Line>): Doc {
    var lines: seq<Line> := TrimEnd(d);
    if Header(t) in lines then
      Squeeze(WithTable(lines, t, block)) + [Blank]
    else
      (if lines[0] == Blank then lines[1..] else lines) + (if lines == [Blank] then [] else [Blank]) + block + [Blank]
  }

  function Selector(p: Quotable): Line { Bind(ProfileKey, Some(p)) }

  function RemoveSelector(d: Doc, p: Quotable): Doc {
    Normalize(WithoutFirst(Top(d), Selector(p)) + Rest(d))
  }

  function RemoveLegacy(d: Doc, p: Quotable): Doc { RemoveSelector(RemoveTable(d, Profile(p)), p) }

  // ---- reconciling ----

  /** A body's text is empty when it has no line or only an empty one. */
  predicate HasBody(d: Doc, t: Table) { TableBody(d, t) != [] && TableBody(d, t) != [Blank] }

  predicate Selected(d: Doc, p: Quotable) { Read(Top(d), ProfileKey) == Some(p) }

  predicate UserAuthored(reg: Registry, d: Doc, p: Quotable) {
    HasBody(d, Profile(p)) && Solid(TableBody(d, Profile(p))) !in reg.generated
  }

  function Policy(d: seq<Line>): Option<Quotable> { Read(TableBody(d, AutoReview), PolicyKey) }

  predicate Outdated(reg: Registry, d: seq<Line>) { Policy(d).Some? && Policy(d).value in reg.retired }

  function PolicyBlock(reg: Registry): seq<Line> { [Header(AutoReview), Bind(PolicyKey, Some(reg.policy))] }

  function UpsertPolicy(reg: Registry, d: Doc): Doc {
    if Policy(d).Some? && Policy(d).value in reg.exempt then d else UpsertTable(d, AutoReview, PolicyBlock(reg))
  }

  function Without(reg: Registry, state: Reconciled, p: Quotable): Reconciled {
    var found := HasBody(state.text, Profile(p)) || Selected(state.text, p);
    Reconciled(RemoveLegacy(state.text, p), state.detected + (if found then 1 else 0),
               state.conflict || UserAuthored(reg, state.text, p))
  }

  function WithoutProfiles(reg: Registry, d: Doc, n: nat): Reconciled
    requires n <= |reg.profiles|
  {
    if n == 0 then Reconciled(d, 0, false) else Without(reg, WithoutProfiles(reg, d, n - 1), reg.profiles[n - 1])
  }

  function Reconcile(reg: Registry, d: Doc): Reconciled {
    var s := WithoutProfiles(reg, d, |reg.profiles|);
    if Outdated(reg, s.text) then Reconciled(UpsertPolicy(reg, s.text), s.detected + 1, s.conflict) else s
  }

  // ---- the program's loops ----

  lemma {:induction false} TableFrom(d: seq<Line>, t: Table, i: nat, block: seq<Line>)
    requires i <= |d| && Header(t) !in d[..i]
    ensures TableBody(d, t) == TableBody(d[i..], t)
    ensures WithTable(d, t, block) == d[..i] + WithTable(d[i..], t, block)
  {
    hide TableBody, WithTable;
    if i == 0 {
      assert d[0..] == d && d[..0] == [];
      assert d[..0] + WithTable(d, t, block) == WithTable(d, t, block);
    } else {
      var l, rest := d[0], d[1..];
      assert d[..i] == [l] + rest[..i - 1] && d[i..] == rest[i - 1..];
      assert l in d[..i];
      TableFrom(rest, t, i - 1, block);
      TableStep(d, t, block);
      assert [l] + (rest[..i - 1] + WithTable(rest[i - 1..], t, block)) == d[..i] + WithTable(d[i..], t, block);
    }
  }

  lemma TableStep(d: seq<Line>, t: Table, block: seq<Line>)
    requires d != [] && d[0] != Header(t)
    ensures TableBody(d, t) == TableBody(d[1..], t) && WithTable(d, t, block) == [d[0]] + WithTable(d[1..], t, block)
  {
  }

  /** The region that starts at index i, up to the next header. */
  lemma TableAt(d: seq<Line>, t: Table, i: nat, end: nat, block: seq<Line>)
    requires i < end <= |d| && d[i] == Header(t) && Header(t) !in d[..i]
    requires (forall j | i < j < end :: !d[j].Header?) && (end < |d| ==> d[end].Header?)
    ensures TableBody(d, t) == d[i + 1..end] && WithTable(d, t, block) == d[..i] + block + d[end..]
  {
    hide TopEnd;
    TableFrom(d, t, i, block);
    var tail := d[i..];
    assert tail[0] == Header(t) && tail[1..] == d[i + 1..end] + d[end..];
    TopEndOf(d[i + 1..end], d[end..]);
    assert WithTable(tail, t, block) == block + d[end..];
    assert d[..i] + (block + d[end..]) == d[..i] + block + d[end..];
  }

  method ReadTableBody(d: Doc, t: Table) returns (body: seq<Line>)
    ensures body == TableBody(d, t)
  {
    var inTable := false;
    body := [];
    var i := 0;
    ghost var start := 0;
    while i < |d|
      invariant 0 <= i <= |d|
      invariant !inTable ==> body == [] && Header(t) !in d[..i]
      invariant inTable ==> start < i && d[start] == Header(t) && Header(t) !in d[..start]
      invariant inTable ==> body == d[start + 1..i] && forall j | start < j < i :: !d[j].Header?
    {
      if d[i].Header? {
        if inTable {
          TableAt(d, t, start, i, []);
          return;
        }
        inTable := d[i] == Header(t);
        start := i;
      } else if inTable {
        body := body + [d[i]];
      }
      i := i + 1;
    }
    if inTable {
      TableAt(d, t, start, |d|, []);
    } else {
      TableFrom(d, t, |d|, []);
    }
  }

  /** Where the region that starts at a header ends. */
  method RegionEnd(lines: seq<Line>, start: nat) returns (end: nat)
    requires start < |lines|
    ensures start < end <= |lines| && (forall j | start < j < end :: !lines[j].Header?)
    ensures end < |lines| ==> lines[end].Header?
  {
    end := |lines|;
    for i := start + 1 to |lines|
      invariant end == |lines| && forall j | start < j < i :: !lines[j].Header?
    {
      if lines[i].Header? {
        end := i;
        break;
      }
    }
  }

  function FirstAt(lines: seq<Line>, l: Line): (n: nat)
    ensures n <= |lines| && l !in lines[..n] && (n < |lines| ==> lines[n] == l)
  {
    if lines == [] || lines[0] == l then 0
    else
      var n := FirstAt(lines[1..], l);
      assert lines[..1 + n] == [lines[0]] + lines[1..][..n];
      1 + n
  }

  method SpliceTable(d: Doc, t: Table) returns (r: Doc)
    ensures r == RemoveTable(d, t)
  {
    hide Normalize, TrimEnd, WithTable, TableBody;
    var lines: seq<Line> := TrimEnd(d);
    var start := FirstAt(lines, Header(t));
    if start == |lines| {
      assert lines[..start] == lines;
      return d;
    }
    var end := RegionEnd(lines, start);
    TableAt(lines, t, start, end, []);
    assert lines[..start] + lines[end..] == lines[..start] + [] + lines[end..];
    r := Normalize(lines[..start] + lines[end..]);
  }

  method ReplaceTable(d: Doc, t: Table, block: seq<Line>) returns (r: Doc)
    ensures r == UpsertTable(d, t, block)
  {
    hide TrimEnd, WithTable, TableBody, Squeeze;
    var lines: seq<Line> := TrimEnd(d);
    var start := FirstAt(lines, Header(t));
    if start == |lines| {
      assert lines[..start] == lines;
      return (if lines[0] == Blank then lines[1..] else lines) + (if lines == [Blank] then [] else [Blank]) + block + [Blank];
    }
    var end := RegionEnd(lines, start);
    TableAt(lines, t, start, end, block);
    r := Squeeze(lines[..start] + block + lines[end..]) + [Blank];
  }

  lemma {:induction false} WithoutFirstAt(lines: seq<Line>, l: Line, i: nat)
    requires i <= |lines| && l !in lines[..i] && (i < |lines| ==> lines[i] == l)
    ensures WithoutFirst(lines, l) == lines[..i] + if i < |lines| then lines[i + 1..] else []
  {
    if i > 0 {
      assert lines[..i] == [lines[0]] + lines[1..][..i - 1];
      assert lines[0] in lines[..i];
      WithoutFirstAt(lines[1..], l, i - 1);
    }
  }

  /** Splice out the first top-level selector of the profile and stop. */
  method RemoveTopLevelStringIfValue(d: Doc, p: Quotable) returns (r: Doc)
    ensures r == RemoveSelector(d, p)
  {
    hide Normalize, WithoutFirst, TopEnd;
    var top, rest := Top(d), Rest(d);
    var lines: seq<Line> := d;
    var end := TopEnd(d);
    assert d == top + rest;
    var i := 0;
    while i < end
      invariant 0 <= i <= end && lines == d && Selector(p) !in top[..i]
    {
      if lines[i] == Selector(p) {
        WithoutFirstAt(top, Selector(p), i);
        assert lines[..i] + lines[i + 1..] == top[..i] + top[i + 1..] + rest;
        return Normalize(lines[..i] + lines[i + 1..]);
      }
      i := i + 1;
    }
    WithoutFirstAt(top, Selector(p), end);
    assert top[..end] + [] == top;
    r := Normalize(lines);
  }

  method ReconcileRetiredSksConfigText(reg: Registry, d: Doc) returns (r: Reconciled)
    ensures r == Reconcile(reg, d)
  {
    hide RemoveTable, RemoveSelector, TableBody, Read;
    var next, detected, conflict := d, 0, false;
    for n := 0 to |reg.profiles|
      invariant Reconciled(next, detected, conflict) == WithoutProfiles(reg, d, n)
    {
      var p := reg.profiles[n];
      var body := ReadTableBody(next, Profile(p));
      var selected := Read(Top(next), ProfileKey) == Some(p);
      if body != [] && body != [Blank] {
        detected := detected + 1;
        if Solid(body) !in reg.generated {
          conflict := true;
        }
      } else if selected {
        detected := detected + 1;
      }
      next := SpliceTable(next, Profile(p));
      next := RemoveTopLevelStringIfValue(next, p);
    }
    var body := ReadTableBody(next, AutoReview);
    var policy := Read(body, PolicyKey);
    if policy.Some? && policy.value in reg.retired {
      detected := detected + 1;
      if policy.value !in reg.exempt {
        next := ReplaceTable(next, AutoReview, PolicyBlock(reg));
      }
    }
    r := Reconciled(next, detected, conflict);
  }
}
