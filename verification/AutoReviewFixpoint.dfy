/** When reconciling changes nothing, and when doing it twice is doing it once (src/core/auto-review.ts 113-142). */
module AutoReviewFixpoint {

  import opened Common
  import opened Sorting
  import opened TomlLines
  import opened AutoReview
  import opened AutoReviewLaws

  // ---- one profile ----

  /** A table or a selector that names the profile. */
  predicate Stale(d: seq<Line>, p: Quotable) { Header(Profile(p)) in d || Selector(p) in Top(d) }

  /** Removing a profile on the non-blank lines of a text. */
  function LegacyLines(s: seq<Line>, p: Quotable): seq<Line> {
    var w := WithoutTable(s, Profile(p));
    WithoutFirst(Top(w), Selector(p)) + Rest(w)
  }

  lemma LegacySolid(d: Doc, p: Quotable)
    ensures Solid(RemoveLegacy(d, p)) == LegacyLines(Solid(d), p)
  {
    hide Solid, RemoveTable, RemoveSelector, WithTable, WithoutFirst, Top, Rest;
    RemoveTableSolid(d, Profile(p));
    RemoveSelectorSolid(RemoveTable(d, Profile(p)), p);
  }

  lemma {:induction false} FirstRemoved(lines: seq<Line>, l: Line)
    ensures var w := WithoutFirst(lines, l);
      (forall x :: multiset(w)[x] == if x == l && l in lines then multiset(lines)[x] - 1 else multiset(lines)[x]) &&
      (if l in lines then |w| + 1 == |lines| else w == lines) &&
      (Headless(lines) ==> Headless(w))
  {
    if lines != [] {
      FirstRemoved(lines[1..], l);
      var w := WithoutFirst(lines[1..], l);
      assert lines == [lines[0]] + lines[1..];
      assert multiset([lines[0]] + lines[1..]) == multiset([lines[0]]) + multiset(lines[1..]);
      if lines[0] == l {
        assert WithoutFirst(lines, l) == lines[1..];
      } else {
        assert multiset([lines[0]] + w) == multiset([lines[0]]) + multiset(w);
      }
    }
  }

  lemma HeadlessCount(lines: seq<Line>, t: Table)
    requires Headless(lines)
    ensures multiset(lines)[Header(t)] == 0
  {
    assert Header(t) !in lines;
  }

  /** What putting a block in place of a table does to the lines and the headers. */
  lemma RegionCounts(s: seq<Line>, t: Table, block: seq<Line>)
    requires Header(t) in s && (block == [] || (block[0] == Header(t) && Headless(block[1..])))
    ensures |WithTable(s, t, block)| + 1 + |TableBody(s, t)| == |s| + |block|
    ensures var w := WithTable(s, t, block);
      forall q :: multiset(w)[Header(q)] == (if q == t && block == [] then multiset(s)[Header(q)] - 1 else multiset(s)[Header(q)])
  {
    hide WithTable, TableBody, Top;
    var before, after := RegionOf(s, t);
    RegionWith(s, t, before, after, block);
    var body := TableBody(s, t);
    assert multiset(s) == multiset(before) + multiset([Header(t)]) + multiset(body) + multiset(after);
    assert multiset(before + block + after) == multiset(before) + multiset(block) + multiset(after);
    if block != [] {
      assert block == [Header(t)] + block[1..];
      assert multiset(block) == multiset([Header(t)]) + multiset(block[1..]);
    }
    forall q ensures multiset(before + block + after)[Header(q)]
                  == if q == t && block == [] then multiset(s)[Header(q)] - 1 else multiset(s)[Header(q)] {
      HeadlessCount(body, q);
      if block != [] {
        HeadlessCount(block[1..], q);
      }
    }
  }

  /** What removing a profile keeps and counts. */
  lemma LegacyCounts(s: seq<Line>, p: Quotable)
    ensures var e := LegacyLines(s, p);
      Top(e) == WithoutFirst(Top(s), Selector(p)) &&
      (forall other | other != Profile(p) :: TableBody(e, other) == TableBody(s, other)) &&
      (if Stale(s, p) then |e| < |s| else e == s) &&
      (forall q :: multiset(e)[Header(q)] == multiset(s)[Header(q)] - if q == Profile(p) && Header(q) in s then 1 else 0)
  {
    hide WithTable, TableBody, Top, Rest, WithoutFirst;
    var t := Profile(p);
    var w := WithoutTable(s, t);
    WithoutTop(s, t);
    if Header(t) in s {
      RegionCounts(s, t, []);
    } else {
      NoTable(s, t, []);
    }
    var top := WithoutFirst(Top(w), Selector(p));
    PartsOf(w);
    FirstRemoved(Top(w), Selector(p));
    TopEndOf(top, Rest(w));
    var e := LegacyLines(s, p);
    assert |e| == |top| + |Rest(w)| && |w| == |Top(w)| + |Rest(w)|;
    forall other | other != t ensures TableBody(e, other) == TableBody(s, other) {
      SkipHeadless(top, Rest(w), other);
      SkipHeadless(Top(w), Rest(w), other);
      OthersKept(s, t, [], other);
    }
    assert multiset(e) == multiset(top) + multiset(Rest(w));
    assert multiset(w) == multiset(Top(w)) + multiset(Rest(w));
    forall q ensures multiset(e)[Header(q)] == multiset(w)[Header(q)] {
      HeadlessCount(top, q);
      HeadlessCount(Top(w), q);
    }
  }

  lemma WithoutTop(s: seq<Line>, t: Table)
    ensures Top(WithoutTable(s, t)) == Top(s)
  {
    hide WithTable, Top;
    var other :| other != t;
    OthersKept(s, t, [], other);
  }

  // ---- every profile ----

  predicate AnyStale(reg: Registry, s: seq<Line>, n: nat)
    requires n <= |reg.profiles|
  {
    exists i :: 0 <= i < n && Stale(s, reg.profiles[i])
  }

  /** The removal of the first n profiles, on the non-blank lines. */
  function LegacyAll(reg: Registry, s: seq<Line>, n: nat): seq<Line>
    requires n <= |reg.profiles|
  {
    if n == 0 then s else LegacyLines(LegacyAll(reg, s, n - 1), reg.profiles[n - 1])
  }

  lemma {:induction false} ProfilesSolid(reg: Registry, d: Doc, n: nat)
    requires n <= |reg.profiles|
    ensures Solid(WithoutProfiles(reg, d, n).text) == LegacyAll(reg, Solid(d), n)
  {
    hide Solid, RemoveLegacy, LegacyLines, UserAuthored, HasBody, Selected;
    if n > 0 {
      ProfilesSolid(reg, d, n - 1);
      LegacySolid(WithoutProfiles(reg, d, n - 1).text, reg.profiles[n - 1]);
    }
  }

  lemma {:induction false} ProfilesShrink(reg: Registry, s: seq<Line>, n: nat)
    requires n <= |reg.profiles|
    ensures var e := LegacyAll(reg, s, n); if AnyStale(reg, s, n) then |e| < |s| else e == s
  {
    hide LegacyLines, Stale;
    if n > 0 {
      var prev, p := LegacyAll(reg, s, n - 1), reg.profiles[n - 1];
      ProfilesShrink(reg, s, n - 1);
      LegacyCounts(prev, p);
      if AnyStale(reg, s, n - 1) {
        assert AnyStale(reg, s, n);
      } else if Stale(s, p) {
        assert AnyStale(reg, s, n);
      }
    }
  }

  /** How often a line is left when one occurrence may have been taken out. */
  function Less(count: nat, taken: bool): nat { if taken && count > 0 then count - 1 else count }

  lemma LegacyAllStep(reg: Registry, s: seq<Line>, n: nat)
    requires 0 < n <= |reg.profiles|
    ensures LegacyAll(reg, s, n) == LegacyLines(LegacyAll(reg, s, n - 1), reg.profiles[n - 1])
    ensures forall p :: p in reg.profiles[..n] <==> p in reg.profiles[..n - 1] || p == reg.profiles[n - 1]
    ensures NoRepeats(reg.profiles) ==> reg.profiles[n - 1] !in reg.profiles[..n - 1]
  {
    hide LegacyLines;
    assert reg.profiles[..n] == reg.profiles[..n - 1] + [reg.profiles[n - 1]];
  }

  /** Removing distinct profiles takes out one header of each. */
  lemma {:induction false} ProfilesHeaders(reg: Registry, s: seq<Line>, n: nat, p: Quotable)
    requires n <= |reg.profiles| && NoRepeats(reg.profiles)
    ensures multiset(LegacyAll(reg, s, n))[Header(Profile(p))] == Less(multiset(s)[Header(Profile(p))], p in reg.profiles[..n])
  {
    hide LegacyLines, LegacyAll, Stale, TableBody, Top;
    if n == 0 {
      NoProfilesYet(reg, s);
    } else {
      LegacyAllStep(reg, s, n);
      ProfilesHeaders(reg, s, n - 1, p);
      LegacyCounts(LegacyAll(reg, s, n - 1), reg.profiles[n - 1]);
    }
  }

  lemma NoProfilesYet(reg: Registry, s: seq<Line>)
    ensures LegacyAll(reg, s, 0) == s && forall p :: p !in reg.profiles[..0]
  {
  }

  /** Removing distinct profiles takes out one top-level selector of each. */
  lemma {:induction false} ProfilesSelectors(reg: Registry, s: seq<Line>, n: nat, p: Quotable)
    requires n <= |reg.profiles| && NoRepeats(reg.profiles)
    ensures multiset(Top(LegacyAll(reg, s, n)))[Selector(p)] == Less(multiset(Top(s))[Selector(p)], p in reg.profiles[..n])
  {
    hide LegacyLines, LegacyAll, Stale, TableBody, Top;
    if n == 0 {
      NoProfilesYet(reg, s);
    } else {
      var prev := LegacyAll(reg, s, n - 1);
      LegacyAllStep(reg, s, n);
      ProfilesSelectors(reg, s, n - 1, p);
      LegacyCounts(prev, reg.profiles[n - 1]);
      FirstRemoved(Top(prev), Selector(reg.profiles[n - 1]));
    }
  }

  /** Removing profiles keeps every other table. */
  lemma {:induction false} ProfilesTables(reg: Registry, s: seq<Line>, n: nat, t: Table)
    requires n <= |reg.profiles| && !(t.Profile? && t.profile in reg.profiles[..n])
    ensures TableBody(LegacyAll(reg, s, n), t) == TableBody(s, t)
  {
    hide LegacyLines, LegacyAll, Stale, TableBody, Top;
    if n == 0 {
      NoProfilesYet(reg, s);
    } else {
      LegacyAllStep(reg, s, n);
      ProfilesTables(reg, s, n - 1, t);
      LegacyCounts(LegacyAll(reg, s, n - 1), reg.profiles[n - 1]);
    }
  }

  // ---- the policy ----

  lemma PolicySolid(d: Doc)
    ensures Policy(d) == Policy(Solid(d))
    ensures Policy(d).Some? ==> Header(AutoReview) in TrimEnd(d) && Header(AutoReview) in Solid(d) && TableBody(Solid(d), AutoReview) != []
  {
    hide Solid, TrimEnd, TableBody;
    NoLines();
    TableOfSolid(d, AutoReview, []);
    ReadOfSolid(TableBody(d, AutoReview), PolicyKey);
    TrimEndIsSolid(d);
    SolidMembers(d);
    SolidMembers(TrimEnd(d));
    if Header(AutoReview) !in d {
      NoTable(d, AutoReview, []);
    }
  }

  lemma PolicyBlockSolid(reg: Registry)
    ensures var b := PolicyBlock(reg);
      Solid(b) == b && Headless(b[1..]) && b[0] == Header(AutoReview) && |b| == 2 && b[1] != Blank
    ensures Read(PolicyBlock(reg)[1..], PolicyKey) == Some(reg.policy)
  {
    var b := PolicyBlock(reg);
    assert b == [b[0]] + [b[1]];
    SolidConcat([b[0]], [b[1]]);
    SolidOne(b[0]);
    SolidOne(b[1]);
  }

  lemma UpsertPolicySolid(reg: Registry, d: Doc)
    requires Policy(d).Some? && Policy(d).value !in reg.exempt
    ensures Solid(UpsertPolicy(reg, d)) == WithTable(Solid(d), AutoReview, PolicyBlock(reg))
  {
    hide Solid, TrimEnd, TableBody, WithTable, Squeeze, Policy, PolicyBlock;
    PolicySolid(d);
    PolicyBlockSolid(reg);
    var lines: seq<Line> := TrimEnd(d);
    TrimEndIsSolid(d);
    var w := WithTable(lines, AutoReview, PolicyBlock(reg));
    TableOfSolid(lines, AutoReview, PolicyBlock(reg));
    SqueezeIsSolid(w);
    SolidConcat(Squeeze(w), [Blank]);
    SolidOne(Blank);
    assert Solid(Squeeze(w)) + [] == Solid(Squeeze(w));
  }

  /** The non-blank lines after the policy step. */
  function PolicyLines(reg: Registry, s: seq<Line>): seq<Line> {
    if Outdated(reg, s) && Policy(s).value !in reg.exempt then WithTable(s, AutoReview, PolicyBlock(reg)) else s
  }

  lemma PolicyStepSolid(reg: Registry, d: Doc)
    ensures Solid(if Outdated(reg, d) then UpsertPolicy(reg, d) else d) == PolicyLines(reg, Solid(d))
  {
    hide Solid, Policy, UpsertTable, WithTable;
    PolicySolid(d);
    if Outdated(reg, d) && Policy(d).value !in reg.exempt {
      UpsertPolicySolid(reg, d);
    }
  }

  /** The policy step keeps the top level, every other table and the headers, adds no line, and settles the policy. */
  lemma PolicyStep(reg: Registry, s: seq<Line>)
    requires reg.policy !in reg.retired
    ensures var e := PolicyLines(reg, s);
      |e| <= |s| && Top(e) == Top(s) && (forall q :: multiset(e)[Header(q)] == multiset(s)[Header(q)]) &&
      (forall t | t != AutoReview :: TableBody(e, t) == TableBody(s, t)) &&
      !(Outdated(reg, e) && Policy(e).value !in reg.exempt) &&
      (e == s <==> !(Outdated(reg, s) && Policy(s).value !in reg.exempt))
  {
    hide Solid, WithTable, TableBody, Top, PolicyBlock, Read;
    if Outdated(reg, s) && Policy(s).value !in reg.exempt {
      var b := PolicyBlock(reg);
      PolicyBlockSolid(reg);
      EmptyTableReads(s);
      RegionCounts(s, AutoReview, b);
      BlockIsRead(s, AutoReview, b);
      forall t | t != AutoReview ensures TableBody(WithTable(s, AutoReview, b), t) == TableBody(s, t) {
        OthersKept(s, AutoReview, b, t);
      }
      OthersKept(s, AutoReview, b, CodexLbProvider);
    }
  }

  lemma EmptyTableReads(s: seq<Line>)
    requires Policy(s).Some?
    ensures Header(AutoReview) in s && TableBody(s, AutoReview) != []
  {
    if Header(AutoReview) !in s {
      NoTable(s, AutoReview, []);
    }
  }

  // ---- the text that reconciling leaves ----

  lemma ReconcileSolid(reg: Registry, d: Doc)
    ensures Solid(Reconcile(reg, d).text) == PolicyLines(reg, LegacyAll(reg, Solid(d), |reg.profiles|))
  {
    hide Solid, LegacyAll, PolicyLines, UpsertPolicy, Outdated, WithoutProfiles;
    ProfilesSolid(reg, d, |reg.profiles|);
    PolicyStepSolid(reg, WithoutProfiles(reg, d, |reg.profiles|).text);
  }

  predicate PolicyStale(reg: Registry, s: seq<Line>) { Outdated(reg, s) && Policy(s).value !in reg.exempt }

  lemma StaleSolid(d: Doc, p: Quotable)
    ensures Stale(Solid(d), p) == Stale(d, p)
  {
    hide Solid, Top;
    SolidMembers(d);
    TopOfSolid(d);
    SolidMembers(Top(d));
  }

  /** Reconciling leaves every non-blank line exactly when no retired profile is named by a table or by the top
      level, and the policy is not a retired one that it may replace. */
  lemma UnchangedExactly(reg: Registry, d: Doc)
    requires reg.policy !in reg.retired
    ensures Solid(Reconcile(reg, d).text) == Solid(d)
       <==> (forall p | p in reg.profiles :: !Stale(d, p)) && !PolicyStale(reg, d)
  {
    hide Solid, LegacyAll, PolicyLines, Outdated, Reconcile, Stale, Policy;
    var s, n := Solid(d), |reg.profiles|;
    ReconcileSolid(reg, d);
    ProfilesShrink(reg, s, n);
    PolicyStep(reg, LegacyAll(reg, s, n));
    PolicyStaleSolid(reg, d);
    forall p ensures Stale(s, p) == Stale(d, p) {
      StaleSolid(d, p);
    }
  }

  lemma PolicyStaleSolid(reg: Registry, d: Doc)
    ensures PolicyStale(reg, Solid(d)) == PolicyStale(reg, d)
  {
    hide Solid, Policy;
    PolicySolid(d);
  }

  /** Reconciling keeps the lines of every table but the retired profiles' and the review policy's. */
  lemma OtherTablesStay(reg: Registry, d: Doc, t: Table)
    requires NoRepeats(reg.profiles) && reg.policy !in reg.retired
    requires t != AutoReview && !(t.Profile? && t.profile in reg.profiles)
    ensures Solid(TableBody(Reconcile(reg, d).text, t)) == Solid(TableBody(d, t))
  {
    hide Solid, LegacyAll, PolicyLines, Reconcile, TableBody, WithTable;
    NoLines();
    var n := |reg.profiles|;
    ReconcileSolid(reg, d);
    assert reg.profiles[..n] == reg.profiles;
    ProfilesTables(reg, Solid(d), n, t);
    PolicyStep(reg, LegacyAll(reg, Solid(d), n));
    TableOfSolid(d, t, []);
    TableOfSolid(Reconcile(reg, d).text, t, []);
  }

  /** A retired profile is still named afterwards exactly when it was named twice. */
  lemma StaleAfter(reg: Registry, d: Doc, p: Quotable)
    requires NoRepeats(reg.profiles) && reg.policy !in reg.retired && p in reg.profiles
    ensures Stale(Reconcile(reg, d).text, p)
       <==> multiset(d)[Header(Profile(p))] > 1 || multiset(Top(d))[Selector(p)] > 1
  {
    hide Solid, LegacyAll, PolicyLines, Reconcile, TableBody, WithTable, Top;
    var n, e := |reg.profiles|, Reconcile(reg, d).text;
    ReconcileSolid(reg, d);
    assert reg.profiles[..n] == reg.profiles;
    ProfilesHeaders(reg, Solid(d), n, p);
    ProfilesSelectors(reg, Solid(d), n, p);
    PolicyStep(reg, LegacyAll(reg, Solid(d), n));
    StaleSolid(e, p);
    SolidCount(d, Header(Profile(p)));
    SolidCount(Top(d), Selector(p));
    TopOfSolid(d);
    assert multiset(Solid(e))[Header(Profile(p))] > 0 <==> Header(Profile(p)) in Solid(e);
    assert multiset(Top(Solid(e)))[Selector(p)] > 0 <==> Selector(p) in Top(Solid(e));
  }

  lemma {:induction false} SolidCount(d: seq<Line>, l: Line)
    requires l != Blank
    ensures multiset(Solid(d))[l] == multiset(d)[l]
  {
    if d != [] {
      SolidCount(d[1..], l);
      assert d == [d[0]] + d[1..];
      assert multiset(d) == multiset([d[0]]) + multiset(d[1..]);
      SolidCons(d[0], d[1..]);
      assert multiset([d[0]] + Solid(d[1..])) == multiset([d[0]]) + multiset(Solid(d[1..]));
    }
  }

  // ---- doing it twice ----

  /** No two blank lines in a row inside. */
  predicate Squeezed(d: seq<Line>) { forall i | 1 <= i && i + 2 < |d| :: d[i] == Blank ==> d[i + 1] != Blank }

  /** A text as `Normalize` leaves it. */
  predicate Normal(d: Doc) {
    |d| >= 2 && d[|d| - 1] == Blank && (|d| == 2 || d[|d| - 2] != Blank) && Squeezed(d)
  }

  lemma {:induction false} SqueezeSqueezes(d: seq<Line>)
    ensures Squeezed(Squeeze(d)) && |Squeeze(d)| <= |d|
    ensures d != [] ==> Squeeze(d) != [] && Squeeze(d)[|Squeeze(d)| - 1] == d[|d| - 1]
    decreases |d|
  {
    if |d| >= 4 {
      if d[1] == Blank && d[2] == Blank {
        SqueezeSqueezes([d[0]] + d[2..]);
      } else {
        var r := Squeeze(d[1..]);
        SqueezeSqueezes(d[1..]);
        SqueezeStarts(d[1..]);
        forall i | 1 <= i && i + 2 < |r| + 1 ensures ([d[0]] + r)[i] == Blank ==> ([d[0]] + r)[i + 1] != Blank {
          if i > 1 {
            assert r[i - 1] == Blank ==> r[i] != Blank;
          }
        }
      }
    }
  }

  /** Squeezing keeps the first line, and the second unless blank lines follow the first. */
  lemma {:induction false} SqueezeStarts(d: seq<Line>)
    requires d != []
    ensures Squeeze(d) != [] && Squeeze(d)[0] == d[0]
    ensures |Squeeze(d)| > 2 && |d| > 1 && Squeeze(d)[1] == Blank ==> d[1] == Blank
    decreases |d|
  {
    if |d| >= 4 {
      if d[1] == Blank && d[2] == Blank {
        SqueezeStarts([d[0]] + d[2..]);
      } else {
        SqueezeStarts(d[1..]);
      }
    }
  }

  lemma {:induction false} SqueezedIsFixed(d: seq<Line>)
    requires Squeezed(d)
    ensures Squeeze(d) == d
    decreases |d|
  {
    if |d| >= 4 {
      assert Squeezed(d[1..]) by {
        forall i | 1 <= i && i + 2 < |d[1..]| ensures d[1..][i] == Blank ==> d[1..][i + 1] != Blank {
          assert d[i + 1] == Blank ==> d[i + 2] != Blank;
        }
      }
      SqueezedIsFixed(d[1..]);
      assert d == [d[0]] + d[1..];
    }
  }

  lemma {:induction false} TrimEndEnds(d: Doc)
    ensures var t := TrimEnd(d); |t| <= |d| && t == d[..|t|] && (t == [Blank] || t[|t| - 1] != Blank)
    ensures d[|d| - 1] != Blank ==> TrimEnd(d) == d
  {
    if |d| > 1 && d[|d| - 1] == Blank {
      TrimEndEnds(d[..|d| - 1]);
    }
  }

  lemma EndedIsNormal(t: seq<Line>)
    requires t != [] && Squeezed(t) && (t == [Blank] || t[|t| - 1] != Blank)
    ensures Normal(t + [Blank])
  {
    var d := t + [Blank];
    forall i | 1 <= i && i + 2 < |d| ensures d[i] == Blank ==> d[i + 1] != Blank {
      if i + 2 < |t| {
        assert t[i] == Blank ==> t[i + 1] != Blank;
      }
    }
  }

  lemma NormalizeIsNormal(lines: seq<Line>)
    ensures Normal(Normalize(lines))
  {
    hide Squeeze, TrimEnd, Normal;
    var q := Squeeze(ToDoc(lines));
    SqueezeSqueezes(ToDoc(lines));
    TrimEndEnds(q);
    var t: seq<Line> := TrimEnd(q);
    forall i | 1 <= i && i + 2 < |t| ensures t[i] == Blank ==> t[i + 1] != Blank {
      assert q[i] == Blank ==> q[i + 1] != Blank;
    }
    EndedIsNormal(t);
  }

  lemma NormalIsFixed(d: Doc)
    requires Normal(d)
    ensures Normalize(d) == d
  {
    SqueezedIsFixed(d);
    var t: Doc := d[..|d| - 1];
    assert d == t + [Blank];
    assert TrimEnd(d) == TrimEnd(t);
    TrimEndEnds(t);
    if |d| == 2 {
      FirstBlank(t);
    }
  }

  lemma FirstBlank(t: Doc)
    requires |t| == 1
    ensures TrimEnd(t) == t
  {
  }

  lemma UpsertPolicyIsNormal(reg: Registry, d: Doc)
    requires Outdated(reg, d) && Normal(d)
    ensures Normal(UpsertPolicy(reg, d))
  {
    hide Squeeze, TrimEnd, Normal, WithTable, TableBody, Read;
    if Policy(d).value !in reg.exempt {
      var lines: seq<Line> := TrimEnd(d);
      PolicySolid(d);
      TrimEndEnds(d);
      PolicyBlockSolid(reg);
      var b := PolicyBlock(reg);
      var before, after := RegionOf(lines, AutoReview);
      RegionWith(lines, AutoReview, before, after, b);
      var w := WithTable(lines, AutoReview, b);
      assert w == before + b + after;
      SqueezeSqueezes(w);
      LastKept(before, TableBody(lines, AutoReview), after, b, lines);
      EndedIsNormal(Squeeze(w));
    }
  }

  lemma LastKept(before: seq<Line>, body: seq<Line>, after: seq<Line>, b: seq<Line>, lines: seq<Line>)
    requires |b| == 2 && b[1] != Blank && lines == before + [Header(AutoReview)] + body + after
    requires lines == [Blank] || lines[|lines| - 1] != Blank
    ensures (before + b + after)[|before + b + after| - 1] != Blank
  {
    if after != [] {
      assert (before + b + after)[|before + b + after| - 1] == after[|after| - 1];
      assert lines[|lines| - 1] == after[|after| - 1];
      assert Header(AutoReview) in lines;
    }
  }

  lemma ReconciledIsNormal(reg: Registry, d: Doc)
    requires reg.profiles != []
    ensures Normal(Reconcile(reg, d).text)
  {
    hide Normal, Normalize, RemoveTable, Outdated, UpsertPolicy, HasBody, Selected, UserAuthored;
    var n := |reg.profiles|;
    var prev, p := WithoutProfiles(reg, d, n - 1).text, reg.profiles[n - 1];
    var e := RemoveTable(prev, Profile(p));
    NormalizeIsNormal(WithoutFirst(Top(e), Selector(p)) + Rest(e));
    var s := WithoutProfiles(reg, d, n).text;
    assert s == RemoveSelector(e, p);
    if Outdated(reg, s) {
      UpsertPolicyIsNormal(reg, s);
    }
  }

  lemma NotStaleIsFixed(d: Doc, p: Quotable)
    requires Normal(d) && !Stale(d, p)
    ensures RemoveLegacy(d, p) == d
  {
    hide Normal, Normalize, TrimEnd, WithoutFirst, WithTable;
    TrimEndEnds(d);
    FirstRemoved(Top(d), Selector(p));
    TopIsHeadless(d);
    NormalIsFixed(d);
  }

  lemma {:induction false} ProfilesFixed(reg: Registry, d: Doc, n: nat)
    requires n <= |reg.profiles| && Normal(d) && forall p | p in reg.profiles :: !Stale(d, p)
    ensures WithoutProfiles(reg, d, n).text == d
  {
    hide Normal, Stale, RemoveLegacy, HasBody, Selected, UserAuthored;
    if n > 0 {
      ProfilesFixed(reg, d, n - 1);
      NotStaleIsFixed(d, reg.profiles[n - 1]);
    }
  }

  /** Reconciling a second time leaves the text of the first, blank lines and all, exactly when no retired profile has
      two tables or two top-level selectors: each pass removes one of each. */
  lemma FixedExactly(reg: Registry, d: Doc)
    requires reg.profiles != [] && NoRepeats(reg.profiles) && reg.policy !in reg.retired
    ensures Reconcile(reg, Reconcile(reg, d).text).text == Reconcile(reg, d).text
       <==> forall p | p in reg.profiles :: multiset(d)[Header(Profile(p))] <= 1 && multiset(Top(d))[Selector(p)] <= 1
  {
    hide Normal, Stale, Reconcile, Policy, Top, Solid;
    var x := Reconcile(reg, d).text;
    UnchangedExactly(reg, x);
    ReconciledIsNormal(reg, d);
    forall p | p in reg.profiles
      ensures Stale(x, p) <==> multiset(d)[Header(Profile(p))] > 1 || multiset(Top(d))[Selector(p)] > 1 {
      StaleAfter(reg, d, p);
    }
    PolicySettled(reg, d);
    if forall p | p in reg.profiles :: !Stale(x, p) {
      SettledIsFixed(reg, x);
    }
  }

  /** Two tables of one retired profile: the second goes only when the text is reconciled again. */
  lemma TwiceNamedIsNotFixed(reg: Registry, p: Quotable)
    requires reg.profiles == [p] && reg.policy !in reg.retired
    ensures var d: Doc := [Header(Profile(p)), Header(Profile(p))];
      Reconcile(reg, Reconcile(reg, d).text).text != Reconcile(reg, d).text
  {
    hide Reconcile, Top;
    var d: Doc := [Header(Profile(p)), Header(Profile(p))];
    FixedExactly(reg, d);
    assert multiset(d)[Header(Profile(p))] == 2;
  }

  lemma PolicySettled(reg: Registry, d: Doc)
    requires reg.policy !in reg.retired
    ensures !PolicyStale(reg, Reconcile(reg, d).text)
  {
    hide Solid, LegacyAll, PolicyLines, Reconcile, Policy;
    ReconcileSolid(reg, d);
    PolicyStep(reg, LegacyAll(reg, Solid(d), |reg.profiles|));
    PolicyStaleSolid(reg, Reconcile(reg, d).text);
  }

  lemma SettledIsFixed(reg: Registry, x: Doc)
    requires Normal(x) && (forall p | p in reg.profiles :: !Stale(x, p)) && !PolicyStale(reg, x)
    ensures Reconcile(reg, x).text == x
  {
    hide Normal, Stale, Policy, UpsertTable, WithoutProfiles;
    ProfilesFixed(reg, x, |reg.profiles|);
  }

  // ---- the report ----

  /** An empty retired table that is not selected is removed although nothing is reported. */
  lemma EmptyTableIsUnreported(reg: Registry, p: Quotable)
    requires reg.profiles == [p]
    ensures var d: Doc := [Other("a"), Header(Profile(p))];
      var r := Reconcile(reg, d);
      r.detected == 0 && !r.conflict && Solid(r.text) != Solid(d)
  {
    hide Solid, Normalize, RemoveLegacy;
    var d: Doc := [Other("a"), Header(Profile(p))];
    assert d[1..] == [Header(Profile(p))] && d[1..][1..] == [];
    assert TableBody(d, Profile(p)) == [];
    assert Top(d) == [Other("a")];
    assert Top(d)[1..] == [];
    assert Read(Top(d), ProfileKey) == None;
    var s := WithoutProfiles(reg, d, 1);
    assert WithoutProfiles(reg, d, 0).text == d;
    assert s.detected == 0 && !s.conflict;
    ReportedText(reg, d, p);
  }

  lemma ReportedText(reg: Registry, d: Doc, p: Quotable)
    requires reg.profiles == [p] && d == [Other("a"), Header(Profile(p))]
    ensures !Outdated(reg, WithoutProfiles(reg, d, 1).text) && Solid(WithoutProfiles(reg, d, 1).text) != Solid(d)
  {
    hide Solid, Normalize, RemoveLegacy, WithoutProfiles, LegacyLines, LegacyAll, Top, TableBody, WithTable, Read;
    ProfilesSolid(reg, d, 1);
    LegacyAllOne(reg, Solid(d), p);
    SolidMembers(d);
    LegacyCounts(Solid(d), p);
    PolicySolid(WithoutProfiles(reg, d, 1).text);
    SolidMembers(WithoutProfiles(reg, d, 1).text);
    assert Header(AutoReview) !in Solid(d);
    assert multiset(LegacyLines(Solid(d), p))[Header(AutoReview)] == 0;
    assert Header(AutoReview) !in LegacyLines(Solid(d), p);
    if Outdated(reg, WithoutProfiles(reg, d, 1).text) {
      EmptyTableReads(LegacyLines(Solid(d), p));
    }
  }

  lemma LegacyAllOne(reg: Registry, s: seq<Line>, p: Quotable)
    requires reg.profiles == [p]
    ensures LegacyAll(reg, s, 1) == LegacyLines(s, p)
  {
    assert LegacyAll(reg, s, 0) == s;
  }

  lemma BlankRunIsNotNormal(d: Doc, before: seq<Line>, h: Line, body: seq<Line>, after: seq<Line>)
    requires d == before + [h] + body + after && |body| >= 2 && forall l | l in body :: l == Blank
    ensures !Normal(d)
  {
    var i := |before| + 1;
    assert body[0] in body && body[1] in body && body[|body| - 2] in body;
    assert d[i] == body[0] && d[i + 1] == body[1];
    if after == [] {
      assert d[|d| - 2] == body[|body| - 2];
    }
  }

  lemma BlankBodyIsShort(d: Doc, t: Table)
    requires Normal(d) && Solid(TableBody(d, t)) == []
    ensures !HasBody(d, t)
  {
    hide Solid, TableBody, WithTable, Normal, Top;
    var body := TableBody(d, t);
    SolidMembers(body);
    assert forall l | l in body :: l == Blank;
    if Header(t) in d {
      var before, after := RegionOf(d, t);
      if |body| >= 2 {
        BlankRunIsNotNormal(d, before, Header(t), body, after);
      }
      assert |body| == 1 ==> body[0] in body && body == [body[0]];
    } else {
      NoTable(d, t, []);
    }
  }

  lemma ProfilesNormal(reg: Registry, d: Doc, n: nat)
    requires 0 < n <= |reg.profiles|
    ensures Normal(WithoutProfiles(reg, d, n).text)
  {
    hide Normal, Normalize, RemoveTable, HasBody, Selected, UserAuthored;
    var prev, p := WithoutProfiles(reg, d, n - 1).text, reg.profiles[n - 1];
    var e := RemoveTable(prev, Profile(p));
    NormalizeIsNormal(WithoutFirst(Top(e), Selector(p)) + Rest(e));
    assert WithoutProfiles(reg, d, n).text == RemoveSelector(e, p);
  }

  /** A body that the program never generated. */
  predicate Foreign(reg: Registry, d: Doc, p: Quotable) {
    Solid(TableBody(d, Profile(p))) != [] && Solid(TableBody(d, Profile(p))) !in reg.generated
  }

  /** A body of blank lines only, before any edit has shortened it. */
  predicate BlankForeign(reg: Registry, d: Doc) {
    reg.profiles != [] && UserAuthored(reg, d, reg.profiles[0]) && Solid(TableBody(d, Profile(reg.profiles[0]))) == []
  }

  lemma AuthoredAt(reg: Registry, d: Doc, n: nat)
    requires n < |reg.profiles| && NoRepeats(reg.profiles)
    ensures UserAuthored(reg, WithoutProfiles(reg, d, n).text, reg.profiles[n])
       <==> Foreign(reg, d, reg.profiles[n]) || (n == 0 && BlankForeign(reg, d))
  {
    hide Solid, TableBody, LegacyAll, WithoutProfiles;
    var p, e := reg.profiles[n], WithoutProfiles(reg, d, n).text;
    var t := Profile(p);
    NoLines();
    SolidOne(Blank);
    ProfilesSolid(reg, d, n);
    assert p !in reg.profiles[..n];
    ProfilesTables(reg, Solid(d), n, t);
    TableOfSolid(d, t, []);
    TableOfSolid(e, t, []);
    assert Solid(TableBody(e, t)) == Solid(TableBody(d, t));
    if n == 0 {
      assert e == d by { NoProfiles(reg, d); }
    } else {
      ProfilesNormal(reg, d, n);
      if Solid(TableBody(e, t)) == [] {
        BlankBodyIsShort(e, t);
      }
    }
  }

  lemma NoProfiles(reg: Registry, d: Doc)
    ensures WithoutProfiles(reg, d, 0) == Reconciled(d, 0, false)
  {
  }

  lemma {:induction false} ConflictSoFar(reg: Registry, d: Doc, n: nat)
    requires n <= |reg.profiles| && NoRepeats(reg.profiles)
    ensures WithoutProfiles(reg, d, n).conflict
       <==> (exists i :: 0 <= i < n && Foreign(reg, d, reg.profiles[i])) || (n > 0 && BlankForeign(reg, d))
  {
    hide Foreign, BlankForeign, UserAuthored, HasBody, Selected, RemoveLegacy;
    if n > 0 {
      ConflictSoFar(reg, d, n - 1);
      AuthoredAt(reg, d, n - 1);
    }
  }

  /** A conflict is reported exactly when a retired table of the text as given holds lines that the program never
      generated: the edits for other profiles do not change the answer, except for blank lines in the first one. */
  lemma ConflictExactly(reg: Registry, d: Doc)
    requires NoRepeats(reg.profiles)
    ensures Reconcile(reg, d).conflict <==> (exists p :: p in reg.profiles && Foreign(reg, d, p)) || BlankForeign(reg, d)
  {
    hide Foreign, UserAuthored, Outdated, UpsertPolicy, WithoutProfiles;
    ConflictSoFar(reg, d, |reg.profiles|);
    if p :| p in reg.profiles && Foreign(reg, d, p) {
      var i :| 0 <= i < |reg.profiles| && reg.profiles[i] == p;
      assert Foreign(reg, d, reg.profiles[i]);
    }
  }
}
