/** The engineering sanity review: its seed, and the validator that binds it to a fresh scan. */
module SanityReview {
  import opened Common
  import opened Text
  import opened Sorting
  import opened LineRanges
  import opened ScanFindings

  datatype Entry = Entry(path: string, status: string, linesAdded: int, linesDeleted: int, sourceSha: Option<string>)

  datatype ChangedScope = ChangedScope(mode: string, base: string, changedFiles: seq<string>,
                                       sourceFiles: seq<string>, entries: seq<Entry>)

  datatype Report = Report(schemaVersion: int, scope: ChangedScope, findings: seq<Finding>)

  /** A hash of the normalized scope. Hashing is injective, so the digest is what was hashed. */
  datatype ScopeDigest = ScopeDigest(mode: string, base: string, changedFiles: seq<string>,
                                     sourceFiles: seq<string>, entries: seq<Entry>)

  datatype Check = Check(status: string, reason: string, evidence: seq<string>)

  datatype Disposition = Disposition(candidateId: string, status: string, reason: string, evidence: seq<string>,
                                     sourceScope: string, ranges: seq<Range>)

  datatype Review = Review(schema: string, passed: bool, addedHunksReviewed: bool, realCallersTraced: bool,
                           staticScanRole: string, changedFiles: seq<string>, reportName: string,
                           reportDigest: Option<string>, scopeDigest: Option<ScopeDigest>,
                           reviewedIds: seq<string>, dispositions: seq<Disposition>, checks: map<string, Check>,
                           candidateFindings: seq<Finding>, unresolvedFindings: seq<string>, blockers: seq<string>)

  /** `localeCompare`, as the order it induces. */
  type Locale = (string, string) -> bool

  const SCHEMA := "sks.engineering-sanity-review.v1"
  const SCAN_ROLE := "candidate_detection_only_not_completion_proof"
  const REPORT_NAME := "code-structure-report.json"

  const CHECK_IDS: seq<string> :=
    ["solid_boundaries", "n_plus_one_and_repeated_io", "bounded_render_recursion_event_retry_polling",
     "verification_bypass_absent"]

  // ---- normal forms ----

  predicate NonEmpty(s: string) { s != [] }

  /** Trimmed, non-empty, each once, in code-unit order. */
  function SortedUnique(ss: seq<string>): seq<string> { SortBy(Distinct(FilterMap(Trim, NonEmpty, ss)), StringLe) }

  function EntryLe(locale: Locale): (Entry, Entry) -> bool { (a: Entry, b: Entry) => locale(a.path, b.path) }

  function FindingLe(locale: Locale): (Finding, Finding) -> bool { (a: Finding, b: Finding) => locale(a.id, b.id) }

  function ScopeHash(scope: ChangedScope, locale: Locale): ScopeDigest {
    ScopeDigest(scope.mode, scope.base, SortedUnique(scope.changedFiles), SortedUnique(scope.sourceFiles),
                SortBy(scope.entries, EntryLe(locale)))
  }

  predicate IsCandidate(f: Finding) { ReviewedTag(f.tag) && f.id != [] }

  function KeepCandidates(fs: seq<Finding>): seq<Finding> {
    if fs == [] then [] else (if IsCandidate(fs[0]) then [fs[0]] else []) + KeepCandidates(fs[1..])
  }

  function Candidates(r: Report, locale: Locale): seq<Finding> { SortBy(KeepCandidates(r.findings), FindingLe(locale)) }

  function Ids(fs: seq<Finding>): seq<string> { seq(|fs|, i requires 0 <= i < |fs| => fs[i].id) }

  function CandidateIds(r: Report, locale: Locale): seq<string> { SortBy(Ids(Candidates(r, locale)), StringLe) }

  // ---- seed and completion ----

  /** A check nobody has looked at yet. */
  const PENDING := Check("pending", "", [])

  function Seed(r: Report, reportText: string, locale: Locale): Review {
    Review(SCHEMA, false, false, false, SCAN_ROLE, SortedUnique(r.scope.sourceFiles), REPORT_NAME,
           if reportText != [] then Some(reportText) else None, Some(ScopeHash(r.scope, locale)), [], [],
           map[CHECK_IDS[0] := PENDING, CHECK_IDS[1] := PENDING, CHECK_IDS[2] := PENDING, CHECK_IDS[3] := PENDING],
           Candidates(r, locale), [], [])
  }

  function Dispose(fs: seq<Finding>, reason: string, evidence: seq<string>): seq<Disposition> {
    seq(|fs|, i requires 0 <= i < |fs| =>
      Disposition(fs[i].id, "resolved", reason, evidence, fs[i].sourceScope, fs[i].ranges))
  }

  /** The seed with every check passed and every candidate disposed of. */
  function Completed(seed: Review, reason: string, evidence: seq<string>): Review {
    seed.(passed := true, addedHunksReviewed := true, realCallersTraced := true,
          reviewedIds := Ids(seed.candidateFindings),
          dispositions := Dispose(seed.candidateFindings, reason, evidence),
          checks := map[CHECK_IDS[0] := Check("passed", reason, evidence), CHECK_IDS[1] := Check("passed", reason, evidence),
                        CHECK_IDS[2] := Check("passed", reason, evidence), CHECK_IDS[3] := Check("passed", reason, evidence)])
  }

  // ---- validation ----

  datatype Blocker = Schema | Passed | AddedHunksReviewed | RealCallersTraced | StaticScanRole | UnresolvedFindings | Blockers
                   | CheckStatus(id: string) | CheckEvidence(id: string) | CheckReason(id: string)
                   | ReportName | ReportSchemaVersion | ReportDigest | ReportBase | ScopeDigestMismatch | StaleChangedScope
                   | ChangedFiles | StaleCandidates | ReviewedIds | CandidateFindings | Dispositions
                   | DispositionStatus | DispositionReason | DispositionEvidence | DispositionScope | DispositionRanges

  predicate GoodEvidence(evidence: seq<string>) { evidence != [] && forall e | e in evidence :: Trim(e) != [] }

  function CheckBlockers(checks: map<string, Check>, id: string): seq<Blocker> {
    if id !in checks || checks[id].status !in {"passed", "not_applicable"} then [CheckStatus(id)]
    else
      When(!GoodEvidence(checks[id].evidence), CheckEvidence(id))
      + When(checks[id].status == "not_applicable" && Trim(checks[id].reason) == [], CheckReason(id))
  }

  function BasicBlockers(r: Review): seq<Blocker> {
    When(r.schema != SCHEMA, Schema) + When(!r.passed, Passed) + When(!r.addedHunksReviewed, AddedHunksReviewed)
    + When(!r.realCallersTraced, RealCallersTraced) + When(r.staticScanRole != SCAN_ROLE, StaticScanRole)
    + When(r.unresolvedFindings != [], UnresolvedFindings) + When(r.blockers != [], Blockers)
    + CheckBlockers(r.checks, CHECK_IDS[0]) + CheckBlockers(r.checks, CHECK_IDS[1])
    + CheckBlockers(r.checks, CHECK_IDS[2]) + CheckBlockers(r.checks, CHECK_IDS[3])
  }

  /** The candidate an id names: the last of that id, as in a Map built in order. */
  function FindCandidate(fs: seq<Finding>, id: string): Option<Finding> {
    if fs == [] then None
    else if fs[|fs| - 1].id == id then Some(fs[|fs| - 1])
    else FindCandidate(fs[..|fs| - 1], id)
  }

  function DispositionBlockers(d: Disposition, scanned: seq<Finding>): seq<Blocker> {
    var c := FindCandidate(scanned, d.candidateId);
    var b1 := When(d.status !in {"resolved", "false_positive"}, DispositionStatus);
    var b2 := Push(b1, Trim(d.reason) == [], DispositionReason);
    var b3 := Push(b2, !GoodEvidence(d.evidence), DispositionEvidence);
    var b4 := Push(b3, c.None? || d.sourceScope != c.value.sourceScope, DispositionScope);
    Push(b4, NormalizeLineRanges(d.ranges) != NormalizeLineRanges(if c.Some? then c.value.ranges else []), DispositionRanges)
  }

  function AllDispositionBlockers(ds: seq<Disposition>, scanned: seq<Finding>): seq<Blocker> {
    if ds == [] then [] else DispositionBlockers(ds[0], scanned) + AllDispositionBlockers(ds[1..], scanned)
  }

  function DisposedIds(ds: seq<Disposition>): seq<string> { seq(|ds|, i requires 0 <= i < |ds| => ds[i].candidateId) }

  /** The scope base: the declared one, else the persisted one, else HEAD. */
  function ScanBase(declared: string, persisted: Option<Report>): string {
    var kept := if persisted.Some? then Trim(persisted.value.scope.base) else [];
    if Trim(declared) != [] then Trim(declared) else if kept != [] then kept else "HEAD"
  }

  /** What was read from the mission directory and what a fresh scan from the base finds. */
  datatype Evidence = Evidence(persisted: Option<Report>, persistedText: string, declaredBase: string,
                               scan: string -> Report)

  const NO_SCOPE := ChangedScope("", "", [], [], [])

  function ArtifactBlockers(r: Review, e: Evidence, locale: Locale): seq<Blocker> {
    var kept := if e.persisted.Some? then e.persisted.value.scope else NO_SCOPE;
    var declared, base := Trim(e.declaredBase), Trim(kept.base);
    var scanned := e.scan(ScanBase(e.declaredBase, e.persisted));
    var hash, ids := ScopeHash(scanned.scope, locale), CandidateIds(scanned, locale);
    When(r.reportName != REPORT_NAME, ReportName)
    + When(e.persisted.None? || e.persisted.value.schemaVersion != 1, ReportSchemaVersion)
    + When(r.reportDigest != Some(e.persistedText), ReportDigest)
    + When(declared != [] && base != [] && declared != base, ReportBase)
    + When(r.scopeDigest != Some(hash), ScopeDigestMismatch)
    + When(ScopeHash(kept, locale) != hash, StaleChangedScope)
    + When(SortedUnique(r.changedFiles) != SortedUnique(scanned.scope.sourceFiles), ChangedFiles)
    + When((if e.persisted.Some? then CandidateIds(e.persisted.value, locale) else []) != ids, StaleCandidates)
    + When(SortedUnique(r.reviewedIds) != ids, ReviewedIds)
    + When(SortedUnique(Ids(r.candidateFindings)) != ids, CandidateFindings)
    + When(SortedUnique(DisposedIds(r.dispositions)) != ids, Dispositions)
    + AllDispositionBlockers(r.dispositions, Candidates(scanned, locale))
  }

  function Validate(r: Review, e: Evidence, locale: Locale): seq<Blocker> {
    BasicBlockers(r) + ArtifactBlockers(r, e, locale)
  }

  /** The loop over the dispositions. */
  method CheckDispositions(ds: seq<Disposition>, scanned: seq<Finding>) returns (blockers: seq<Blocker>)
    ensures blockers == AllDispositionBlockers(ds, scanned)
  {
    hide DispositionBlockers;
    blockers := [];
    for i := 0 to |ds|
      invariant blockers + AllDispositionBlockers(ds[i..], scanned) == AllDispositionBlockers(ds, scanned)
    {
      assert ds[i..][1..] == ds[i + 1..];
      var found := CheckDisposition(ds[i], scanned);
      ghost var later := AllDispositionBlockers(ds[i + 1..], scanned);
      assert blockers + (found + later) == (blockers + found) + later;
      blockers := blockers + found;
    }
  }

  method CheckDisposition(row: Disposition, scanned: seq<Finding>) returns (found: seq<Blocker>)
    ensures found == DispositionBlockers(row, scanned)
  {
    hide FindCandidate, NormalizeLineRanges, GoodEvidence, Trim;
    found := [];
    if row.status !in {"resolved", "false_positive"} { found := [DispositionStatus]; }
    if Trim(row.reason) == [] { found := found + [DispositionReason]; }
    if !GoodEvidence(row.evidence) { found := found + [DispositionEvidence]; }
    var c := FindCandidate(scanned, row.candidateId);
    if c.None? || row.sourceScope != c.value.sourceScope { found := found + [DispositionScope]; }
    if NormalizeLineRanges(row.ranges) != NormalizeLineRanges(if c.Some? then c.value.ranges else []) {
      found := found + [DispositionRanges];
    }
  }

  // ---- the digest ----

  lemma EntryLeIsOrder(locale: Locale)
    requires TotalPreorder(locale)
    ensures TotalPreorder(EntryLe(locale)) && TotalPreorder(FindingLe(locale))
  {
    var le, fle := EntryLe(locale), FindingLe(locale);
    forall a, b ensures le(a, b) || le(b, a) { assert locale(a.path, b.path) || locale(b.path, a.path); }
    forall a, b ensures fle(a, b) || fle(b, a) { assert locale(a.id, b.id) || locale(b.id, a.id); }
    forall a, b, c | le(a, b) && le(b, c) ensures le(a, c) { assert locale(a.path, b.path) && locale(b.path, c.path); }
    forall a, b, c | fle(a, b) && fle(b, c) ensures fle(a, c) { assert locale(a.id, b.id) && locale(b.id, c.id); }
  }

  /** No two different entries share a path, as the comparison sees it. */
  ghost predicate DistinctPaths(entries: seq<Entry>, locale: Locale) {
    forall x, y | x in entries && y in entries && locale(x.path, y.path) && locale(y.path, x.path) :: x == y
  }

  /** Two scopes have the same digest exactly when they agree on mode, base and file sets and have the same
      entries, in whatever order. */
  lemma DigestMeaning(a: ChangedScope, b: ChangedScope, locale: Locale)
    requires TotalPreorder(locale) && DistinctPaths(a.entries, locale)
    ensures ScopeHash(a, locale) == ScopeHash(b, locale) <==>
              && a.mode == b.mode && a.base == b.base
              && SortedUnique(a.changedFiles) == SortedUnique(b.changedFiles)
              && SortedUnique(a.sourceFiles) == SortedUnique(b.sourceFiles)
              && multiset(a.entries) == multiset(b.entries)
  {
    hide SortedUnique;
    var le := EntryLe(locale);
    SortIsPermutation(a.entries, le);
    SortIsPermutation(b.entries, le);
    if multiset(a.entries) == multiset(b.entries) {
      EntryLeIsOrder(locale);
      SortIgnoresOrder(a.entries, b.entries, le);
    }
  }

  lemma NoRepeatsSnoc(init: seq<string>, last: string)
    ensures NoRepeats(init + [last]) <==> NoRepeats(init) && last !in init
  {
    var ss := init + [last];
    assert forall i | 0 <= i < |init| :: init[i] == ss[i];
    assert ss[|init|] == last;
  }

  lemma {:induction false} DistinctMembers(ss: seq<string>)
    ensures NoRepeats(Distinct(ss)) && forall s :: s in Distinct(ss) <==> s in ss
    ensures NoRepeats(ss) ==> Distinct(ss) == ss
  {
    hide NoRepeats;
    DistinctIsSet(ss);
    if ss == [] {
      NothingRepeats();
    } else {
      var init, last := ss[..|ss| - 1], ss[|ss| - 1];
      DistinctMembers(init);
      assert ss == init + [last];
      NoRepeatsSnoc(init, last);
      NoRepeatsSnoc(Distinct(init), last);
    }
  }

  lemma NothingRepeats()
    ensures NoRepeats<string>([])
  {
  }

  ghost predicate SameMembers(a: seq<string>, b: seq<string>) {
    forall x :: x in a <==> x in b
  }

  /** Sorted unique strings: trimmed, non-empty, without repeats, and the same members as the input. */
  lemma SortedUniqueMeaning(ss: seq<string>)
    ensures var u := SortedUnique(ss);
            && NoRepeats(u) && (forall x | x in u :: x != [] && Trimmed(x))
            && SameMembers(u, FilterMap(Trim, NonEmpty, ss))
  {
    var kept := FilterMap(Trim, NonEmpty, ss);
    DistinctMembers(kept);
    SortKeepsRepeats(Distinct(kept), StringLe);
    SortMembers(Distinct(kept), StringLe);
    forall x | x in kept ensures x != [] && Trimmed(x) {
      FilterMapOrigin(Trim, NonEmpty, ss, x);
      var s :| s in ss && Trim(s) == x;
      TrimIsTrimmed(s);
    }
  }

  predicate CleanIds(ids: seq<string>) { NoRepeats(ids) && forall x | x in ids :: x != [] && Trimmed(x) }

  lemma {:induction false} CleanIdsAreKept(ids: seq<string>)
    requires forall x | x in ids :: x != [] && Trimmed(x)
    ensures FilterMap(Trim, NonEmpty, ids) == ids
  {
    hide Trimmed;
    if ids != [] {
      assert ids[0] in ids;
      TrimOfTrimmed(ids[0]);
      assert forall x | x in ids[1..] :: x in ids;
      CleanIdsAreKept(ids[1..]);
    }
  }

  /** Plain sorting and sorting of trimmed distinct strings agree exactly on clean ids. */
  lemma SortedUniqueIsSort(ids: seq<string>)
    ensures SortedUnique(ids) == SortBy(ids, StringLe) <==> CleanIds(ids)
  {
    if CleanIds(ids) {
      CleanIdsAreKept(ids);
      DistinctMembers(ids);
    }
    if SortedUnique(ids) == SortBy(ids, StringLe) {
      SortedUniqueMeaning(ids);
      SortKeepsRepeats(ids, StringLe);
      SortMembers(ids, StringLe);
    }
  }

  // ---- acceptance ----

  lemma {:induction false} NoDispositionBlockers(ds: seq<Disposition>, scanned: seq<Finding>)
    ensures AllDispositionBlockers(ds, scanned) == [] <==> forall d | d in ds :: DispositionBlockers(d, scanned) == []
  {
    hide DispositionBlockers;
    if ds != [] {
      NoDispositionBlockers(ds[1..], scanned);
      assert forall d :: d in ds <==> d == ds[0] || d in ds[1..];
    }
  }

  /** The scan a validation runs. */
  function Fresh(e: Evidence): Report { e.scan(ScanBase(e.declaredBase, e.persisted)) }

  /** What no blocker of the artifact checks means. */
  predicate Bound(r: Review, e: Evidence, locale: Locale) {
    var scanned := Fresh(e);
    var hash, ids := ScopeHash(scanned.scope, locale), CandidateIds(scanned, locale);
    && r.reportName == REPORT_NAME
    && e.persisted.Some? && e.persisted.value.schemaVersion == 1
    && r.reportDigest == Some(e.persistedText)
    && (Trim(e.declaredBase) == [] || Trim(e.persisted.value.scope.base) == []
        || Trim(e.declaredBase) == Trim(e.persisted.value.scope.base))
    && r.scopeDigest == Some(hash) && ScopeHash(e.persisted.value.scope, locale) == hash
    && SortedUnique(r.changedFiles) == SortedUnique(scanned.scope.sourceFiles)
    && CandidateIds(e.persisted.value, locale) == ids
    && SortedUnique(r.reviewedIds) == ids && SortedUnique(Ids(r.candidateFindings)) == ids
    && SortedUnique(DisposedIds(r.dispositions)) == ids
    && forall d | d in r.dispositions :: DispositionBlockers(d, Candidates(scanned, locale)) == []
  }

  lemma BothEmpty<T>(a: seq<T>, b: seq<T>)
    ensures a + b == [] <==> a == [] && b == []
  {
    assert |a + b| == |a| + |b|;
  }

  lemma ArtifactMeaning(r: Review, e: Evidence, locale: Locale)
    ensures ArtifactBlockers(r, e, locale) == [] <==> Bound(r, e, locale)
  {
    var scanned := Fresh(e);
    NoDispositionBlockers(r.dispositions, Candidates(scanned, locale));
    var kept := if e.persisted.Some? then e.persisted.value.scope else NO_SCOPE;
    hide Trim, ScopeHash, CandidateIds, SortedUnique, Ids, DisposedIds, AllDispositionBlockers, Candidates, ScanBase,
         DispositionBlockers;
    assert |ArtifactBlockers(r, e, locale)| == 0 <==> ArtifactBlockers(r, e, locale) == [];
  }

  /** A check that was made: a final status, evidence, and a reason where it did not apply. */
  predicate Checked(r: Review, id: string) {
    && id in r.checks && r.checks[id].status in {"passed", "not_applicable"} && GoodEvidence(r.checks[id].evidence)
    && (r.checks[id].status == "not_applicable" ==> Trim(r.checks[id].reason) != [])
  }

  /** Everything that a review says of itself is in place. */
  predicate Complete(r: Review) {
    && r.schema == SCHEMA && r.passed && r.addedHunksReviewed && r.realCallersTraced && r.staticScanRole == SCAN_ROLE
    && r.unresolvedFindings == [] && r.blockers == []
    && forall i | 0 <= i < 4 :: Checked(r, CHECK_IDS[i])
  }

  lemma CheckMeaning(r: Review, id: string)
    ensures CheckBlockers(r.checks, id) == [] <==> Checked(r, id)
  {
    hide Trim, GoodEvidence;
    if id in r.checks {
      BothEmpty(When(!GoodEvidence(r.checks[id].evidence), CheckEvidence(id)),
                When(r.checks[id].status == "not_applicable" && Trim(r.checks[id].reason) == [], CheckReason(id)));
    }
  }

  lemma BasicMeaning(r: Review)
    ensures BasicBlockers(r) == [] <==> Complete(r)
  {
    hide CheckBlockers, Checked;
    assert |BasicBlockers(r)| == 0 <==> BasicBlockers(r) == [];
    forall i | 0 <= i < 4 ensures CheckBlockers(r.checks, CHECK_IDS[i]) == [] <==> Checked(r, CHECK_IDS[i]) {
      CheckMeaning(r, CHECK_IDS[i]);
    }
    assert (forall i | 0 <= i < 4 :: Checked(r, CHECK_IDS[i])) <==>
      Checked(r, CHECK_IDS[0]) && Checked(r, CHECK_IDS[1]) && Checked(r, CHECK_IDS[2]) && Checked(r, CHECK_IDS[3]);
  }

  /** The ids, each trimmed and taken once, are the candidates' ids, no more and no fewer. */
  ghost predicate ExactlyCandidates(ids: seq<string>, candidates: seq<Finding>) {
    forall x :: x in SortedUnique(ids) <==> exists c :: c in candidates && c.id == x
  }

  /** The scope digest and files are the fresh scan's; its candidates, whose ids are clean, are exactly the ones found,
      reviewed and disposed of; and every disposition is final, reasoned, evidenced, and carries the scope and line
      ranges of its fresh candidate. */
  ghost predicate BoundToScan(r: Review, scanned: Report, locale: Locale) {
    var candidates := Candidates(scanned, locale);
    && r.scopeDigest == Some(ScopeHash(scanned.scope, locale))
    && SortedUnique(r.changedFiles) == SortedUnique(scanned.scope.sourceFiles)
    && CleanIds(CandidateIds(scanned, locale))
    && ExactlyCandidates(r.reviewedIds, candidates)
    && ExactlyCandidates(Ids(r.candidateFindings), candidates)
    && ExactlyCandidates(DisposedIds(r.dispositions), candidates)
    && (forall d | d in r.dispositions :: Disposed(d, candidates))
  }

  /** An accepted review is complete, over the report it names, and bound to the fresh scan. */
  lemma AcceptedIsBound(r: Review, e: Evidence, locale: Locale)
    ensures Validate(r, e, locale) == [] ==>
      (Complete(r) && r.reportDigest == Some(e.persistedText) && BoundToScan(r, Fresh(e), locale))
  {
    hide BasicBlockers, ArtifactBlockers, BoundToScan, Complete;
    ArtifactMeaning(r, e, locale);
    BasicMeaning(r);
    BothEmpty(BasicBlockers(r), ArtifactBlockers(r, e, locale));
    if Validate(r, e, locale) == [] {
      BoundReview(r, e, locale);
    }
  }

  lemma SameAsCandidates(ids: seq<string>, scanned: Report, locale: Locale)
    requires SortedUnique(ids) == CandidateIds(scanned, locale)
    ensures ExactlyCandidates(ids, Candidates(scanned, locale))
  {
    hide SortedUnique, Candidates;
    var cs := Candidates(scanned, locale);
    SortMembers(Ids(cs), StringLe);
    forall x ensures x in Ids(cs) <==> exists c :: c in cs && c.id == x {
      if x in Ids(cs) {
        var i :| 0 <= i < |cs| && Ids(cs)[i] == x;
        assert cs[i] in cs && cs[i].id == x;
      }
      if c :| c in cs && c.id == x {
        IdOfMember(cs, c);
      }
    }
  }

  lemma BoundReview(r: Review, e: Evidence, locale: Locale)
    requires Bound(r, e, locale)
    ensures BoundToScan(r, Fresh(e), locale)
  {
    hide SortedUnique, ScopeHash, Candidates, CandidateIds, Ids, DisposedIds, Trim, Trimmed, DispositionBlockers, Disposed,
         ExactlyCandidates, CleanIds;
    var scanned := Fresh(e);
    CandidateIdsAreClean(r.reviewedIds, scanned, locale);
    SameAsCandidates(r.reviewedIds, scanned, locale);
    SameAsCandidates(Ids(r.candidateFindings), scanned, locale);
    SameAsCandidates(DisposedIds(r.dispositions), scanned, locale);
    forall d | d in r.dispositions ensures Disposed(d, Candidates(scanned, locale)) {
      NoBlockersDisposed(d, Candidates(scanned, locale));
    }
  }

  lemma CandidateIdsAreClean(ids: seq<string>, scanned: Report, locale: Locale)
    requires SortedUnique(ids) == CandidateIds(scanned, locale)
    ensures CleanIds(CandidateIds(scanned, locale))
  {
    hide SortedUnique, CandidateIds;
    SortedUniqueMeaning(ids);
  }

  /** A final disposition of a scanned candidate. */
  predicate Disposed(d: Disposition, scanned: seq<Finding>) {
    var c := FindCandidate(scanned, d.candidateId);
    && c.Some? && d.status in {"resolved", "false_positive"} && d.sourceScope == c.value.sourceScope
    && Trim(d.reason) != [] && GoodEvidence(d.evidence)
    && NormalizeLineRanges(d.ranges) == NormalizeLineRanges(c.value.ranges)
  }

  lemma NoBlockersDisposed(d: Disposition, scanned: seq<Finding>)
    requires DispositionBlockers(d, scanned) == []
    ensures Disposed(d, scanned)
  {
    hide FindCandidate, NormalizeLineRanges, GoodEvidence, Trim;
  }

  lemma IdOfMember(fs: seq<Finding>, c: Finding)
    requires c in fs
    ensures c.id in Ids(fs)
  {
    var i :| 0 <= i < |fs| && fs[i] == c;
    assert Ids(fs)[i] == c.id;
  }

  /** A review whose digest was taken of a scope with other entries than the fresh scan's is rejected. */
  lemma ChangedEntryIsRejected(r: Review, seeded: ChangedScope, e: Evidence, locale: Locale)
    requires TotalPreorder(locale) && DistinctPaths(seeded.entries, locale)
    requires r.scopeDigest == Some(ScopeHash(seeded, locale))
    requires multiset(seeded.entries) != multiset(Fresh(e).scope.entries)
    ensures Validate(r, e, locale) != []
  {
    hide ScopeHash, CheckBlockers, SortedUnique, Candidates;
    DigestMeaning(seeded, Fresh(e).scope, locale);
    if Validate(r, e, locale) == [] {
      AcceptedIsBound(r, e, locale);
    }
  }

  lemma {:induction false} FindUnique(fs: seq<Finding>, c: Finding)
    requires NoRepeats(Ids(fs)) && c in fs
    ensures FindCandidate(fs, c.id) == Some(c)
  {
    var init, last := fs[..|fs| - 1], fs[|fs| - 1];
    assert Ids(fs)[..|fs| - 1] == Ids(init) && Ids(fs)[|fs| - 1] == last.id;
    if last.id == c.id {
      var i :| 0 <= i < |fs| && fs[i] == c;
      assert Ids(fs)[i] == c.id;
    } else {
      assert c in init;
      assert forall i | 0 <= i < |init| :: Ids(init)[i] == Ids(fs)[i];
      FindUnique(init, c);
    }
  }

  lemma DisposedIdsOfCompletion(fs: seq<Finding>, reason: string, evidence: seq<string>)
    ensures DisposedIds(Dispose(fs, reason, evidence)) == Ids(fs)
  {
  }

  lemma CompletedDispositions(fs: seq<Finding>, reason: string, evidence: seq<string>)
    requires Trim(reason) != [] && GoodEvidence(evidence) && NoRepeats(Ids(fs))
    ensures AllDispositionBlockers(Dispose(fs, reason, evidence), fs) == []
  {
    hide NormalizeLineRanges, Trim, FindCandidate;
    var ds := Dispose(fs, reason, evidence);
    forall d | d in ds ensures DispositionBlockers(d, fs) == [] {
      var i :| 0 <= i < |ds| && ds[i] == d;
      FindUnique(fs, fs[i]);
    }
    NoDispositionBlockers(ds, fs);
  }

  lemma CompletedBasics(r: Report, text: string, locale: Locale, reason: string, evidence: seq<string>)
    requires GoodEvidence(evidence)
    ensures BasicBlockers(Completed(Seed(r, text, locale), reason, evidence)) == []
  {
    hide ScopeHash, SortedUnique, Candidates, Trim, GoodEvidence, Ids, Dispose;
    var c := Completed(Seed(r, text, locale), reason, evidence);
    ChecksPassed(reason, evidence);
    forall i | 0 <= i < 4 ensures CheckBlockers(c.checks, CHECK_IDS[i]) == [] { }
  }

  lemma ChecksPassed(reason: string, evidence: seq<string>)
    requires GoodEvidence(evidence)
    ensures var k := Check("passed", reason, evidence);
            var checks := map[CHECK_IDS[0] := k, CHECK_IDS[1] := k, CHECK_IDS[2] := k, CHECK_IDS[3] := k];
            forall i | 0 <= i < 4 :: CheckBlockers(checks, CHECK_IDS[i]) == []
  {
    hide GoodEvidence, Trim;
  }

  /** For any report, a seed completed over an unchanged scope is accepted exactly when the candidate ids are distinct and
      trimmed. */
  lemma AcceptedWhenClean(r: Report, text: string, e: Evidence, locale: Locale, reason: string, evidence: seq<string>)
    requires Trim(reason) != [] && GoodEvidence(evidence)
    requires r.schemaVersion == 1 && text != [] && e.persisted == Some(r) && e.persistedText == text
    requires Trim(e.declaredBase) == [] || Trim(r.scope.base) == [] || Trim(e.declaredBase) == Trim(r.scope.base)
    requires Fresh(e) == r
    ensures Validate(Completed(Seed(r, text, locale), reason, evidence), e, locale) == []
       <==> CleanIds(Ids(Candidates(r, locale)))
  {
    hide BasicBlockers, ArtifactBlockers, Bound, Completed, Seed, CleanIds, Candidates, Ids, Trim, GoodEvidence, Fresh;
    var c := Completed(Seed(r, text, locale), reason, evidence);
    CompletedBasics(r, text, locale, reason, evidence);
    ArtifactMeaning(c, e, locale);
    BothEmpty(BasicBlockers(c), ArtifactBlockers(c, e, locale));
    CompletedBound(r, text, e, locale, reason, evidence);
  }

  lemma CompletedFields(r: Report, text: string, locale: Locale, reason: string, evidence: seq<string>)
    requires text != []
    ensures var c, fs := Completed(Seed(r, text, locale), reason, evidence), Candidates(r, locale);
            && c.reportName == REPORT_NAME && c.reportDigest == Some(text) && c.scopeDigest == Some(ScopeHash(r.scope, locale))
            && c.changedFiles == SortedUnique(r.scope.sourceFiles) && c.candidateFindings == fs
            && c.reviewedIds == Ids(fs) && c.dispositions == Dispose(fs, reason, evidence)
  {
    hide SortedUnique, ScopeHash, Candidates, Ids, Dispose;
  }

  lemma CompletedBound(r: Report, text: string, e: Evidence, locale: Locale, reason: string, evidence: seq<string>)
    requires Trim(reason) != [] && GoodEvidence(evidence)
    requires r.schemaVersion == 1 && text != [] && e.persisted == Some(r) && e.persistedText == text
    requires Trim(e.declaredBase) == [] || Trim(r.scope.base) == [] || Trim(e.declaredBase) == Trim(r.scope.base)
    requires Fresh(e) == r
    ensures Bound(Completed(Seed(r, text, locale), reason, evidence), e, locale) <==> CleanIds(Ids(Candidates(r, locale)))
  {
    hide SortedUnique, ScopeHash, Candidates, Ids, Dispose, DisposedIds, Trim, CleanIds, DispositionBlockers, GoodEvidence,
         AllDispositionBlockers, ScanBase, Completed, Seed, Fresh;
    var fs := Candidates(r, locale);
    var c := Completed(Seed(r, text, locale), reason, evidence);
    CompletedFields(r, text, locale, reason, evidence);
    SortedUniqueIsSort(Ids(fs));
    DisposedIdsOfCompletion(fs, reason, evidence);
    SortedUniqueTwice(r.scope.sourceFiles);
    if CleanIds(Ids(fs)) {
      DistinctOfClean(Ids(fs));
      CompletedDispositions(fs, reason, evidence);
      NoDispositionBlockers(c.dispositions, fs);
    }
  }

  lemma DistinctOfClean(ids: seq<string>)
    requires CleanIds(ids)
    ensures NoRepeats(ids)
  {
  }

  // ---- the ids of a scan are clean ----

  lemma {:induction false} KeptFindings(fs: seq<Finding>)
    ensures forall f | f in KeepCandidates(fs) :: f in fs && IsCandidate(f)
  {
    hide IsCandidate;
    if fs != [] {
      KeptFindings(fs[1..]);
    }
  }

  ghost predicate DistinctIds(fs: seq<Finding>) {
    forall i, j | 0 <= i < j < |fs| && ReviewedTag(fs[i].tag) && ReviewedTag(fs[j].tag) :: fs[i].id != fs[j].id
  }

  lemma {:induction false} KeptIdsDiffer(fs: seq<Finding>)
    requires DistinctIds(fs)
    ensures NoRepeats(Ids(KeepCandidates(fs)))
  {
    hide ReviewedTag;
    if fs != [] {
      var f, rest := fs[0], fs[1..];
      assert forall i | 0 <= i < |rest| :: rest[i] == fs[i + 1];
      KeptIdsDiffer(rest);
      KeptFindings(rest);
      var kept := KeepCandidates(rest);
      if IsCandidate(f) {
        forall k | 0 <= k < |kept| ensures kept[k].id != f.id {
          assert kept[k] in kept;
          var i :| 0 <= i < |rest| && rest[i] == kept[k];
          assert fs[i + 1] == kept[k];
        }
        assert KeepCandidates(fs) == [f] + kept;
        assert Ids([f] + kept) == [f.id] + Ids(kept);
      } else {
        assert KeepCandidates(fs) == kept;
      }
    }
  }

  /** Whether ids repeat does not depend on the order of the findings. */
  lemma IdsIgnoreOrder(a: seq<Finding>, b: seq<Finding>)
    requires NoRepeats(Ids(a)) && multiset(a) == multiset(b)
    ensures NoRepeats(Ids(b))
  {
    forall i, j | 0 <= i < j < |a| ensures a[i] != a[j] {
      assert Ids(a)[i] == a[i].id && Ids(a)[j] == a[j].id;
    }
    NoRepeatsMeaning(a);
    NoRepeatsMeaning(b);
    forall i, j | 0 <= i < j < |b| ensures Ids(b)[i] != Ids(b)[j] {
      assert multiset(a)[b[i]] > 0 && multiset(a)[b[j]] > 0 by { assert b[i] in b && b[j] in b; }
      var k :| 0 <= k < |a| && a[k] == b[i];
      var m :| 0 <= m < |a| && a[m] == b[j];
      assert Ids(a)[k] == b[i].id && Ids(a)[m] == b[j].id && k != m;
    }
  }

  /** The candidate ids of a scan's report are trimmed and distinct. */
  lemma ScanIdsAreClean(hash: string -> string, w: Wording, s: Scan, r: Report, locale: Locale)
    requires Hashes(hash) && WellScanned(s) && r.findings == Findings(hash, w, s)
    ensures CleanIds(Ids(Candidates(r, locale)))
  {
    hide Findings, Hashes, WellScanned, ReviewedTag, NoRepeats, Trimmed;
    var fs, cs := r.findings, Candidates(r, locale);
    ReviewedIdsDiffer(hash, w, s);
    KeptIdsDiffer(fs);
    SortIsPermutation(KeepCandidates(fs), FindingLe(locale));
    IdsIgnoreOrder(KeepCandidates(fs), cs);
    SortMembers(KeepCandidates(fs), FindingLe(locale));
    KeptFindings(fs);
    forall x | x in Ids(cs) ensures x != [] && Trimmed(x) {
      var i :| 0 <= i < |cs| && Ids(cs)[i] == x;
      assert cs[i] in cs && cs[i] in fs;
      FindingIdIsTrimmed(hash, w, s, cs[i]);
    }
  }

  lemma FindingIdIsTrimmed(hash: string -> string, w: Wording, s: Scan, f: Finding)
    requires Hashes(hash) && f in Findings(hash, w, s)
    ensures f.id != [] && Trimmed(f.id)
  {
    hide Hashes, Trimmed, IdOf;
    var ds := Drafts(w, s);
    FinalizeAt(hash, ds);
    var i :| 0 <= i < |ds| && Findings(hash, w, s)[i] == f;
    IdIsTrimmed(hash, ds[i]);
  }

  /** A seed completed over an unchanged scope is accepted. */
  lemma CompletedSeedAccepted(hash: string -> string, w: Wording, s: Scan, r: Report, text: string, e: Evidence,
                              locale: Locale, reason: string, evidence: seq<string>)
    requires Hashes(hash) && WellScanned(s) && r.findings == Findings(hash, w, s)
    requires Trim(reason) != [] && GoodEvidence(evidence)
    requires r.schemaVersion == 1 && text != [] && e.persisted == Some(r) && e.persistedText == text
    requires Trim(e.declaredBase) == [] || Trim(r.scope.base) == [] || Trim(e.declaredBase) == Trim(r.scope.base)
    requires Fresh(e) == r
    ensures Validate(Completed(Seed(r, text, locale), reason, evidence), e, locale) == []
  {
    hide Validate, Findings, Hashes, WellScanned, CleanIds, Completed, Seed, Fresh, GoodEvidence, Trim;
    ScanIdsAreClean(hash, w, s, r, locale);
    AcceptedWhenClean(r, text, e, locale, reason, evidence);
  }

  lemma SortedUniqueTwice(ss: seq<string>)
    ensures SortedUnique(SortedUnique(ss)) == SortedUnique(ss)
  {
    var u := SortedUnique(ss);
    SortedUniqueMeaning(ss);
    SortedUniqueIsSort(u);
    StringLeIsOrder();
    SortIsSorted(Distinct(FilterMap(Trim, NonEmpty, ss)), StringLe);
    SortOfSorted(u, StringLe);
  }
}
