/** What passing the gates on a manual migration guarantees (src/core/db-review.ts 467-483): a statement about each
    statement of the two SQL texts, whatever their order. */
module ManualGates {
  import opened Common
  import opened Text
  import opened SqlScan
  import opened SqlStatements
  import opened SqlClassify
  import opened SqlConcat
  import opened ManualMigration
  import opened ManualInactive

  // ---- destructive reasons ----

  /** The reasons that the classifier adds by itself, besides a statement's destructive findings. */
  const NOTES: set<string> :=
    {"delete_with_where", "update_with_where", "insert_or_upsert", "schema_change", "bulk_copy_from",
     "non_readonly_or_unknown_sql", "select_star_without_limit"}

  lemma OneKeepsFindings(lex: Lexicon, v: Verdict, stmt: string, r: string)
    requires r !in NOTES && StripComments(stmt) != []
    ensures r in ClassifyOne(lex, v, stmt).reasons <==> r in v.reasons || r in lex.destructive(stmt)
  {
    hide StripComments;
  }

  lemma {:induction false} FromKeepsFindings(lex: Lexicon, v: Verdict, ss: seq<string>, r: string)
    requires r !in NOTES && forall t | t in ss :: StripComments(t) != []
    ensures r in ClassifyFrom(lex, v, ss).reasons <==> r in v.reasons || exists t :: t in ss && r in lex.destructive(t)
    decreases |ss|
  {
    hide StripComments, ClassifyOne;
    if ss != [] {
      OneKeepsFindings(lex, v, ss[0], r);
      FromKeepsFindings(lex, ClassifyOne(lex, v, ss[0]), ss[1..], r);
      assert forall t :: t in ss <==> t == ss[0] || t in ss[1..];
    }
  }

  /** Some statement of the text has the destructive finding. */
  ghost predicate Finds(lex: Lexicon, sql: string, r: string) {
    exists t :: t in SplitStatements(sql) && r in lex.destructive(t)
  }

  /** A destructive reason is reported exactly when some statement has it: no other statement, earlier or later, can
      suppress it. */
  lemma DestructiveReasonMeaning(lex: Lexicon, sql: string, r: string)
    requires r !in NOTES
    ensures r in Classified(lex, sql).reasons <==> Finds(lex, sql, r)
  {
    hide StripComments, Statements, TailCanonical, NOTES;
    var ss := SplitStatements(sql);
    SplitIsFixed(sql);
    if ss != [] {
      FromKeepsFindings(lex, Verdict(Safe, Read, []), ss, r);
      DistinctIsSet(ClassifyFrom(lex, Verdict(Safe, Read, []), ss).reasons);
    }
  }

  lemma SplitIsFixed(sql: string)
    ensures forall t | t in SplitStatements(sql) :: StripComments(t) != []
  {
    hide StripComments, Statements, NoBlock, HasPair, SingleSpaced, IsSpace;
    StripIsCanonical(sql);
    StatementsAreFixed(StripComments(sql));
  }

  // ---- the gates ----

  function Flag(reason: string, forward: bool): Blocker {
    if forward then ForwardCatastrophic(reason) else RollbackCatastrophic(reason)
  }

  lemma {:induction false} CatastrophesMeaning(named: seq<string>, found: seq<string>, forward: bool, b: Blocker)
    ensures b in Catastrophes(named, found, forward) <==> exists r :: r in named && r in found && b == Flag(r, forward)
  {
    if named != [] {
      CatastrophesMeaning(named[1..], found, forward, b);
      assert forall r :: r in named <==> r == named[0] || r in named[1..];
    }
  }

  /** Some statement of the text writes or destroys. */
  ghost predicate Writes(lex: Lexicon, sql: string) {
    exists t :: t in SplitStatements(sql) && (OwnLevel(lex, t) == Write || OwnLevel(lex, t) == Destructive)
  }

  function VerdictOf(lex: Lexicon, sql: string): Verdict {
    if sql == [] then Verdict(NoStatements, NoKind, []) else Classified(lex, sql)
  }

  lemma NothingToClassify()
    ensures SplitStatements([]) == []
  {
    assert StripComments([]) == [];
  }

  lemma MigrationMeaning(lex: Lexicon, sql: string)
    ensures IsMigration(VerdictOf(lex, sql)) <==> Writes(lex, sql)
  {
    hide SplitStatements, Classified, OwnLevel;
    NothingToClassify();
    LevelIsHighest(lex, sql);
    HighestMeaning(lex, SplitStatements(sql));
    assert SplitStatements(sql) == [] ==> Highest(lex, SplitStatements(sql)) == NoStatements;
  }

  lemma FindingMeaning(lex: Lexicon, sql: string, r: string)
    requires r !in NOTES
    ensures r in VerdictOf(lex, sql).reasons <==> Finds(lex, sql, r)
  {
    hide SplitStatements, Classified, NOTES;
    NothingToClassify();
    DestructiveReasonMeaning(lex, sql, r);
  }

  lemma CatastrophesAreFindings()
    ensures forall r | r in FORWARD_CATASTROPHES :: r !in NOTES
    ensures forall r | r in ROLLBACK_CATASTROPHES :: r !in NOTES
    ensures "drop_table" !in NOTES
  {
  }

  /** What the gates demand, statement by statement. */
  ghost predicate GatesPass(p: Patterns, forward: string, rollback: string) {
    && !p.forbidden(forward + "\n" + rollback)
    && Writes(p.lex, forward) && Writes(p.lex, rollback)
    && (forall r | r in FORWARD_CATASTROPHES :: !Finds(p.lex, forward, r))
    && (forall r | r in ROLLBACK_CATASTROPHES :: !Finds(p.lex, rollback, r))
    && (Finds(p.lex, rollback, "drop_table") ==> DropsOnlyCreated(p, forward, rollback))
  }

  /** The gate blockers as a list in order. */
  lemma GateList(p: Patterns, forward: string, rollback: string)
    ensures var f, r := VerdictOf(p.lex, forward), VerdictOf(p.lex, rollback);
            GateBlockers(p, forward, rollback) ==
              When(p.forbidden(forward + "\n" + rollback), ForbiddenContent)
              + (When(!IsMigration(f), ForwardNotMigration) + (When(!IsMigration(r), RollbackNotMigration)
              + (Catastrophes(FORWARD_CATASTROPHES, f.reasons, true) + (Catastrophes(ROLLBACK_CATASTROPHES, r.reasons, false)
              + When("drop_table" in r.reasons && !DropsOnlyCreated(p, forward, rollback), RollbackDropsForeignTable)))))
  {
    hide Classified, DropsOnlyCreated, IsMigration, Catastrophes, FORWARD_CATASTROPHES, ROLLBACK_CATASTROPHES, When, Push;
    var f, r := VerdictOf(p.lex, forward), VerdictOf(p.lex, rollback);
    var c1 := When(p.forbidden(forward + "\n" + rollback), ForbiddenContent);
    var c2 := PushIsWhen(c1, !IsMigration(f), ForwardNotMigration);
    var c3 := PushIsWhen(c1 + c2, !IsMigration(r), RollbackNotMigration);
    var c4 := Catastrophes(FORWARD_CATASTROPHES, f.reasons, true);
    var c5 := Catastrophes(ROLLBACK_CATASTROPHES, r.reasons, false);
    var c6 := PushIsWhen(c1 + c2 + c3 + c4 + c5, "drop_table" in r.reasons && !DropsOnlyCreated(p, forward, rollback),
                         RollbackDropsForeignTable);
    GroupList(c1, c2, c3, c4, c5, c6);
  }

  lemma PushIsWhen(xs: seq<Blocker>, hit: bool, x: Blocker) returns (c: seq<Blocker>)
    ensures c == When(hit, x) && Push(xs, hit, x) == xs + c
  {
    c := When(hit, x);
    assert xs + [] == xs;
  }

  lemma GroupList(c1: seq<Blocker>, c2: seq<Blocker>, c3: seq<Blocker>, c4: seq<Blocker>, c5: seq<Blocker>, c6: seq<Blocker>)
    ensures c1 + c2 + c3 + c4 + c5 + c6 == c1 + (c2 + (c3 + (c4 + (c5 + c6))))
  {
  }

  lemma InList(b: Blocker, c1: seq<Blocker>, c2: seq<Blocker>, c3: seq<Blocker>, c4: seq<Blocker>, c5: seq<Blocker>, c6: seq<Blocker>)
    ensures b in c1 + (c2 + (c3 + (c4 + (c5 + c6)))) <==> b in c1 || b in c2 || b in c3 || b in c4 || b in c5 || b in c6
  {
  }

  /** Which blockers the gates raise: exactly those whose reason holds of the texts. */
  lemma GateMeaning(p: Patterns, forward: string, rollback: string, b: Blocker)
    ensures b in GateBlockers(p, forward, rollback) <==>
      match b
      case ForbiddenContent => p.forbidden(forward + "\n" + rollback)
      case ForwardNotMigration => !Writes(p.lex, forward)
      case RollbackNotMigration => !Writes(p.lex, rollback)
      case ForwardCatastrophic(r) => r in FORWARD_CATASTROPHES && Finds(p.lex, forward, r)
      case RollbackCatastrophic(r) => r in ROLLBACK_CATASTROPHES && Finds(p.lex, rollback, r)
      case RollbackDropsForeignTable => Finds(p.lex, rollback, "drop_table") && !DropsOnlyCreated(p, forward, rollback)
      case _ => false
  {
    hide VerdictOf, DropsOnlyCreated, IsMigration, Catastrophes, FORWARD_CATASTROPHES, ROLLBACK_CATASTROPHES, NOTES, Finds, Writes, GateBlockers;
    var f, r := VerdictOf(p.lex, forward), VerdictOf(p.lex, rollback);
    GateList(p, forward, rollback);
    InList(b, When(p.forbidden(forward + "\n" + rollback), ForbiddenContent), When(!IsMigration(f), ForwardNotMigration),
           When(!IsMigration(r), RollbackNotMigration), Catastrophes(FORWARD_CATASTROPHES, f.reasons, true),
           Catastrophes(ROLLBACK_CATASTROPHES, r.reasons, false),
           When("drop_table" in r.reasons && !DropsOnlyCreated(p, forward, rollback), RollbackDropsForeignTable));
    CatastrophesMeaning(FORWARD_CATASTROPHES, f.reasons, true, b);
    CatastrophesMeaning(ROLLBACK_CATASTROPHES, r.reasons, false, b);
    MigrationMeaning(p.lex, forward);
    MigrationMeaning(p.lex, rollback);
    CatastrophesAreFindings();
    forall x | x !in NOTES ensures x in f.reasons <==> Finds(p.lex, forward, x) { FindingMeaning(p.lex, forward, x); }
    forall x | x !in NOTES ensures x in r.reasons <==> Finds(p.lex, rollback, x) { FindingMeaning(p.lex, rollback, x); }
  }

  /** The gates pass exactly when both texts write, neither has a statement that must not be there, and tables are
      dropped only if the forward text creates them. */
  lemma GatesPassExactly(p: Patterns, forward: string, rollback: string)
    ensures GateBlockers(p, forward, rollback) == [] <==> GatesPass(p, forward, rollback)
  {
    hide DropsOnlyCreated, GateBlockers, Finds, Writes, FORWARD_CATASTROPHES, ROLLBACK_CATASTROPHES;
    var bs := GateBlockers(p, forward, rollback);
    forall b ensures b in bs <==>
      match b
      case ForbiddenContent => p.forbidden(forward + "\n" + rollback)
      case ForwardNotMigration => !Writes(p.lex, forward)
      case RollbackNotMigration => !Writes(p.lex, rollback)
      case ForwardCatastrophic(r) => r in FORWARD_CATASTROPHES && Finds(p.lex, forward, r)
      case RollbackCatastrophic(r) => r in ROLLBACK_CATASTROPHES && Finds(p.lex, rollback, r)
      case RollbackDropsForeignTable => Finds(p.lex, rollback, "drop_table") && !DropsOnlyCreated(p, forward, rollback)
      case _ => false
    {
      GateMeaning(p, forward, rollback, b);
    }
    if bs == [] {
      assert ForbiddenContent !in bs && ForwardNotMigration !in bs && RollbackNotMigration !in bs;
      forall r | r in FORWARD_CATASTROPHES ensures !Finds(p.lex, forward, r) { assert ForwardCatastrophic(r) !in bs; }
      forall r | r in ROLLBACK_CATASTROPHES ensures !Finds(p.lex, rollback, r) { assert RollbackCatastrophic(r) !in bs; }
      assert RollbackDropsForeignTable !in bs;
    } else {
      assert bs[0] in bs;
    }
  }

  // ---- accepted files ----

  /** The parser accepts a file exactly when it starts with the header line, has both markers in order, both texts end
      in a semicolon, the rollback inside one comment, and the gates pass. */
  lemma AcceptedExactly(p: Patterns, content: string)
    ensures Parsed(p, content).blockers == [] <==>
      (IndexOf(content, HEADER) == Some(0) && HasParts(content) &&
       var parts := PartsOf(content);
       var forward := Trim(parts.forward);
       CommentBody(parts.rollback).Some? &&
       var rollback := Trim(CommentBody(parts.rollback).value);
       EndsWithSemicolon(forward) && EndsWithSemicolon(rollback) && GatesPass(p, forward, rollback))
  {
    hide IndexOf, Trim, CommentBody, GateBlockers, GatesPass, Slice;
    NoMarkerBlockersExactly(content);
    if MarkerBlockers(content) == [] {
      var parts := PartsOf(content);
      var forward := Trim(parts.forward);
      var rollback := if CommentBody(parts.rollback).Some? then Trim(CommentBody(parts.rollback).value) else [];
      GatesPassExactly(p, forward, rollback);
      NothingIn(When(!EndsWithSemicolon(forward), ForwardSql), When(!EndsWithSemicolon(rollback), RollbackSqlInactiveBlock),
                GateBlockers(p, forward, rollback));
    }
  }

  lemma NoMarkerBlockersExactly(content: string)
    ensures MarkerBlockers(content) == [] <==> IndexOf(content, HEADER) == Some(0) && HasParts(content)
  {
    hide IndexOf;
    var m := MarkerBlockers(content);
    assert |m| == 0 <==> m == [];
  }

  lemma NothingIn(a: seq<Blocker>, b: seq<Blocker>, c: seq<Blocker>)
    ensures a + b + c == [] <==> a == [] && b == [] && c == []
  {
    assert |a + b + c| == |a| + |b| + |c|;
  }
}
