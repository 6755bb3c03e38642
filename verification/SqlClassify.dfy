/** Risk levels of SQL texts, and how they behave when texts are put together. */
module SqlClassify {
  import opened Common
  import opened Text
  import opened SqlScan
  import opened SqlStatements

  // ---- classification ----

  datatype Level = NoStatements | Safe | Write | Destructive

  datatype Kind = NoKind | Read | DestructiveKind | Dml | Ddl | Bulk | UnknownWrite

  /** What the keyword patterns say about one statement. */
  datatype Lexicon = Lexicon(destructive: string -> seq<string>, deletesSome: string -> bool, updatesSome: string -> bool,
                             inserts: string -> bool, changesSchema: string -> bool, bulkCopies: string -> bool,
                             readOnly: string -> bool, unlimitedStar: string -> bool)

  datatype Verdict = Verdict(level: Level, kind: Kind, reasons: seq<string>)

  /** A non-destructive finding: ignored once the level is destructive. */
  function Note(v: Verdict, hit: bool, reason: string, kind: Kind): Verdict {
    if hit && v.level != Destructive then Verdict(Write, kind, v.reasons + [reason]) else v
  }

  function ClassifyOne(lex: Lexicon, v: Verdict, stmt: string): Verdict {
    if StripComments(stmt) == [] then v
    else
      var found := lex.destructive(stmt);
      var v0 := if found == [] then v else Verdict(Destructive, DestructiveKind, v.reasons + found);
      var v1 := Note(v0, lex.deletesSome(stmt), "delete_with_where", Dml);
      var v2 := Note(v1, lex.updatesSome(stmt), "update_with_where", Dml);
      var v3 := Note(v2, lex.inserts(stmt), "insert_or_upsert", Dml);
      var v4 := Note(v3, lex.changesSchema(stmt), "schema_change", Ddl);
      var v5 := Note(v4, lex.bulkCopies(stmt), "bulk_copy_from", Bulk);
      var v6 := if !lex.readOnly(stmt) && v5.level == Safe then
                  Verdict(Write, UnknownWrite, v5.reasons + ["non_readonly_or_unknown_sql"]) else v5;
      if lex.readOnly(stmt) && lex.unlimitedStar(stmt) then
        v6.(reasons := v6.reasons + ["select_star_without_limit"]) else v6
  }

  function ClassifyFrom(lex: Lexicon, v: Verdict, ss: seq<string>): Verdict
    decreases |ss|
  {
    if ss == [] then v else ClassifyFrom(lex, ClassifyOne(lex, v, ss[0]), ss[1..])
  }

  function Classified(lex: Lexicon, sql: string): Verdict {
    var ss := SplitStatements(sql);
    if ss == [] then Verdict(NoStatements, NoKind, [])
    else
      var v := ClassifyFrom(lex, Verdict(Safe, Read, []), ss);
      v.(reasons := Distinct(v.reasons))
  }

  /** The classifier's loop over the statements. */
  method ClassifySql(lex: Lexicon, sql: string) returns (v: Verdict, statements: seq<string>)
    ensures v == Classified(lex, sql) && statements == SplitStatements(sql)
  {
    statements := SplitSqlStatements(sql);
    if |statements| == 0 {
      return Verdict(NoStatements, NoKind, []), [];
    }
    var level, kind, reasons := Safe, Read, [];
    hide SplitStatements, StripComments;
    for i := 0 to |statements|
      invariant ClassifyFrom(lex, Verdict(level, kind, reasons), statements[i..])
                == ClassifyFrom(lex, Verdict(Safe, Read, []), statements)
    {
      var stmt := statements[i];
      assert statements[i..][1..] == statements[i + 1..];
      if StripComments(stmt) != [] {
        var found := lex.destructive(stmt);
        if found != [] {
          reasons, level, kind := reasons + found, Destructive, DestructiveKind;
        }
        if lex.deletesSome(stmt) && level != Destructive {
          reasons, level, kind := reasons + ["delete_with_where"], Write, Dml;
        }
        if lex.updatesSome(stmt) && level != Destructive {
          reasons, level, kind := reasons + ["update_with_where"], Write, Dml;
        }
        if lex.inserts(stmt) && level != Destructive {
          reasons, level, kind := reasons + ["insert_or_upsert"], Write, Dml;
        }
        if lex.changesSchema(stmt) && level != Destructive {
          reasons, level, kind := reasons + ["schema_change"], Write, Ddl;
        }
        if lex.bulkCopies(stmt) && level != Destructive {
          reasons, level, kind := reasons + ["bulk_copy_from"], Write, Bulk;
        }
        if !lex.readOnly(stmt) && level == Safe {
          reasons, level, kind := reasons + ["non_readonly_or_unknown_sql"], Write, UnknownWrite;
        }
        if lex.readOnly(stmt) && lex.unlimitedStar(stmt) {
          reasons := reasons + ["select_star_without_limit"];
        }
      }
    }
    v := Verdict(level, kind, Distinct(reasons));
  }

  // ---- the level is the highest of the statements' own levels ----

  /** What one statement alone deserves. */
  function OwnLevel(lex: Lexicon, stmt: string): Level {
    if lex.destructive(stmt) != [] then Destructive
    else if lex.deletesSome(stmt) || lex.updatesSome(stmt) || lex.inserts(stmt) || lex.changesSchema(stmt)
            || lex.bulkCopies(stmt) || !lex.readOnly(stmt) then Write
    else Safe
  }

  function Rank(l: Level): nat {
    match l
    case NoStatements => 0
    case Safe => 1
    case Write => 2
    case Destructive => 3
  }

  function Higher(a: Level, b: Level): Level { if Rank(a) < Rank(b) then b else a }

  function Highest(lex: Lexicon, ss: seq<string>): Level {
    if ss == [] then NoStatements else Higher(OwnLevel(lex, ss[0]), Highest(lex, ss[1..]))
  }

  lemma OneRaisesLevel(lex: Lexicon, v: Verdict, stmt: string)
    requires v.level != NoStatements && StripComments(stmt) != []
    ensures ClassifyOne(lex, v, stmt).level == Higher(v.level, OwnLevel(lex, stmt))
  {
    hide StripComments;
  }

  lemma {:induction false} FromRaisesLevel(lex: Lexicon, v: Verdict, ss: seq<string>)
    requires v.level != NoStatements && forall t | t in ss :: StripComments(t) != []
    ensures ClassifyFrom(lex, v, ss).level == Higher(v.level, Highest(lex, ss))
    decreases |ss|
  {
    hide StripComments, ClassifyOne, OwnLevel;
    if ss != [] {
      assert ss[0] in ss;
      OneRaisesLevel(lex, v, ss[0]);
      FromRaisesLevel(lex, ClassifyOne(lex, v, ss[0]), ss[1..]);
    }
  }

  lemma LastStatementIsFixed(s: string)
    requires TailCanonical(s)
    ensures Trim(s) != [] <==> !Blank(s)
    ensures StripComments(Trim(s)) == Trim(s)
  {
    hide StripComments, IsSpace, NoBlock, HasPair, SingleSpaced, PairsWithin;
    BlankTrims(s);
    var k := LeadingSpaces(s);
    assert TrimEnd(s) == s && Trim(s) == s[k..|s|];
    CanonicalPart(s, k, |s|);
    TrimIsTrimmed(s);
    CanonicalIsFixed(Trim(s));
  }

  /** Each statement of a split is canonical text of its own: stripping it again changes nothing. */
  lemma {:induction false} StatementsAreFixed(s: string)
    requires TailCanonical(s)
    ensures forall t | t in Statements(s) :: t != [] && StripComments(t) == t
    decreases |s|
  {
    hide StripComments, IsSpace, NoBlock, HasPair, SingleSpaced, FirstEnd, NextEnd;
    match NextEnd(s) {
      case None =>
        LastStatementIsFixed(s);
      case Some(n) =>
        var k := FirstStatement(s, n);
        SemicolonIsVisible();
        hide Statements, Trim, PairsWithin, Blank;
        CanonicalPart(s, k, n);
        CanonicalIsFixed(s[k..n]);
        CanonicalPart(s, n, |s|);
        assert s[n..|s|] == s[n..];
        StatementsAreFixed(s[n..]);
    }
  }

  /** The level of a text is the highest own level among its statements. */
  lemma LevelIsHighest(lex: Lexicon, sql: string)
    ensures Classified(lex, sql).level == Highest(lex, SplitStatements(sql))
  {
    hide StripComments, Statements, NoBlock, HasPair, SingleSpaced, OwnLevel, IsSpace;
    StripIsCanonical(sql);
    StatementsAreFixed(StripComments(sql));
    var ss := SplitStatements(sql);
    if ss != [] {
      FromRaisesLevel(lex, Verdict(Safe, Read, []), ss);
      HighestIsOwn(lex, ss);
    }
  }

  lemma HighestIsOwn(lex: Lexicon, ss: seq<string>)
    requires ss != []
    ensures Rank(Highest(lex, ss)) >= 1
  {
  }

  lemma {:induction false} HighestMeaning(lex: Lexicon, ss: seq<string>)
    ensures forall t | t in ss :: Rank(OwnLevel(lex, t)) <= Rank(Highest(lex, ss))
    ensures ss != [] ==> exists t :: t in ss && OwnLevel(lex, t) == Highest(lex, ss)
  {
    hide OwnLevel;
    if ss != [] {
      HighestMeaning(lex, ss[1..]);
      if Rank(OwnLevel(lex, ss[0])) < Rank(Highest(lex, ss[1..])) {
        var t :| t in ss[1..] && OwnLevel(lex, t) == Highest(lex, ss[1..]);
        assert t in ss;
      } else {
        assert ss[0] in ss;
      }
    }
  }

  /** Two texts with the same statements, in any order and number, have the same level. */
  lemma LevelIgnoresOrder(lex: Lexicon, a: string, b: string)
    requires forall t :: t in SplitStatements(a) <==> t in SplitStatements(b)
    ensures Classified(lex, a).level == Classified(lex, b).level
  {
    hide SplitStatements, OwnLevel, Classified;
    var s, t := SplitStatements(a), SplitStatements(b);
    LevelIsHighest(lex, a);
    LevelIsHighest(lex, b);
    HighestMeaning(lex, s);
    HighestMeaning(lex, t);
    HasMember(s);
    HasMember(t);
    if s != [] {
      var x :| x in s && OwnLevel(lex, x) == Highest(lex, s);
      var y :| y in t && OwnLevel(lex, y) == Highest(lex, t);
      RankIsInjective(Highest(lex, s), Highest(lex, t));
    }
  }

  lemma HasMember(ss: seq<string>)
    ensures ss != [] <==> exists x :: x in ss
  {
    if ss != [] {
      assert ss[0] in ss;
    }
  }

  lemma RankIsInjective(a: Level, b: Level)
    ensures Rank(a) == Rank(b) ==> a == b
  {
  }

  lemma LettersAreFixed()
    ensures StripComments("d") == "d" && StripComments("w") == "w"
  {
    CanonicalIsFixed("d");
    CanonicalIsFixed("w");
  }

  /** The reasons do depend on the order: a finding after a destructive statement is dropped. */
  lemma ReasonsDependOnOrder()
    ensures var lex := Lexicon(s => if s == "d" then ["drop_statement"] else [], s => s == "w", s => false, s => false,
                               s => false, s => false, s => false, s => false);
            var v := Verdict(Safe, Read, []);
            "delete_with_where" in ClassifyFrom(lex, v, ["w", "d"]).reasons
            && "delete_with_where" !in ClassifyFrom(lex, v, ["d", "w"]).reasons
  {
    var lex := Lexicon(s => if s == "d" then ["drop_statement"] else [], s => s == "w", s => false, s => false,
                       s => false, s => false, s => false, s => false);
    var v := Verdict(Safe, Read, []);
    LettersAreFixed();
    hide StripComments;
    var wd := ClassifyOne(lex, ClassifyOne(lex, v, "w"), "d");
    assert ClassifyOne(lex, v, "w").reasons == ["delete_with_where"];
    assert wd.reasons == ["delete_with_where"] + ["drop_statement"];
    assert ["w", "d"][1..] == ["d"] && ["d"][1..] == [];
    assert ClassifyFrom(lex, v, ["w", "d"]) == wd;
    var dw := ClassifyOne(lex, ClassifyOne(lex, v, "d"), "w");
    assert ClassifyOne(lex, v, "d").reasons == ["drop_statement"];
    assert dw.reasons == ["drop_statement"];
    assert ["d", "w"][1..] == ["w"] && ["w"][1..] == [];
    assert ClassifyFrom(lex, v, ["d", "w"]) == dw;
  }
}
