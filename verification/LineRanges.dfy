/** Compressing line numbers into ranges. */
module LineRanges {
  import opened Sorting

  datatype Range = Range(start: int, end: int)

  predicate IntLe(a: int, b: int) { a <= b }

  /** The positive numbers, each once, in order of first occurrence. */
  function DistinctPositive(lines: seq<int>): seq<int> {
    if lines == [] then []
    else
      var init := DistinctPositive(lines[..|lines| - 1]);
      var x := lines[|lines| - 1];
      if x > 0 && x !in init then init + [x] else init
  }

  function SortedLines(lines: seq<int>): seq<int> { SortBy(DistinctPositive(lines), IntLe) }

  /** One more line: it extends the last range or opens a new one. */
  function Extend(ranges: seq<Range>, line: int): seq<Range> {
    if ranges != [] && line == ranges[|ranges| - 1].end + 1
    then ranges[|ranges| - 1 := Range(ranges[|ranges| - 1].start, line)]
    else ranges + [Range(line, line)]
  }

  function Compress(sorted: seq<int>): seq<Range> {
    if sorted == [] then [] else Extend(Compress(sorted[..|sorted| - 1]), sorted[|sorted| - 1])
  }

  function RangesOf(lines: seq<int>): seq<Range> { Compress(SortedLines(lines)) }

  /** The loop that extends the last range in place. */
  method ContiguousLineRanges(lines: seq<int>) returns (ranges: seq<Range>)
    ensures ranges == RangesOf(lines)
  {
    var sorted := SortedLines(lines);
    ranges := [];
    for i := 0 to |sorted|
      invariant ranges == Compress(sorted[..i])
    {
      var line := sorted[i];
      assert sorted[..i + 1][..i] == sorted[..i];
      if |ranges| > 0 && line == ranges[|ranges| - 1].end + 1 {
        ranges := ranges[|ranges| - 1 := Range(ranges[|ranges| - 1].start, line)];
      } else {
        ranges := ranges + [Range(line, line)];
      }
    }
    assert sorted[..|sorted|] == sorted;
  }

  predicate Covers(ranges: seq<Range>, x: int) {
    exists i :: 0 <= i < |ranges| && ranges[i].start <= x <= ranges[i].end
  }

  /** Positive, in order, and with a gap between neighbours. */
  predicate Canonical(ranges: seq<Range>) {
    && (forall i | 0 <= i < |ranges| :: 1 <= ranges[i].start <= ranges[i].end)
    && forall i, j | 0 <= i < j < |ranges| :: ranges[i].end + 1 < ranges[j].start
  }

  predicate StrictlyIncreasing(s: seq<int>) { forall i, j | 0 <= i < j < |s| :: s[i] < s[j] }

  lemma {:induction false} DistinctPositiveMembers(lines: seq<int>)
    ensures NoRepeats(DistinctPositive(lines))
    ensures forall x :: x in DistinctPositive(lines) <==> x in lines && x > 0
  {
    if lines != [] {
      var rest, x := lines[..|lines| - 1], lines[|lines| - 1];
      DistinctPositiveMembers(rest);
      assert lines == rest + [x];
      var init := DistinctPositive(rest);
      var d := DistinctPositive(lines);
      assert forall y :: y in lines <==> y in rest || y == x;
      if x > 0 && x !in init {
        assert d == init + [x];
        forall i, j | 0 <= i < j < |d| ensures d[i] != d[j] {
          assert d[i] == init[i] && d[i] in init;
        }
      } else {
        assert d == init;
      }
    }
  }

  lemma {:induction false} InsertStrict(x: int, s: seq<int>)
    requires StrictlyIncreasing(s) && x !in s
    ensures StrictlyIncreasing(Insert(x, s, IntLe))
  {
    if s != [] && !IntLe(x, s[0]) {
      InsertStrict(x, s[1..]);
      InsertMembers(x, s[1..], IntLe);
      var t := Insert(x, s[1..], IntLe);
      forall j | 0 <= j < |t| ensures s[0] < t[j] { assert t[j] in t; }
    } else if s != [] {
      assert x != s[0];
    }
  }

  lemma {:induction false} SortStrict(s: seq<int>)
    requires NoRepeats(s)
    ensures StrictlyIncreasing(SortBy(s, IntLe))
  {
    if s != [] {
      var rest := s[1..];
      forall j | 0 <= j < |rest| ensures rest[j] != s[0] { assert rest[j] == s[j + 1]; }
      assert forall i, j | 0 <= i < j < |rest| :: rest[i] == s[i + 1] && rest[j] == s[j + 1];
      SortStrict(rest);
      SortMembers(rest, IntLe);
      assert s[0] !in rest && s[0] !in SortBy(rest, IntLe);
      InsertStrict(s[0], SortBy(rest, IntLe));
    }
  }

  lemma SortedLinesMeaning(lines: seq<int>)
    ensures StrictlyIncreasing(SortedLines(lines))
    ensures forall x :: x in SortedLines(lines) <==> x in lines && x > 0
  {
    DistinctPositiveMembers(lines);
    SortStrict(DistinctPositive(lines));
    SortMembers(DistinctPositive(lines), IntLe);
  }

  /** The last line covered so far. */
  predicate EndsAt(ranges: seq<Range>, sorted: seq<int>) {
    if sorted == [] then ranges == [] else ranges != [] && ranges[|ranges| - 1].end == sorted[|sorted| - 1]
  }

  lemma {:induction false} CompressMeaning(sorted: seq<int>)
    requires StrictlyIncreasing(sorted) && forall x | x in sorted :: x > 0
    ensures Canonical(Compress(sorted)) && EndsAt(Compress(sorted), sorted)
    ensures forall x :: Covers(Compress(sorted), x) <==> x in sorted
  {
    hide Covers, Canonical, Extend, Compress, StrictlyIncreasing;
    if sorted == [] {
      NothingCovered();
    } else {
      var init, line := sorted[..|sorted| - 1], sorted[|sorted| - 1];
      LastLine(sorted);
      assert line in sorted && line > 0;
      CompressMeaning(init);
      ExtendMeaning(Compress(init), line);
    }
  }

  /** A strictly increasing sequence without its last member. */
  lemma LastLine(sorted: seq<int>)
    requires sorted != [] && StrictlyIncreasing(sorted)
    ensures var init, line := sorted[..|sorted| - 1], sorted[|sorted| - 1];
            && Compress(sorted) == Extend(Compress(init), line)
            && StrictlyIncreasing(init) && (init != [] ==> init[|init| - 1] < line)
            && forall x :: x in sorted <==> x in init || x == line
  {
    var init, line := sorted[..|sorted| - 1], sorted[|sorted| - 1];
    assert sorted == init + [line];
  }

  lemma NothingCovered()
    ensures Compress([]) == [] && Canonical([]) && forall x :: !Covers([], x)
  {
  }

  lemma ExtendMeaning(ranges: seq<Range>, line: int)
    requires Canonical(ranges) && line > 0 && (ranges != [] ==> ranges[|ranges| - 1].end < line)
    ensures var r := Extend(ranges, line);
            && Canonical(r) && r != [] && r[|r| - 1].end == line
            && forall x :: Covers(r, x) <==> Covers(ranges, x) || x == line
  {
    ExtendCovers(ranges, line);
  }

  lemma ExtendCovers(ranges: seq<Range>, line: int)
    requires Canonical(ranges) && line > 0 && (ranges != [] ==> ranges[|ranges| - 1].end < line)
    ensures forall x :: Covers(Extend(ranges, line), x) <==> Covers(ranges, x) || x == line
  {
    var r := Extend(ranges, line);
    assert forall i | 0 <= i < |ranges| - 1 :: r[i] == ranges[i];
    forall x ensures Covers(r, x) <==> Covers(ranges, x) || x == line {
      if Covers(ranges, x) {
        var i :| 0 <= i < |ranges| && ranges[i].start <= x <= ranges[i].end;
        assert r[i].start <= x <= r[i].end;
      }
      if x == line {
        assert r[|r| - 1].start <= x <= r[|r| - 1].end;
      }
      if Covers(r, x) && x != line {
        var i :| 0 <= i < |r| && r[i].start <= x <= r[i].end;
        assert i < |ranges| && ranges[i].start <= x <= ranges[i].end;
      }
    }
  }

  /** The ranges are canonical and cover exactly the positive lines. */
  lemma RangesMeaning(lines: seq<int>)
    ensures Canonical(RangesOf(lines))
    ensures forall x :: Covers(RangesOf(lines), x) <==> x in lines && x > 0
  {
    SortedLinesMeaning(lines);
    CompressMeaning(SortedLines(lines));
  }

  lemma FirstRangeIsDetermined(a: seq<Range>, b: seq<Range>)
    requires Canonical(a) && Canonical(b) && a != [] && b != []
    requires forall x :: Covers(a, x) <==> Covers(b, x)
    ensures a[0] == b[0]
  {
    StartIsLeast(a);
    StartIsLeast(b);
    assert Covers(a, a[0].start) && Covers(b, b[0].start);
    assert a[0].start == b[0].start;
    FirstGap(a);
    FirstGap(b);
    assert Covers(a, b[0].end + 1) <==> Covers(b, b[0].end + 1);
    assert Covers(a, a[0].end + 1) <==> Covers(b, a[0].end + 1);
    WithinFirst(a, b[0].end + 1);
    WithinFirst(b, a[0].end + 1);
  }

  lemma WithinFirst(a: seq<Range>, x: int)
    requires a != []
    ensures a[0].start <= x <= a[0].end ==> Covers(a, x)
  {
  }

  lemma StartIsLeast(a: seq<Range>)
    requires Canonical(a) && a != []
    ensures Covers(a, a[0].start) && forall x | Covers(a, x) :: a[0].start <= x
  {
    assert a[0].start <= a[0].start <= a[0].end;
  }

  lemma FirstGap(a: seq<Range>)
    requires Canonical(a) && a != []
    ensures !Covers(a, a[0].end + 1)
  {
  }

  lemma TailCoverage(a: seq<Range>, x: int)
    requires Canonical(a) && a != []
    ensures Covers(a[1..], x) <==> Covers(a, x) && x > a[0].end
  {
    if Covers(a[1..], x) {
      var i :| 0 <= i < |a[1..]| && a[1..][i].start <= x <= a[1..][i].end;
      assert a[i + 1].start <= x <= a[i + 1].end && a[0].end + 1 < a[i + 1].start;
    }
    if Covers(a, x) && x > a[0].end {
      var i :| 0 <= i < |a| && a[i].start <= x <= a[i].end;
      assert i > 0 && a[1..][i - 1] == a[i];
    }
  }

  /** A set of lines has one canonical form. */
  lemma {:induction false} CanonicalIsUnique(a: seq<Range>, b: seq<Range>)
    requires Canonical(a) && Canonical(b) && forall x :: Covers(a, x) <==> Covers(b, x)
    ensures a == b
  {
    if a == [] || b == [] {
      if a != [] { StartIsLeast(a); assert false; }
      if b != [] { StartIsLeast(b); assert false; }
    } else {
      FirstRangeIsDetermined(a, b);
      forall x ensures Covers(a[1..], x) <==> Covers(b[1..], x) {
        TailCoverage(a, x);
        TailCoverage(b, x);
      }
      CanonicalIsUnique(a[1..], b[1..]);
      assert a == [a[0]] + a[1..] && b == [b[0]] + b[1..];
    }
  }

  /** Equal sets of positive lines give equal ranges, and nothing else does. */
  lemma RangesDependOnSet(a: seq<int>, b: seq<int>)
    ensures RangesOf(a) == RangesOf(b) <==> forall x | x > 0 :: x in a <==> x in b
  {
    RangesMeaning(a);
    RangesMeaning(b);
    if forall x | x > 0 :: x in a <==> x in b {
      CanonicalIsUnique(RangesOf(a), RangesOf(b));
    }
    if RangesOf(a) == RangesOf(b) {
      forall x | x > 0 ensures x in a <==> x in b {
        assert Covers(RangesOf(a), x) <==> Covers(RangesOf(b), x);
      }
    }
  }

  // ---- minimality ----

  /** The non-empty ranges that end before a line. */
  function Before(b: seq<Range>, line: int): seq<Range> {
    if b == [] then []
    else (if b[0].start <= b[0].end < line then [b[0]] else []) + Before(b[1..], line)
  }

  lemma {:induction false} BeforeMeaning(b: seq<Range>, line: int)
    ensures |Before(b, line)| <= |b|
    ensures (exists i :: 0 <= i < |b| && b[i].start <= line <= b[i].end) ==> |Before(b, line)| < |b|
    ensures forall r :: r in Before(b, line) <==> r in b && r.start <= r.end < line
  {
    if b != [] {
      BeforeMeaning(b[1..], line);
      if i :| 0 <= i < |b| && b[i].start <= line <= b[i].end {
        if i > 0 {
          assert b[1..][i - 1] == b[i];
        }
      }
    }
  }

  lemma CoversByMember(b: seq<Range>, x: int)
    ensures Covers(b, x) <==> exists r :: r in b && r.start <= x <= r.end
  {
    if Covers(b, x) {
      var i :| 0 <= i < |b| && b[i].start <= x <= b[i].end;
      assert b[i] in b;
    }
  }

  /** No list of ranges, sorted or not, covers the same lines with fewer ranges. */
  lemma {:induction false} CanonicalIsMinimal(a: seq<Range>, b: seq<Range>)
    requires Canonical(a) && forall x :: Covers(a, x) <==> Covers(b, x)
    ensures |a| <= |b|
  {
    if a != [] {
      var init, last := a[..|a| - 1], a[|a| - 1];
      var rest := Before(b, last.start);
      assert Covers(a, last.start);
      BeforeMeaning(b, last.start);
      forall x ensures Covers(init, x) <==> Covers(rest, x) {
        InitCoverage(a, x);
        CoversByMember(b, x);
        CoversByMember(rest, x);
        RestCoverage(a, b, x);
      }
      CanonicalIsMinimal(init, rest);
    }
  }

  lemma InitCoverage(a: seq<Range>, x: int)
    requires Canonical(a) && a != []
    ensures Covers(a[..|a| - 1], x) <==> Covers(a, x) && x < a[|a| - 1].start
  {
    var init := a[..|a| - 1];
    if Covers(init, x) {
      var i :| 0 <= i < |init| && init[i].start <= x <= init[i].end;
      assert a[i].start <= x <= a[i].end;
    }
    if Covers(a, x) && x < a[|a| - 1].start {
      var i :| 0 <= i < |a| && a[i].start <= x <= a[i].end;
      assert i < |a| - 1 && init[i] == a[i];
    }
  }

  lemma RestCoverage(a: seq<Range>, b: seq<Range>, x: int)
    requires Canonical(a) && a != [] && forall y :: Covers(a, y) <==> Covers(b, y)
    ensures Covers(Before(b, a[|a| - 1].start), x) <==> Covers(a, x) && x < a[|a| - 1].start
  {
    var line := a[|a| - 1].start;
    BeforeMeaning(b, line);
    CoversByMember(b, x);
    CoversByMember(Before(b, line), x);
    GapBeforeLast(a);
    if Covers(b, x) && x < line {
      var r :| r in b && r.start <= x <= r.end;
      CoversByMember(b, line - 1);
      assert !(r.start <= line - 1 <= r.end);
    }
  }

  lemma GapBeforeLast(a: seq<Range>)
    requires Canonical(a) && a != []
    ensures !Covers(a, a[|a| - 1].start - 1)
  {
  }

  // ---- the reviewer's normal form ----

  predicate RangeLe(a: Range, b: Range) { a.start < b.start || (a.start == b.start && a.end <= b.end) }

  predicate ValidRange(r: Range) { 0 < r.start <= r.end }

  function SameRange(r: Range): Range { r }

  /** Valid ranges only, by start and then end. */
  function NormalizeLineRanges(ranges: seq<Range>): seq<Range> { Arranged(SameRange, ValidRange, RangeLe, ranges) }

  lemma {:induction false} KeepAll(ranges: seq<Range>)
    requires forall i | 0 <= i < |ranges| :: ValidRange(ranges[i])
    ensures FilterMap(SameRange, ValidRange, ranges) == ranges
  {
    if ranges != [] {
      KeepAll(ranges[1..]);
    }
  }

  /** Canonical ranges are left as they are. */
  lemma NormalizeKeepsCanonical(ranges: seq<Range>)
    requires Canonical(ranges)
    ensures NormalizeLineRanges(ranges) == ranges
  {
    KeepAll(ranges);
    forall i, j | 0 <= i < j < |ranges| ensures RangeLe(ranges[i], ranges[j]) {
      assert ranges[i].end + 1 < ranges[j].start;
    }
    SortOfSorted(ranges, RangeLe);
  }

  /** In particular those computed from lines. */
  lemma NormalizeKeepsRanges(lines: seq<int>)
    ensures NormalizeLineRanges(RangesOf(lines)) == RangesOf(lines)
  {
    RangesMeaning(lines);
    NormalizeKeepsCanonical(RangesOf(lines));
  }

  lemma RangeLeIsOrder()
    ensures TotalPreorder(RangeLe)
  {
  }

  /** Normalizing does not depend on the order supplied. */
  lemma NormalizeIgnoresOrder(a: seq<Range>, b: seq<Range>)
    requires multiset(a) == multiset(b)
    ensures NormalizeLineRanges(a) == NormalizeLineRanges(b)
  {
    RangeLeIsOrder();
    ArrangedIgnoresOrder(SameRange, ValidRange, RangeLe, a, b);
  }
}
