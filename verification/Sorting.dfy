/** Stable sorting by a comparator, as `Array.prototype.sort` does it: the result depends
    on the comparator and, among ties, on the original order. */
module Sorting {

  ghost predicate TotalPreorder<T(!new)>(le: (T, T) -> bool) {
    && (forall x, y :: le(x, y) || le(y, x))
    && (forall x, y, z :: le(x, y) && le(y, z) ==> le(x, z))
  }

  ghost predicate Sorted<T>(s: seq<T>, le: (T, T) -> bool) {
    forall i, j | 0 <= i < j < |s| :: le(s[i], s[j])
  }

  function Insert<T>(x: T, s: seq<T>, le: (T, T) -> bool): seq<T> {
    if s == [] then [x]
    else if le(x, s[0]) then [x] + s
    else [s[0]] + Insert(x, s[1..], le)
  }

  function SortBy<T>(s: seq<T>, le: (T, T) -> bool): seq<T> {
    if s == [] then [] else Insert(s[0], SortBy(s[1..], le), le)
  }

  lemma {:induction false} InsertMembers<T>(x: T, s: seq<T>, le: (T, T) -> bool)
    ensures |Insert(x, s, le)| == |s| + 1
    ensures forall y :: y in Insert(x, s, le) <==> y == x || y in s
  {
    if s != [] && !le(x, s[0]) {
      InsertMembers(x, s[1..], le);
    }
  }

  lemma {:induction false} InsertKeepsSorted<T(!new)>(x: T, s: seq<T>, le: (T, T) -> bool)
    requires TotalPreorder(le) && Sorted(s, le)
    ensures Sorted(Insert(x, s, le), le)
  {
    if s != [] && !le(x, s[0]) {
      InsertKeepsSorted(x, s[1..], le);
      InsertMembers(x, s[1..], le);
      var rest := Insert(x, s[1..], le);
      forall j | 0 <= j < |rest| ensures le(s[0], rest[j]) {
        assert rest[j] in rest;
      }
    }
  }

  /** Sorting keeps the members and their number. */
  lemma {:induction false} SortMembers<T>(s: seq<T>, le: (T, T) -> bool)
    ensures |SortBy(s, le)| == |s|
    ensures forall y :: y in SortBy(s, le) <==> y in s
  {
    if s != [] {
      SortMembers(s[1..], le);
      InsertMembers(s[0], SortBy(s[1..], le), le);
    }
  }

  lemma {:induction false} InsertIsPermutation<T>(x: T, s: seq<T>, le: (T, T) -> bool)
    ensures multiset(Insert(x, s, le)) == multiset([x]) + multiset(s)
  {
    if s != [] && !le(x, s[0]) {
      InsertIsPermutation(x, s[1..], le);
      assert s == [s[0]] + s[1..];
    }
  }

  /** Sorting only reorders. */
  lemma {:induction false} SortIsPermutation<T>(s: seq<T>, le: (T, T) -> bool)
    ensures multiset(SortBy(s, le)) == multiset(s)
  {
    if s != [] {
      SortIsPermutation(s[1..], le);
      InsertIsPermutation(s[0], SortBy(s[1..], le), le);
      assert s == [s[0]] + s[1..];
    }
  }

  predicate NoRepeats<T(==)>(s: seq<T>) { forall i, j | 0 <= i < j < |s| :: s[i] != s[j] }

  lemma {:induction false} NoRepeatsMeaning<T>(s: seq<T>)
    ensures NoRepeats(s) <==> forall x :: multiset(s)[x] <= 1
  {
    if s != [] {
      NoRepeatsMeaning(s[1..]);
      assert s == [s[0]] + s[1..];
      assert multiset(s) == multiset{s[0]} + multiset(s[1..]);
      assert s[0] in s[1..] <==> multiset(s[1..])[s[0]] >= 1;
      if NoRepeats(s) {
        assert forall i, j | 0 <= i < j < |s[1..]| :: s[1..][i] == s[i + 1] && s[1..][j] == s[j + 1];
        assert s[0] !in s[1..];
      }
      if forall x :: multiset(s)[x] <= 1 {
        forall x ensures multiset(s[1..])[x] <= 1 { assert multiset(s)[x] <= 1; }
        assert multiset(s)[s[0]] <= 1;
        forall i, j | 0 <= i < j < |s| ensures s[i] != s[j] {
          if i == 0 { assert s[j] in s[1..]; } else { assert s[i] == s[1..][i - 1] && s[j] == s[1..][j - 1]; }
        }
      }
    }
  }

  /** Sorting neither makes nor hides repetitions. */
  lemma SortKeepsRepeats<T>(s: seq<T>, le: (T, T) -> bool)
    ensures NoRepeats(SortBy(s, le)) <==> NoRepeats(s)
  {
    SortIsPermutation(s, le);
    NoRepeatsMeaning(s);
    NoRepeatsMeaning(SortBy(s, le));
  }

  lemma {:induction false} SortIsSorted<T(!new)>(s: seq<T>, le: (T, T) -> bool)
    requires TotalPreorder(le)
    ensures Sorted(SortBy(s, le), le)
  {
    if s != [] {
      SortIsSorted(s[1..], le);
      InsertKeepsSorted(s[0], SortBy(s[1..], le), le);
    }
  }

  /** A sorted sequence is already its own sort. */
  lemma {:induction false} SortOfSorted<T>(s: seq<T>, le: (T, T) -> bool)
    requires Sorted(s, le)
    ensures SortBy(s, le) == s
  {
    if s != [] {
      SortOfSorted(s[1..], le);
    }
  }

  lemma {:induction false} InsertCommutes<T(!new)>(x: T, y: T, s: seq<T>, le: (T, T) -> bool)
    requires TotalPreorder(le) && (le(x, y) && le(y, x) ==> x == y)
    ensures Insert(x, Insert(y, s, le), le) == Insert(y, Insert(x, s, le), le)
  {
    if s != [] && !le(x, s[0]) && !le(y, s[0]) {
      InsertCommutes(x, y, s[1..], le);
    }
  }

  function Without<T>(s: seq<T>, k: nat): seq<T>
    requires k < |s|
  {
    s[..k] + s[k + 1..]
  }

  lemma MultisetWithout<T>(a: seq<T>, b: seq<T>, k: nat)
    requires a != [] && k < |b| && b[k] == a[0] && multiset(a) == multiset(b)
    ensures multiset(a[1..]) == multiset(Without(b, k))
  {
    HeadOff(a);
    PartOff(b, k);
    CancelOne(a[0], multiset(a[1..]), multiset(Without(b, k)));
  }

  lemma HeadOff<T>(a: seq<T>)
    requires a != []
    ensures multiset(a) == multiset{a[0]} + multiset(a[1..])
  {
    assert a == [a[0]] + a[1..];
    assert multiset([a[0]] + a[1..]) == multiset([a[0]]) + multiset(a[1..]);
  }

  lemma PartOff<T>(b: seq<T>, k: nat)
    requires k < |b|
    ensures multiset(b) == multiset{b[k]} + multiset(Without(b, k))
  {
    var left, right := b[..k], b[k + 1..];
    assert b == left + ([b[k]] + right);
    assert multiset(left + ([b[k]] + right)) == multiset(left) + multiset([b[k]] + right);
    assert multiset([b[k]] + right) == multiset([b[k]]) + multiset(right);
    assert multiset(left + right) == multiset(left) + multiset(right);
  }

  lemma CancelOne<T>(x: T, u: multiset<T>, v: multiset<T>)
    requires multiset{x} + u == multiset{x} + v
    ensures u == v
  {
    assert (multiset{x} + u) - multiset{x} == u && (multiset{x} + v) - multiset{x} == v;
  }

  /** `s.map(f).filter(p)`. */
  function FilterMap<T, U>(f: T -> U, p: U -> bool, s: seq<T>): seq<U> {
    if s == [] then [] else (if p(f(s[0])) then [f(s[0])] else []) + FilterMap(f, p, s[1..])
  }

  lemma {:induction false} FilterMapOrigin<T, U>(f: T -> U, p: U -> bool, s: seq<T>, y: U)
    requires y in FilterMap(f, p, s)
    ensures p(y) && exists x :: x in s && f(x) == y
  {
    if p(f(s[0])) && y == f(s[0]) {
      assert s[0] in s;
    } else {
      FilterMapOrigin(f, p, s[1..], y);
      var x :| x in s[1..] && f(x) == y;
      assert x in s;
    }
  }

  /** Map, filter, then sort. */
  function Arranged<T, U>(f: T -> U, p: U -> bool, le: (U, U) -> bool, s: seq<T>): seq<U> {
    SortBy(FilterMap(f, p, s), le)
  }

  function InsertIf<U>(p: U -> bool, x: U, s: seq<U>, le: (U, U) -> bool): seq<U> {
    if p(x) then Insert(x, s, le) else s
  }

  lemma ArrangedStep<T, U>(f: T -> U, p: U -> bool, le: (U, U) -> bool, s: seq<T>)
    requires s != []
    ensures Arranged(f, p, le, s) == InsertIf(p, f(s[0]), Arranged(f, p, le, s[1..]), le)
  {
    var rest := FilterMap(f, p, s[1..]);
    if p(f(s[0])) {
      assert FilterMap(f, p, s) == [f(s[0])] + rest && ([f(s[0])] + rest)[1..] == rest;
    } else {
      assert FilterMap(f, p, s) == rest;
    }
  }

  /** Any member may be inserted last instead of in its turn. */
  lemma {:induction false} ArrangedWithout<T, U(!new)>(f: T -> U, p: U -> bool, le: (U, U) -> bool, s: seq<T>, k: nat)
    requires TotalPreorder(le) && k < |s|
    requires forall x, y | x in s && y in s && le(f(x), f(y)) && le(f(y), f(x)) :: f(x) == f(y)
    ensures Arranged(f, p, le, s) == InsertIf(p, f(s[k]), Arranged(f, p, le, Without(s, k)), le)
  {
    ArrangedStep(f, p, le, s);
    if k == 0 {
      assert Without(s, 0) == s[1..];
    } else {
      ArrangedWithout(f, p, le, s[1..], k - 1);
      assert Without(s, k)[0] == s[0] && Without(s, k)[1..] == Without(s[1..], k - 1);
      ArrangedStep(f, p, le, Without(s, k));
      InsertCommutes(f(s[0]), f(s[k]), Arranged(f, p, le, Without(s[1..], k - 1)), le);
    }
  }

  /** When no two different results tie, the arranged results do not depend on the order supplied. */
  lemma {:induction false} ArrangedIgnoresOrder<T, U(!new)>(f: T -> U, p: U -> bool, le: (U, U) -> bool, a: seq<T>, b: seq<T>)
    requires TotalPreorder(le) && multiset(a) == multiset(b)
    requires forall x, y | x in a && y in a && le(f(x), f(y)) && le(f(y), f(x)) :: f(x) == f(y)
    ensures Arranged(f, p, le, a) == Arranged(f, p, le, b)
    decreases |a|
  {
    if a == [] {
      assert |multiset(b)| == 0;
    } else {
      hide Arranged;
      assert forall x :: x in b ==> x in multiset(a);
      assert a[0] in multiset(b);
      var k :| 0 <= k < |b| && b[k] == a[0];
      MultisetWithout(a, b, k);
      ArrangedIgnoresOrder(f, p, le, a[1..], Without(b, k));
      ArrangedWithout(f, p, le, b, k);
      ArrangedStep(f, p, le, a);
    }
  }

  function Same<T>(x: T): T { x }

  predicate Any<T>(x: T) { true }

  lemma {:induction false} FilterMapAll<T>(s: seq<T>)
    ensures FilterMap(Same, Any, s) == s
  {
    if s != [] {
      FilterMapAll(s[1..]);
    }
  }

  /** Where no two different members tie, every order of the same members sorts to the same sequence. */
  lemma SortIgnoresOrder<T(!new)>(a: seq<T>, b: seq<T>, le: (T, T) -> bool)
    requires TotalPreorder(le) && multiset(a) == multiset(b)
    requires forall x, y | x in a && y in a && le(x, y) && le(y, x) :: x == y
    ensures SortBy(a, le) == SortBy(b, le)
  {
    FilterMapAll(a);
    FilterMapAll(b);
    ArrangedIgnoresOrder(Same, Any, le, a, b);
  }

  /** Dictionary order of strings, given the rank of each character. */
  predicate LexLe(a: string, b: string, rank: char -> int) {
    a == [] || (b != [] && (rank(a[0]) < rank(b[0]) || (rank(a[0]) == rank(b[0]) && LexLe(a[1..], b[1..], rank))))
  }

  lemma {:induction false} LexTotal(a: string, b: string, rank: char -> int)
    ensures LexLe(a, b, rank) || LexLe(b, a, rank)
  {
    if a != [] && b != [] {
      LexTotal(a[1..], b[1..], rank);
    }
  }

  lemma {:induction false} LexTransitive(a: string, b: string, c: string, rank: char -> int)
    requires LexLe(a, b, rank) && LexLe(b, c, rank)
    ensures LexLe(a, c, rank)
  {
    if a != [] && rank(a[0]) == rank(b[0]) == rank(c[0]) {
      LexTransitive(a[1..], b[1..], c[1..], rank);
    }
  }

  lemma {:induction false} LexAntisymmetric(a: string, b: string, rank: char -> int)
    requires LexLe(a, b, rank) && LexLe(b, a, rank)
    requires forall x, y :: rank(x) == rank(y) ==> x == y
    ensures a == b
  {
    if a != [] {
      LexAntisymmetric(a[1..], b[1..], rank);
      assert a == [a[0]] + a[1..] && b == [b[0]] + b[1..];
    }
  }

  /** Code-unit order: what `sort()` without a comparator uses on strings. */
  function CodeUnit(c: char): int { c as int }

  predicate StringLe(a: string, b: string) { LexLe(a, b, CodeUnit) }

  lemma StringLeIsOrder()
    ensures TotalPreorder(StringLe)
    ensures forall a, b :: StringLe(a, b) && StringLe(b, a) ==> a == b
  {
    forall a, b ensures StringLe(a, b) || StringLe(b, a) { LexTotal(a, b, CodeUnit); }
    forall a, b, c | StringLe(a, b) && StringLe(b, c) ensures StringLe(a, c) { LexTransitive(a, b, c, CodeUnit); }
    forall a, b | StringLe(a, b) && StringLe(b, a) ensures a == b { LexAntisymmetric(a, b, CodeUnit); }
  }
}
