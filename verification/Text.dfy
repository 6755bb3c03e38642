/** The JavaScript string operations the repository relies on. */
module Text {

  /** Characters matched by `\s` and removed by `trim()`. */
  predicate IsSpace(c: char) {
    || c == ' ' || '\U{0009}' <= c <= '\U{000D}' || c == '\U{00A0}' || c == '\U{1680}'
    || '\U{2000}' <= c <= '\U{200A}' || c == '\U{2028}' || c == '\U{2029}' || c == '\U{202F}'
    || c == '\U{205F}' || c == '\U{3000}' || c == '\U{FEFF}'
  }

  predicate Blank(s: string) { forall i | 0 <= i < |s| :: IsSpace(s[i]) }

  function LeadingSpaces(s: string): (k: nat)
    ensures k <= |s| && Blank(s[..k]) && (k < |s| ==> !IsSpace(s[k]))
  {
    if s == [] || !IsSpace(s[0]) then 0
    else
      var k := LeadingSpaces(s[1..]);
      assert forall i | 1 <= i < k + 1 :: s[i] == s[1..][i - 1];
      k + 1
  }

  function TrimStart(s: string): (r: string)
    ensures r == [] || !IsSpace(r[0])
  {
    s[LeadingSpaces(s)..]
  }

  function TrimEnd(s: string): (r: string)
    ensures r == [] || !IsSpace(r[|r| - 1])
    ensures r <= s && Blank(s[|r|..])
  {
    if s == [] then []
    else if IsSpace(s[|s| - 1]) then
      var r := TrimEnd(s[..|s| - 1]);
      assert s[|r|..] == s[..|s| - 1][|r|..] + [s[|s| - 1]];
      r
    else s
  }

  function Trim(s: string): string { TrimStart(TrimEnd(s)) }

  predicate Trimmed(s: string) { s == [] || (!IsSpace(s[0]) && !IsSpace(s[|s| - 1])) }

  lemma TrimOfTrimmed(s: string)
    requires Trimmed(s)
    ensures Trim(s) == s
  {
  }

  lemma TrimIsTrimmed(s: string)
    ensures Trimmed(Trim(s))
  {
  }

  /** Surrounding white space is what trimming removes. */
  lemma TrimInside(pre: string, s: string, post: string)
    requires Trimmed(s) && s != [] && Blank(pre) && Blank(post)
    ensures Trim(pre + s + post) == s
  {
    TrimEndInside(pre + s, post);
    TrimStartInside(pre, s);
  }

  lemma {:induction false} TrimEndInside(s: string, post: string)
    requires s != [] && !IsSpace(s[|s| - 1]) && Blank(post)
    ensures TrimEnd(s + post) == s
  {
    if post == [] {
      assert s + post == s;
    } else {
      assert (s + post)[..|s + post| - 1] == s + post[..|post| - 1];
      TrimEndInside(s, post[..|post| - 1]);
    }
  }

  lemma {:induction false} TrimStartInside(pre: string, s: string)
    requires s != [] && !IsSpace(s[0]) && Blank(pre)
    ensures TrimStart(pre + s) == s
  {
    var k := LeadingSpaces(pre + s);
    assert forall i | 0 <= i < |pre| :: IsSpace((pre + s)[i]);
    assert !IsSpace((pre + s)[|pre|]);
    assert k == |pre|;
    assert (pre + s)[|pre|..] == s;
  }

  lemma BlankTrims(s: string)
    ensures Trim(s) == [] <==> Blank(s)
  {
    var e := TrimEnd(s);
    assert s == e + s[|e|..] && e == e[..LeadingSpaces(e)] + Trim(s);
    assert Blank(s) ==> Blank(e);
  }

  predicate StartsWith(s: string, prefix: string) { prefix <= s }

  predicate EndsWith(s: string, suffix: string) {
    |suffix| <= |s| && s[|s| - |suffix|..] == suffix
  }

  // ---- decimal numerals ----

  predicate IsDigit(c: char) { '0' <= c <= '9' }

  function Digit(d: nat): (c: char)
    requires d < 10
    ensures IsDigit(c) && c as int == '0' as int + d
  {
    ('0' as int + d) as char
  }

  function Decimal(n: nat): (s: string)
    ensures s != [] && forall c | c in s :: IsDigit(c)
  {
    if n < 10 then [Digit(n)] else Decimal(n / 10) + [Digit(n % 10)]
  }

  /** `Number(digits)`. */
  function Numeral(s: string): nat
    requires forall c | c in s :: IsDigit(c)
  {
    if s == [] then 0 else
      assert IsDigit(s[|s| - 1]);
      10 * Numeral(s[..|s| - 1]) + (s[|s| - 1] as int - '0' as int)
  }

  lemma {:induction false} NumeralOfDecimal(n: nat)
    ensures Numeral(Decimal(n)) == n
  {
    var s := Decimal(n);
    if n < 10 {
      assert s[..|s| - 1] == [];
    } else {
      NumeralOfDecimal(n / 10);
      assert s[..|s| - 1] == Decimal(n / 10);
    }
  }
}
