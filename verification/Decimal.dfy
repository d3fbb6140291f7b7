/** Decimal notation: printing, reading, and keys put together from numbers and separators. */
module Decimal {
  import opened Wrappers

  predicate IsDigit(c: char) { '0' <= c <= '9' }

  function DigitOf(d: nat): (c: char)
    requires d < 10
    ensures IsDigit(c)
  {
    ('0' as int + d) as char
  }

  function ValueOf(c: char): (d: nat)
    requires IsDigit(c)
    ensures d < 10
  {
    c as int - '0' as int
  }

  /** The decimal notation of a number, without leading zeros. */
  function Show(n: nat): (s: string)
    ensures s != "" && forall i :: 0 <= i < |s| ==> IsDigit(s[i])
  {
    if n < 10 then [DigitOf(n)] else Show(n / 10) + [DigitOf(n % 10)]
  }

  predicate AllDigits(s: string) { forall i :: 0 <= i < |s| ==> IsDigit(s[i]) }

  function Read(s: string): nat
    requires AllDigits(s)
  {
    if s == "" then 0 else 10 * Read(s[..|s| - 1]) + ValueOf(s[|s| - 1])
  }

  lemma {:induction false} ReadShow(n: nat)
    ensures Read(Show(n)) == n
  {
    if n < 10 {
      assert Show(n)[..0] == "";
    } else {
      ReadShow(n / 10);
      var s := Show(n);
      assert s[..|s| - 1] == Show(n / 10);
    }
  }

  lemma ShowInjective(a: nat, b: nat)
    requires Show(a) == Show(b)
    ensures a == b
  {
    ReadShow(a);
    ReadShow(b);
  }

  function FirstOf(s: string, sep: char): nat {
    if s == "" || s[0] == sep then 0 else 1 + FirstOf(s[1..], sep)
  }

  /** How many characters follow the last separator. */
  function AfterLast(s: string, sep: char): nat {
    if s == "" || s[|s| - 1] == sep then 0 else 1 + AfterLast(s[..|s| - 1], sep)
  }

  lemma {:induction false} FirstOfCut(a: string, x: string, sep: char)
    requires sep !in a
    ensures FirstOf(a + [sep] + x, sep) == |a|
  {
    if a != "" {
      assert (a + [sep] + x)[1..] == a[1..] + [sep] + x;
      FirstOfCut(a[1..], x, sep);
    }
  }

  lemma {:induction false} AfterLastCut(a: string, x: string, sep: char)
    requires sep !in x
    ensures AfterLast(a + [sep] + x, sep) == |x|
  {
    var s := a + [sep] + x;
    if x != "" {
      assert s[..|s| - 1] == a + [sep] + x[..|x| - 1];
      AfterLastCut(a, x[..|x| - 1], sep);
    }
  }

  /** A text cut at the first separator is determined by the whole. */
  lemma CutAtSeparator(a: string, b: string, x: string, y: string, sep: char)
    requires sep !in a && sep !in b
    requires a + [sep] + x == b + [sep] + y
    ensures a == b && x == y
  {
    FirstOfCut(a, x, sep);
    FirstOfCut(b, y, sep);
    var s, t := a + [sep] + x, b + [sep] + y;
    assert a == s[..|a|] == t[..|b|] == b;
    assert x == s[|a| + 1..] == t[|b| + 1..] == y;
  }

  /** A text cut at the last separator is determined by the whole. */
  lemma CutAtLastSeparator(a: string, b: string, x: string, y: string, sep: char)
    requires sep !in x && sep !in y
    requires a + [sep] + x == b + [sep] + y
    ensures a == b && x == y
  {
    AfterLastCut(a, x, sep);
    AfterLastCut(b, y, sep);
    var s, t := a + [sep] + x, b + [sep] + y;
    assert |a| == |b|;
    assert a == s[..|a|] == t[..|b|] == b;
    assert x == s[|a| + 1..] == t[|b| + 1..] == y;
  }

  lemma ShowPlain(n: nat, sep: char)
    requires !IsDigit(sep)
    ensures sep !in Show(n)
  {
  }
}
