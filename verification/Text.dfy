/** Decimal text and the order of strings. */
module Text {

  predicate IsDigit(c: char) {
    '0' <= c <= '9'
  }

  predicate AllDigits(s: string) {
    forall i | 0 <= i < |s| :: IsDigit(s[i])
  }

  function DigitOf(d: nat): (c: char)
    requires d < 10
    ensures IsDigit(c) && ValueOf(c) == d
  {
    (d + '0' as int) as char
  }

  function ValueOf(c: char): (d: nat)
    requires IsDigit(c)
    ensures d < 10
  {
    c as int - '0' as int
  }

  /** The decimal digits of a natural number, without leading zeros. */
  function NatText(n: nat): (s: string)
    ensures s != [] && AllDigits(s)
  {
    if n < 10 then [DigitOf(n)] else NatText(n / 10) + [DigitOf(n % 10)]
  }

  function ReadNat(s: string): nat
    requires AllDigits(s)
  {
    if s == [] then 0 else 10 * ReadNat(s[..|s| - 1]) + ValueOf(s[|s| - 1])
  }

  lemma {:induction false} ReadNatText(n: nat)
    ensures ReadNat(NatText(n)) == n
  {
    if n >= 10 {
      ReadNatText(n / 10);
      assert NatText(n)[..|NatText(n)| - 1] == NatText(n / 10);
    }
  }

  lemma NatTextInjective(m: nat, n: nat)
    requires NatText(m) == NatText(n)
    ensures m == n
  {
    ReadNatText(m);
    ReadNatText(n);
  }

  function IntText(i: int): (s: string)
    ensures s != []
    ensures forall k | 0 <= k < |s| :: IsDigit(s[k]) || s[k] == '-'
  {
    if i < 0 then "-" + NatText(-i) else NatText(i)
  }

  /** The integer a decimal text stands for; anything that is not one reads as zero. */
  function ReadInt(s: string): int {
    if s != [] && s[0] == '-' then
      if AllDigits(s[1..]) then -(ReadNat(s[1..]) as int) else 0
    else if AllDigits(s) then ReadNat(s)
    else 0
  }

  lemma ReadIntText(i: int)
    ensures ReadInt(IntText(i)) == i
  {
    if i < 0 {
      ReadNatText(-i);
      assert IntText(i)[1..] == NatText(-i);
    } else {
      ReadNatText(i);
      assert IsDigit(NatText(i)[0]);
    }
  }

  /** Strings compare by code point, a proper prefix first. */
  predicate Less(a: string, b: string) {
    if a == [] then b != []
    else b != [] && (a[0] < b[0] || (a[0] == b[0] && Less(a[1..], b[1..])))
  }

  lemma {:induction false} LessIsStrict(a: string)
    ensures !Less(a, a)
  {
    if a != [] {
      LessIsStrict(a[1..]);
    }
  }

  lemma {:induction false} LessTransitive(a: string, b: string, c: string)
    requires Less(a, b) && Less(b, c)
    ensures Less(a, c)
  {
    if a != [] && a[0] == b[0] && b[0] == c[0] {
      LessTransitive(a[1..], b[1..], c[1..]);
    }
  }

  lemma {:induction false} LessTotal(a: string, b: string)
    ensures a == b || Less(a, b) || Less(b, a)
  {
    if a != [] && b != [] && a[0] == b[0] {
      LessTotal(a[1..], b[1..]);
      assert a == [a[0]] + a[1..] && b == [b[0]] + b[1..];
    }
  }

  /* ----- taking joined text apart ----- */

  lemma SplitByLength(a: string, b: string, c: string, d: string)
    requires a + b == c + d && |a| == |c|
    ensures a == c && b == d
  {
    assert (a + b)[..|a|] == a && (a + b)[|a|..] == b;
    assert (c + d)[..|c|] == c && (c + d)[|c|..] == d;
  }

  /** Text joined by a separator its first parts do not hold splits one way only. */
  lemma SplitAt(sep: char, a: string, b: string, c: string, d: string)
    requires a + ([sep] + b) == c + ([sep] + d)
    requires sep !in a && sep !in c
    ensures a == c && b == d
  {
    var whole, other := a + ([sep] + b), c + ([sep] + d);
    assert whole[|a|] == sep && other[|c|] == sep;
    assert forall k | 0 <= k < |a| :: whole[k] == a[k] != sep;
    assert forall k | 0 <= k < |c| :: other[k] == c[k] != sep;
    SplitByLength(a, [sep] + b, c, [sep] + d);
    SplitByLength([sep], b, [sep], d);
  }

  /** And one whose last parts do not hold it splits one way only from the other end. */
  lemma SplitAtLast(sep: char, a: string, b: string, c: string, d: string)
    requires a + ([sep] + b) == c + ([sep] + d)
    requires sep !in b && sep !in d
    ensures a == c && b == d
  {
    var whole, other := a + ([sep] + b), c + ([sep] + d);
    assert whole[|a|] == sep && other[|c|] == sep;
    assert forall k | |a| < k < |whole| :: whole[k] == b[k - |a| - 1] != sep;
    assert forall k | |c| < k < |other| :: other[k] == d[k - |c| - 1] != sep;
    SplitByLength(a, [sep] + b, c, [sep] + d);
    SplitByLength([sep], b, [sep], d);
  }
}
