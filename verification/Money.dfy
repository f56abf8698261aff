/** Paise, rupees and the Indian way of writing them. Decimal arithmetic is exact. */
module Money {
  import opened Domain
  import opened Text

  /* ----- conversion ----- */

  /** Nearest integer, a half going away from zero. */
  function HalfUp(x: real): int {
    if x >= 0.0 then (x + 0.5).Floor else -((-x + 0.5).Floor)
  }

  function RupeesToPaise(rupees: real): Paise {
    HalfUp(rupees * 100.0)
  }

  function PaiseToRupees(paise: Paise): real {
    paise as real / 100.0
  }

  /** Rounding moves a value by at most half a paisa, and a tie outwards. */
  lemma HalfUpIsNearest(x: real)
    ensures -0.5 <= HalfUp(x) as real - x <= 0.5
    ensures HalfUp(x) as real - x == 0.5 ==> x >= 0.0
    ensures HalfUp(x) as real - x == -0.5 ==> x < 0.0
    ensures HalfUp(-x) == -HalfUp(x)
  {
    if x == 0.0 {
      assert HalfUp(0.0) == 0;
    }
  }

  lemma HalfUpOfWhole(n: int)
    ensures HalfUp(n as real) == n
  {
    HalfUpIsNearest(n as real);
  }

  /** Converting to rupees and back is the identity. */
  lemma ConversionRoundTrip(paise: Paise)
    ensures RupeesToPaise(PaiseToRupees(paise)) == paise
  {
    assert PaiseToRupees(paise) * 100.0 == paise as real;
    HalfUpOfWhole(paise);
  }

  /* ----- writing ----- */

  const RUPEE: char := '\U{20B9}'

  function Magnitude(paise: Paise): nat {
    if paise < 0 then -paise else paise
  }

  function TwoDigits(n: nat): (s: string)
    requires n < 100
    ensures |s| == 2 && AllDigits(s)
  {
    [DigitOf(n / 10), DigitOf(n % 10)]
  }

  /** Pairs of digits from the right, joined by commas. */
  function Pairs(head: string): string {
    if |head| <= 2 then head
    else Pairs(head[..|head| - 2]) + ([','] + head[|head| - 2..])
  }

  /** The last three digits, and pairs before them. */
  function Grouped(whole: string): string {
    if |whole| <= 3 then whole
    else Pairs(whole[..|whole| - 3]) + ([','] + whole[|whole| - 3..])
  }

  function FormattedInr(paise: Paise): string {
    var n := Magnitude(paise);
    (if paise < 0 then "-" else "") + ([RUPEE] + (Grouped(NatText(n / 100)) + (['.'] + TwoDigits(n % 100))))
  }

  function JoinCommas(groups: seq<string>): string {
    if groups == [] then []
    else if |groups| == 1 then groups[0]
    else groups[0] + ([','] + JoinCommas(groups[1..]))
  }

  /** Splits pairs off the end, collecting groups in front, and joins them. */
  method FormatInr(paise: Paise) returns (s: string)
    ensures s == FormattedInr(paise)
  {
    var n := Magnitude(paise);
    var whole, frac := NatText(n / 100), TwoDigits(n % 100);
    if |whole| > 3 {
      var head, tail := whole[..|whole| - 3], whole[|whole| - 3..];
      var groups: seq<string> := [];
      ghost var all := Pairs(head);
      while |head| > 2
        invariant head != []
        invariant Pairs(head) + AfterGroups(groups, tail) == all + AfterGroups([], tail)
      {
        ghost var was := head;
        JoinOneMore(head[|head| - 2..], groups, tail);
        assert Pairs(was) + AfterGroups(groups, tail) ==
               Pairs(was[..|was| - 2]) + (([','] + was[|was| - 2..]) + AfterGroups(groups, tail));
        groups := [head[|head| - 2..]] + groups;
        head := head[..|head| - 2];
      }
      groups := [head] + groups;
      whole := JoinCommas(groups + [tail]);
      JoinFront(head, groups[1..], tail);
    }
    s := [RUPEE] + (whole + (['.'] + frac));
    if paise < 0 {
      s := "-" + s;
    }
  }

  /** What follows the head: a comma before every group, the tail last. */
  function AfterGroups(groups: seq<string>, tail: string): string {
    if groups == [] then [','] + tail else ([','] + groups[0]) + AfterGroups(groups[1..], tail)
  }

  lemma JoinOneMore(group: string, groups: seq<string>, tail: string)
    ensures AfterGroups([group] + groups, tail) == ([','] + group) + AfterGroups(groups, tail)
  {
    assert ([group] + groups)[1..] == groups;
  }

  lemma {:induction false} JoinFront(head: string, groups: seq<string>, tail: string)
    ensures JoinCommas([head] + groups + [tail]) == head + AfterGroups(groups, tail)
    decreases |groups|
  {
    assert ([head] + groups + [tail])[1..] == groups + [tail];
    if groups == [] {
      assert groups + [tail] == [tail];
    } else {
      JoinFront(groups[0], groups[1..], tail);
      assert groups + [tail] == [groups[0]] + groups[1..] + [tail];
    }
  }

  /* ----- reading back ----- */

  /** Everything but the symbol, the commas and the point. */
  function Digits(s: string): string {
    if s == [] then []
    else (if s[0] == RUPEE || s[0] == ',' || s[0] == '.' then [] else [s[0]]) + Digits(s[1..])
  }

  /** Drop the sign, the symbol and the punctuation and read what is left. */
  function ReadInr(s: string): int {
    var negative := s != [] && s[0] == '-';
    var digits := Digits(if negative then s[1..] else s);
    if AllDigits(digits) then (if negative then -(ReadNat(digits) as int) else ReadNat(digits)) else 0
  }

  lemma {:induction false} DigitsSplit(a: string, b: string)
    ensures Digits(a + b) == Digits(a) + Digits(b)
  {
    if a == [] {
      assert a + b == b;
    } else {
      assert (a + b)[1..] == a[1..] + b;
      DigitsSplit(a[1..], b);
    }
  }

  lemma {:induction false} DigitsOfDigits(s: string)
    requires AllDigits(s)
    ensures Digits(s) == s
  {
    if s != [] {
      assert IsDigit(s[0]);
      DigitsOfDigits(s[1..]);
      assert s == [s[0]] + s[1..];
    }
  }

  lemma DropsMark(c: char, s: string)
    requires c == RUPEE || c == ',' || c == '.'
    ensures Digits([c] + s) == Digits(s)
  {
    assert ([c] + s)[1..] == s;
  }

  /** A comma before digits is all that is dropped. */
  lemma DigitsOfJoined(front: string, back: string)
    requires AllDigits(back)
    ensures Digits(front + ([','] + back)) == Digits(front) + back
  {
    DigitsSplit(front, [','] + back);
    DropsMark(',', back);
    DigitsOfDigits(back);
  }

  lemma {:induction false} DigitsOfPairs(head: string)
    requires AllDigits(head)
    ensures Digits(Pairs(head)) == head
  {
    if |head| <= 2 {
      DigitsOfDigits(head);
    } else {
      var front, back := head[..|head| - 2], head[|head| - 2..];
      assert AllDigits(front) && AllDigits(back) && head == front + back;
      DigitsOfPairs(front);
      DigitsOfJoined(Pairs(front), back);
    }
  }

  lemma DigitsOfGrouped(whole: string)
    requires AllDigits(whole)
    ensures Digits(Grouped(whole)) == whole
  {
    if |whole| <= 3 {
      DigitsOfDigits(whole);
    } else {
      var front, back := whole[..|whole| - 3], whole[|whole| - 3..];
      assert AllDigits(front) && AllDigits(back) && whole == front + back;
      DigitsOfPairs(front);
      DigitsOfJoined(Pairs(front), back);
    }
  }

  lemma ReadTwoMore(whole: string, n: nat)
    requires AllDigits(whole) && n < 100
    ensures AllDigits(whole + TwoDigits(n)) && ReadNat(whole + TwoDigits(n)) == 100 * ReadNat(whole) + n
  {
    var s := whole + TwoDigits(n);
    assert s[..|s| - 1] == whole + [DigitOf(n / 10)];
    assert (whole + [DigitOf(n / 10)])[..|whole|] == whole;
  }

  /** Printing can be undone: every integer of paise, negative ones too, is read back. */
  lemma FormatRoundTrip(paise: Paise)
    ensures ReadInr(FormattedInr(paise)) == paise
  {
    var n := Magnitude(paise);
    var whole, frac := NatText(n / 100), TwoDigits(n % 100);
    var body := [RUPEE] + (Grouped(whole) + (['.'] + frac));
    assert Digits(body) == whole + frac by {
      DropsMark(RUPEE, Grouped(whole) + (['.'] + frac));
      DigitsSplit(Grouped(whole), ['.'] + frac);
      DropsMark('.', frac);
      DigitsOfGrouped(whole);
      DigitsOfDigits(frac);
    }
    ReadTwoMore(whole, n % 100);
    ReadNatText(n / 100);
    if paise < 0 {
      assert FormattedInr(paise)[1..] == body;
    } else {
      assert FormattedInr(paise) == body;
    }
  }

  /* ----- where the commas go ----- */

  /** The character `d` places from the right. */
  function FromRight(s: string, d: nat): char
    requires d < |s|
  {
    s[|s| - 1 - d]
  }

  lemma FromRightOfJoined(front: string, back: string, d: nat)
    requires d < |front + ([','] + back)|
    ensures d < |back| ==> FromRight(front + ([','] + back), d) == FromRight(back, d)
    ensures d == |back| ==> FromRight(front + ([','] + back), d) == ','
    ensures d > |back| ==> FromRight(front + ([','] + back), d) == FromRight(front, d - |back| - 1)
  {
  }

  /** Counted from the right, the commas of pairs stand at every third place from the third. */
  lemma {:induction false} PairCommas(head: string, d: nat)
    requires AllDigits(head) && d < |Pairs(head)|
    ensures FromRight(Pairs(head), d) == ',' <==> d % 3 == 2
  {
    if |head| <= 2 {
      assert IsDigit(FromRight(head, d));
    } else {
      var front, back := head[..|head| - 2], head[|head| - 2..];
      assert AllDigits(front) && AllDigits(back);
      FromRightOfJoined(Pairs(front), back, d);
      if d < 2 {
        assert IsDigit(FromRight(back, d));
      } else if d > 2 {
        PairCommas(front, d - 3);
      }
    }
  }

  lemma {:induction false} PairsStartWithDigit(head: string)
    requires AllDigits(head) && head != []
    ensures Pairs(head) != [] && IsDigit(Pairs(head)[0])
  {
    if |head| > 2 {
      PairsStartWithDigit(head[..|head| - 2]);
    }
  }

  lemma EveryThird(d: nat)
    requires d >= 4
    ensures (d - 4) % 3 == 2 <==> d % 3 == 0
  {
  }

  /** The case of a head of pairs before the last three digits. */
  lemma LongCommas(front: string, back: string, d: nat)
    requires AllDigits(front) && AllDigits(back) && |back| == 3 && d < |Pairs(front) + ([','] + back)|
    ensures FromRight(Pairs(front) + ([','] + back), d) == ',' <==> d > 0 && d % 3 == 0
  {
    FromRightOfJoined(Pairs(front), back, d);
    if d < 3 {
      assert IsDigit(FromRight(back, d));
    } else if d > 3 {
      PairCommas(front, d - 4);
      EveryThird(d);
    }
  }

  lemma GroupedCommas(whole: string, d: nat)
    requires AllDigits(whole) && d < |Grouped(whole)|
    ensures FromRight(Grouped(whole), d) == ',' <==> d > 0 && d % 3 == 0
  {
    if |whole| <= 3 {
      assert IsDigit(FromRight(whole, d));
    } else {
      var front, back := whole[..|whole| - 3], whole[|whole| - 3..];
      assert AllDigits(front) && AllDigits(back);
      LongCommas(front, back, d);
    }
  }

  lemma GroupedStartsWithDigit(whole: string)
    requires AllDigits(whole) && whole != []
    ensures Grouped(whole) != [] && IsDigit(Grouped(whole)[0])
  {
    if |whole| > 3 {
      PairsStartWithDigit(whole[..|whole| - 3]);
    }
  }

  /** Indian grouping: from the right, a comma after three digits and then after every two,
      none in front, and the digits themselves unchanged. */
  lemma CommasAreIndian(whole: string, d: nat)
    requires AllDigits(whole) && d < |Grouped(whole)|
    ensures FromRight(Grouped(whole), d) == ',' <==> d > 0 && d % 3 == 0
    ensures IsDigit(Grouped(whole)[0])
    ensures Digits(Grouped(whole)) == whole
  {
    GroupedCommas(whole, d);
    GroupedStartsWithDigit(whole);
    DigitsOfGrouped(whole);
  }
}
