/** The card-number check of the log sanitizer: the loop, and what the
    checksum can and cannot detect. */
module Luhn {
  import opened Common

  type Digit = d: int | 0 <= d <= 9

  /** The decimal digits of s in order; everything else is ignored. */
  function Digits(s: string): seq<Digit> {
    if s == "" then []
    else if IsDigit(s[0]) then [(s[0] - '0') as int] + Digits(s[1..])
    else Digits(s[1..])
  }

  /** What one digit contributes, doubled or not. */
  function Weight(d: Digit, double: bool): nat {
    if !double then d else if 2 * d > 9 then 2 * d - 9 else 2 * d
  }

  /** The checksum from the right, the first digit seen being doubled or not. */
  function Sum(ds: seq<Digit>, double: bool): nat {
    if ds == [] then 0 else Weight(ds[|ds| - 1], double) + Sum(ds[..|ds| - 1], !double)
  }

  predicate LuhnOK(ds: seq<Digit>) { 13 <= |ds| <= 19 && Sum(ds, false) % 10 == 0 }

  lemma {:induction false} DigitsAppend(a: string, b: string)
    ensures Digits(a + b) == Digits(a) + Digits(b)
  {
    if a == "" {
      assert a + b == b;
    } else {
      assert (a + b)[1..] == a[1..] + b;
      DigitsAppend(a[1..], b);
    }
  }

  lemma {:induction false} NoDigits(s: string)
    requires forall c | c in s :: !IsDigit(c)
    ensures Digits(s) == []
  {
    if s != "" { NoDigits(s[1..]); }
  }

  /** The source's two loops: collect the digits, then walk them backwards. */
  method LuhnValid(s: string) returns (ok: bool)
    ensures ok == LuhnOK(Digits(s))
  {
    var digits: seq<Digit> := [];
    for i := 0 to |s|
      invariant digits == Digits(s[..i])
    {
      assert s[..i + 1] == s[..i] + [s[i]];
      DigitsAppend(s[..i], [s[i]]);
      if IsDigit(s[i]) {
        digits := digits + [(s[i] - '0') as int];
      }
    }
    assert s[..|s|] == s;
    if |digits| < 13 || |digits| > 19 {
      return false;
    }
    var sum := 0;
    var double := false;
    var k := |digits|;
    assert digits[..k] == digits;
    while k > 0
      invariant 0 <= k <= |digits|
      invariant sum + Sum(digits[..k], double) == Sum(digits, false)
    {
      k := k - 1;
      assert digits[..k + 1][..k] == digits[..k];
      var d: int := digits[k];
      if double {
        d := d * 2;
        if d > 9 {
          d := d - 9;
        }
      }
      sum := sum + d;
      double := !double;
    }
    return sum % 10 == 0;
  }

  /** Separators never matter, wherever they stand. */
  lemma SeparatorsIgnored(a: string, sep: string, b: string)
    requires forall c | c in sep :: !IsDigit(c)
    ensures LuhnOK(Digits(a + sep + b)) <==> LuhnOK(Digits(a + b))
  {
    NoDigits(sep);
    DigitsAppend(a + sep, b);
    DigitsAppend(a, sep);
    DigitsAppend(a, b);
    assert Digits(a) + [] == Digits(a);
  }

  /** A digit doubled and, if that has two digits, these added. */
  function DigitSum(d: Digit): nat { (2 * d) / 10 + (2 * d) % 10 }

  /** The textbook sum from left to right: every second digit counts doubled,
      starting with the last but one. */
  function Textbook(ds: seq<Digit>): nat {
    if ds == [] then 0
    else (if |ds| % 2 == 0 then DigitSum(ds[0]) else ds[0]) + Textbook(ds[1..])
  }

  /** The same with the roles of the positions exchanged. */
  function TextbookShifted(ds: seq<Digit>): nat {
    if ds == [] then 0
    else (if |ds| % 2 == 0 then ds[0] else DigitSum(ds[0])) + TextbookShifted(ds[1..])
  }

  lemma TextbookCons(d: Digit, ds: seq<Digit>)
    ensures Textbook([d] + ds) == (if |ds| % 2 == 1 then DigitSum(d) else d) + Textbook(ds)
    ensures TextbookShifted([d] + ds) == (if |ds| % 2 == 1 then d else DigitSum(d)) + TextbookShifted(ds)
  {
    assert ([d] + ds)[1..] == ds;
  }

  lemma {:induction false} TextbookSnoc(ds: seq<Digit>, d: Digit)
    ensures Textbook(ds + [d]) == TextbookShifted(ds) + d
    ensures TextbookShifted(ds + [d]) == Textbook(ds) + DigitSum(d)
  {
    if ds == [] {
      assert ds + [d] == [d] + [];
      TextbookCons(d, []);
    } else {
      var (e, tail) := (ds[0], ds[1..]);
      assert ds + [d] == [e] + (tail + [d]) && ds == [e] + tail;
      TextbookCons(e, tail + [d]);
      TextbookCons(e, tail);
      TextbookSnoc(tail, d);
    }
  }

  lemma WeightIsDigitSum(d: Digit)
    ensures Weight(d, true) == DigitSum(d) && Weight(d, false) == d
  {
  }

  lemma {:induction false} SumIsTextbook(ds: seq<Digit>)
    ensures Sum(ds, false) == Textbook(ds) && Sum(ds, true) == TextbookShifted(ds)
  {
    if ds != [] {
      var n := |ds| - 1;
      assert ds == ds[..n] + [ds[n]];
      SumIsTextbook(ds[..n]);
      TextbookSnoc(ds[..n], ds[n]);
      WeightIsDigitSum(ds[n]);
    }
  }

  /** A text passes exactly when it has 13 to 19 digits and their textbook sum
      is a multiple of ten. */
  lemma LuhnMeans(s: string)
    ensures LuhnOK(Digits(s)) <==> 13 <= |Digits(s)| <= 19 && Textbook(Digits(s)) % 10 == 0
    ensures forall c: char :: Digits([c]) == if '0' <= c <= '9' then [(c - '0') as int] else []
  {
    SumIsTextbook(Digits(s));
    forall c: char ensures Digits([c]) == if '0' <= c <= '9' then [(c - '0') as int] else [] { OneDigit(c); }
  }

  lemma OneDigit(c: char)
    ensures Digits([c]) == if '0' <= c <= '9' then [(c - '0') as int] else []
  {
    assert [c][1..] == "" && Digits("") == [];
  }

  predicate Doubled(ds: seq<Digit>, i: nat, double: bool)
    requires i < |ds|
  {
    ((|ds| - 1 - i) % 2 == 1) != double
  }

  lemma {:induction false} SumUpdate(ds: seq<Digit>, i: nat, d: Digit, double: bool)
    requires i < |ds|
    ensures Sum(ds[i := d], double)
            == Sum(ds, double) - Weight(ds[i], Doubled(ds, i, double)) + Weight(d, Doubled(ds, i, double))
  {
    var n := |ds| - 1;
    if i < n {
      assert ds[i := d][..n] == ds[..n][i := d];
      SumUpdate(ds[..n], i, d, !double);
    } else {
      assert ds[i := d][..n] == ds[..n];
    }
  }

  /** Two digits in the same place never weigh the same. */
  lemma WeightsDiffer(a: Digit, b: Digit, double: bool)
    requires a != b
    ensures -9 <= Weight(b, double) - Weight(a, double) <= 9 && Weight(b, double) != Weight(a, double)
  {
  }

  /** Adding to a multiple of ten. */
  lemma SameRemainder(s: int, delta: int)
    requires s % 10 == 0
    ensures (s + delta) % 10 == 0 <==> delta % 10 == 0
  {
  }

  lemma SmallRemainder(delta: int)
    requires -9 <= delta <= 9 && delta != 0
    ensures delta % 10 != 0
  {
  }

  /** One wrong digit is always noticed. */
  lemma WrongDigitDetected(ds: seq<Digit>, i: nat, d: Digit)
    requires LuhnOK(ds) && i < |ds| && d != ds[i]
    ensures !LuhnOK(ds[i := d])
  {
    var double := Doubled(ds, i, false);
    var delta := Weight(d, double) - Weight(ds[i], double);
    SumUpdate(ds, i, d, false);
    WeightsDiffer(ds[i], d, double);
    SmallRemainder(delta);
    SameRemainder(Sum(ds, false), delta);
  }

  predicate ZeroAndNine(a: Digit, b: Digit) { (a == 0 && b == 9) || (a == 9 && b == 0) }

  function Swapped(ds: seq<Digit>, i: nat): seq<Digit>
    requires i + 1 < |ds|
  {
    ds[i := ds[i + 1]][i + 1 := ds[i]]
  }

  function SwapDelta(a: Digit, b: Digit, double: bool): int {
    Weight(b, double) + Weight(a, !double) - Weight(a, double) - Weight(b, !double)
  }

  lemma SwapWeights(a: Digit, b: Digit, double: bool)
    ensures SwapDelta(a, b, double) % 10 == 0 <==> a == b || ZeroAndNine(a, b)
  {
  }

  lemma DoubledNext(ds: seq<Digit>, es: seq<Digit>, i: nat)
    requires i + 1 < |ds| == |es|
    ensures Doubled(es, i + 1, false) == !Doubled(ds, i, false)
  {
  }

  /** The sum after one digit is replaced, with nothing left to unfold. */
  lemma Replaced(ds: seq<Digit>, i: nat, d: Digit, double: bool) returns (es: seq<Digit>, sum: nat)
    requires i < |ds| && double == Doubled(ds, i, false)
    ensures es == ds[i := d] && sum == Sum(es, false)
    ensures sum == Sum(ds, false) - Weight(ds[i], double) + Weight(d, double)
  {
    es, sum := ds[i := d], Sum(ds[i := d], false);
    SumUpdate(ds, i, d, false);
  }

  lemma SwapSum(ds: seq<Digit>, i: nat)
    requires i + 1 < |ds|
    ensures Sum(Swapped(ds, i), false) == Sum(ds, false) + SwapDelta(ds[i], ds[i + 1], Doubled(ds, i, false))
  {
    var double := Doubled(ds, i, false);
    var es, s := Replaced(ds, i, ds[i + 1], double);
    DoubledNext(ds, es, i);
    var fs, t := Replaced(es, i + 1, ds[i], !double);
  }

  /** Swapping two neighbours is noticed unless they are equal or are 0 and 9. */
  lemma SwapDetected(ds: seq<Digit>, i: nat)
    requires LuhnOK(ds) && i + 1 < |ds|
    ensures LuhnOK(Swapped(ds, i)) <==> ds[i] == ds[i + 1] || ZeroAndNine(ds[i], ds[i + 1])
  {
    var double := Doubled(ds, i, false);
    SwapSum(ds, i);
    SwapWeights(ds[i], ds[i + 1], double);
    SameRemainder(Sum(ds, false), SwapDelta(ds[i], ds[i + 1], double));
  }

  /** The digit that completes a prefix. */
  function CheckDigit(p: seq<Digit>): Digit { (10 - Sum(p, true) % 10) % 10 }

  /** Every prefix of 12 to 18 digits has exactly one valid completion. */
  lemma CheckDigitUnique(p: seq<Digit>, d: Digit)
    requires 12 <= |p| <= 18
    ensures LuhnOK(p + [d]) <==> d == CheckDigit(p)
  {
    assert (p + [d])[..|p|] == p;
  }
}
