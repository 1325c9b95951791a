/** What the number and pair fragments accept, in decimal terms. */
module SafeNumbers {
  import opened Regex
  import opened Decimals
  import opened SafePattern

  // ------------------------------------------------------------ values of short numerals

  lemma ValueOne(d: string)
    requires |d| == 1 && AllDigits(d)
    ensures Value(d) == DigitValue(d[0])
  {
    assert d[..0] == "";
  }

  lemma ValueLast(d: string)
    requires |d| > 0 && AllDigits(d)
    ensures AllDigits(d[..|d| - 1])
    ensures Value(d) == 10 * Value(d[..|d| - 1]) + DigitValue(d[|d| - 1])
  {
  }

  lemma ValueTwo(d: string)
    requires |d| == 2 && AllDigits(d)
    ensures Value(d) == 10 * DigitValue(d[0]) + DigitValue(d[1])
  {
    ValueLast(d);
    ValueOne(d[..1]);
  }

  lemma ValueThree(d: string)
    requires |d| == 3 && AllDigits(d)
    ensures Value(d) == 100 * DigitValue(d[0]) + 10 * DigitValue(d[1]) + DigitValue(d[2])
  {
    ValueLast(d);
    ValueTwo(d[..2]);
  }

  lemma ValueFour(d: string)
    requires |d| == 4 && AllDigits(d)
    ensures Value(d) == 1000 * DigitValue(d[0]) + 100 * DigitValue(d[1]) + 10 * DigitValue(d[2]) + DigitValue(d[3])
  {
    ValueLast(d);
    ValueThree(d[..3]);
  }

  lemma {:induction false} LongIsLarge(d: string)
    requires |d| >= 5 && AllDigits(d) && d[0] != '0'
    ensures Value(d) >= 10000
  {
    ValueLast(d);
    if |d| == 5 {
      ValueFour(d[..4]);
    } else {
      LongIsLarge(d[..|d| - 1]);
    }
  }

  /** Between numerals without leading zeros, fewer digits means a smaller number. */
  lemma ShorterIsSmaller(d: string, d': string)
    requires Canonical(d) && Canonical(d') && |d| < |d'| <= 4
    ensures Value(d) < Value(d')
  {
    if |d| == 1 { ValueOne(d); } else if |d| == 2 { ValueTwo(d); } else { ValueThree(d); }
    if |d'| == 2 { ValueTwo(d'); } else if |d'| == 3 { ValueThree(d'); } else { ValueFour(d'); }
  }

  // ------------------------------------------------------------ runs of digits

  predicate DigitsAt(s: string, i: nat, j: nat)
    requires i <= j <= |s|
  {
    forall p :: i <= p < j ==> IsDigit(s[p])
  }

  lemma DigitsTimes(lo: nat, hi: nat, s: string, i: nat, j: nat)
    requires i <= j <= |s| && lo <= hi
    ensures M(Times(Digits(), lo, hi), s, i, j) <==> lo <= j - i <= hi && DigitsAt(s, i, j)
  {
    ClassTimes((set c: char | InRange(c, '0', '9')), lo, hi, s, i, j);
  }

  /** A first digit between `a` and `b`, then `lo` to `hi` digits. */
  lemma LeadingDigit(a: char, b: char, lo: nat, hi: nat, s: string, i: nat, j: nat)
    requires i <= j <= |s| && lo <= hi
    ensures M(Cat(Between(a, b), Times(Digits(), lo, hi)), s, i, j) <==>
            i < j && a <= s[i] <= b && lo <= j - i - 1 <= hi && DigitsAt(s, i + 1, j)
  {
    ClassThen((set c: char | InRange(c, a, b)), Times(Digits(), lo, hi), s, i, j);
    if i < j {
      DigitsTimes(lo, hi, s, i + 1, j);
    }
  }

  lemma ForFour(top: char, s: string, i: nat, j: nat)
    requires i <= j <= |s|
    ensures M(Cat(Lit('4'), Cat(Lit('0'), Alt(Cat(Between('0', '8'), Digits()), Cat(Lit('9'), Between('0', top))))),
              s, i, j)
            <==> j == i + 4 && s[i] == '4' && s[i + 1] == '0' &&
                 (('0' <= s[i + 2] <= '8' && IsDigit(s[i + 3])) || (s[i + 2] == '9' && '0' <= s[i + 3] <= top))
  {
    var eighties, nineties := Cat(Between('0', '8'), Digits()), Cat(Lit('9'), Between('0', top));
    var rest := Alt(eighties, nineties);
    ClassThen({'4'}, Cat(Lit('0'), rest), s, i, j);
    if i + 1 <= j {
      ClassThen({'0'}, rest, s, i + 1, j);
    }
    if i + 2 <= j {
      AltMeaning(eighties, nineties, s, i + 2, j);
      ClassThen((set c: char | InRange(c, '0', '8')), Digits(), s, i + 2, j);
      ClassThen({'9'}, Between('0', top), s, i + 2, j);
    }
  }

  // ------------------------------------------------------------ the number grammar

  /** The three alternatives, each by its first digits. */
  lemma PositiveParts(top: char, s: string, i: nat, j: nat)
    requires i <= j <= |s| && IsDigit(top)
    ensures M(Cat(NonZero(), Times(Digits(), 0, 2)), s, i, j)
       <==> i < j <= i + 3 && DigitsAt(s, i, j) && s[i] != '0'
    ensures M(Cat(Between('1', '3'), Times(Digits(), 3, 3)), s, i, j)
       <==> j == i + 4 && DigitsAt(s, i, j) && '1' <= s[i] <= '3'
    ensures M(Cat(Lit('4'), Cat(Lit('0'), Alt(Cat(Between('0', '8'), Digits()), Cat(Lit('9'), Between('0', top))))),
              s, i, j)
       <==> && j == i + 4 && DigitsAt(s, i, j) && s[i] == '4' && s[i + 1] == '0'
            && (s[i + 2] <= '8' || (s[i + 2] == '9' && s[i + 3] <= top))
  {
    LeadingDigit('1', '9', 0, 2, s, i, j);
    LeadingDigit('1', '3', 3, 3, s, i, j);
    ForFour(top, s, i, j);
    hide M, Lit, Digits;
  }

  lemma PositiveShape(top: char, s: string, i: nat, j: nat)
    requires i <= j <= |s| && IsDigit(top)
    ensures M(PositiveUpTo(top), s, i, j) <==>
            && i < j <= i + 4 && DigitsAt(s, i, j) && s[i] != '0'
            && (j == i + 4 ==>
                  || s[i] <= '3'
                  || (s[i] == '4' && s[i + 1] == '0' && (s[i + 2] <= '8' || (s[i + 2] == '9' && s[i + 3] <= top))))
  {
    var short := Cat(NonZero(), Times(Digits(), 0, 2));
    var thousands := Cat(Between('1', '3'), Times(Digits(), 3, 3));
    var fours := Cat(Lit('4'), Cat(Lit('0'), Alt(Cat(Between('0', '8'), Digits()), Cat(Lit('9'), Between('0', top)))));
    hide M, AltAll, Lit, Digits, DigitsAt;
    assert PositiveUpTo(top) == AltAll([short, thousands, fours]);
    hide PositiveUpTo;
    ThreeMeaning(short, thousands, fours, s, i, j);
    PositiveParts(top, s, i, j);
  }

  /** The number grammar without zero: canonical decimals of 1 up to 4090 and the last digit `top`. */
  lemma PositiveMeaning(top: char, s: string, i: nat, j: nat)
    requires i <= j <= |s| && IsDigit(top)
    ensures M(PositiveUpTo(top), s, i, j) <==>
            Canonical(s[i..j]) && 0 < Value(s[i..j]) <= 4090 + DigitValue(top)
  {
    PositiveShape(top, s, i, j);
    hide M, PositiveUpTo;
    var d := s[i..j];
    assert forall p :: 0 <= p < |d| ==> d[p] == s[i + p];
    assert AllDigits(d) <==> DigitsAt(s, i, j) by {
      assert forall p :: i <= p < j ==> s[p] == d[p - i];
    }
    if |d| > 0 && AllDigits(d) {
      if |d| == 1 { ValueOne(d); }
      else if |d| == 2 { ValueTwo(d); }
      else if |d| == 3 { ValueThree(d); }
      else if |d| == 4 { ValueFour(d); }
      else if d[0] != '0' { LongIsLarge(d); }
    }
  }

  /** The number grammar accepts exactly the canonical decimals of 0 up to its maximum. */
  lemma NumberMeaning(top: char, s: string, i: nat, j: nat)
    requires i <= j <= |s| && IsDigit(top)
    ensures M(NumberUpTo(top), s, i, j) <==>
            Canonical(s[i..j]) && Value(s[i..j]) <= 4090 + DigitValue(top)
  {
    AltMeaning(Lit('0'), PositiveUpTo(top), s, i, j);
    PositiveMeaning(top, s, i, j);
    var d := s[i..j];
    assert M(Lit('0'), s, i, j) <==> d == "0" by {
      if j == i + 1 { assert d[0] == s[i]; }
    }
    hide M, PositiveUpTo;
    if Canonical(d) {
      if d[0] == '0' {
        assert d == "0";
        ValueOne(d);
      } else {
        PositiveValue(d);
      }
    }
  }

  lemma {:induction false} PositiveValue(d: string)
    requires Canonical(d) && d[0] != '0'
    ensures Value(d) > 0
  {
    ValueLast(d);
    if |d| == 1 { ValueOne(d); } else { PositiveValue(d[..|d| - 1]); }
  }
}
