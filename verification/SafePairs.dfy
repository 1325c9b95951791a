/** What the bounded-pair fragment accepts: which `m,n` a `{m,n}` quantifier may hold. */
module SafePairs {
  import opened Regex
  import opened Decimals
  import opened PatternText
  import opened SafePattern
  import opened SafeNumbers

  lemma PairSplit(low: Re<char>, high: Re<char>, s: string, i: nat, j: nat) returns (c: nat)
    requires i <= j <= |s| && M(Pair(low, high), s, i, j)
    ensures i <= c < j && M(low, s, i, c) && s[c] == ',' && M(high, s, c + 1, j)
  {
    c := CatSplit(low, Cat(Lit(','), high), s, i, j);
    ClassThen({','}, high, s, c, j);
  }

  lemma PairJoin(low: Re<char>, high: Re<char>, s: string, i: nat, c: nat, j: nat)
    requires i <= c < j <= |s| && M(low, s, i, c) && s[c] == ',' && M(high, s, c + 1, j)
    ensures M(Pair(low, high), s, i, j)
  {
    ClassThen({','}, high, s, c, j);
    CatJoin(low, Cat(Lit(','), high), s, i, c, j);
  }

  // ------------------------------------------------------------ numerals by width

  predicate WideNumeral(d: string, width: nat) {
    |d| == width && Canonical(d)
  }

  lemma SpanDigits(s: string, i: nat, j: nat)
    requires i <= j <= |s|
    ensures AllDigits(s[i..j]) <==> DigitsAt(s, i, j)
    ensures i < j ==> s[i..j][0] == s[i]
  {
    assert forall p :: i <= p < j ==> s[p] == s[i..j][p - i];
  }

  lemma WiderMeaning(width: nat, s: string, i: nat, j: nat)
    requires width >= 1 && i <= j <= |s|
    ensures M(WiderNumber(width), s, i, j) <==> WideNumeral(s[i..j], width) && s[i] != '0'
  {
    LeadingDigit('1', '9', width - 1, width - 1, s, i, j);
    hide M;
    SpanDigits(s, i, j);
  }

  lemma WidthMeaning(width: nat, s: string, i: nat, j: nat)
    requires width >= 1 && i <= j <= |s|
    ensures M(OfWidth(width), s, i, j) <==> WideNumeral(s[i..j], width)
  {
    if width == 1 {
      SpanDigits(s, i, j);
    } else {
      WiderMeaning(width, s, i, j);
      hide M;
      SpanDigits(s, i, j);
    }
  }

  lemma MaximumMeaning(s: string, i: nat, j: nat)
    requires i <= j <= |s|
    ensures M(Maximum(), s, i, j) <==> s[i..j] == "4096"
  {
    ClassThen({'4'}, Cat(Lit('0'), Cat(Lit('9'), Lit('6'))), s, i, j);
    if i + 1 <= j { ClassThen({'0'}, Cat(Lit('9'), Lit('6')), s, i + 1, j); }
    if i + 2 <= j { ClassThen({'9'}, Lit('6'), s, i + 2, j); }
    assert j == i + 4 ==> s[i..j] == [s[i], s[i + 1], s[i + 2], s[i + 3]];
  }

  /** "4096" is the one canonical numeral of that value. */
  lemma MaximumNumeral(d: string)
    requires Canonical(d)
    ensures Value(d) == REPEAT_MAXIMUM <==> d == "4096"
  {
    if |d| == 1 { ValueOne(d); }
    else if |d| == 2 { ValueTwo(d); }
    else if |d| == 3 { ValueThree(d); }
    else if |d| == 4 {
      ValueFour(d);
      assert d == [d[0], d[1], d[2], d[3]];
    }
    else { LongIsLarge(d); }
  }

  lemma ZeroNumeral(d: string)
    requires Canonical(d)
    ensures Value(d) == 0 <==> d == "0"
  {
    if d[0] == '0' {
      ValueOne(d);
      assert d == "0";
    } else {
      PositiveValue(d);
    }
  }

  // ------------------------------------------------------------ the branches

  const MIN_WIDTHS: seq<nat> := [1, 1, 1, 2, 2, 3]
  const MAX_WIDTHS: seq<nat> := [2, 3, 4, 3, 4, 4]

  /** What branch `n` of the alternation says of the two numerals. */
  predicate BranchSays(n: nat, d: string, e: string) {
    if n == 0 then d == "0" && Canonical(e) && 0 < Value(e) <= REPEAT_MAXIMUM
    else if n == 1 then Canonical(d) && Value(d) < REPEAT_MAXIMUM && e == "4096"
    else if n < 8 then WideNumeral(d, MIN_WIDTHS[n - 2]) && WideNumeral(e, MAX_WIDTHS[n - 2])
    else
      && n < 17 && |d| == |e| == 1 && AllDigits(d) && AllDigits(e)
      && DigitValue(d[0]) == n - 8 && DigitValue(d[0]) < DigitValue(e[0])
  }

  lemma DigitBranchMeaning(low: nat, s: string, i: nat, c: nat, j: nat)
    requires low < 9 && i <= c < j <= |s|
    ensures M(Lit(('0' as int + low) as char), s, i, c) && M(Between(('0' as int + low + 1) as char, '9'), s, c + 1, j)
            <==> BranchSays(low + 8, s[i..c], s[c + 1..j])
  {
    SpanDigits(s, i, c);
    SpanDigits(s, c + 1, j);
  }

  /** The two sides of branch `n`. */
  function BranchLow(n: nat): Re<char>
    requires n < 17
  {
    if n == 0 then Lit('0')
    else if n == 1 then BelowMaximum()
    else if n < 8 then OfWidth(MIN_WIDTHS[n - 2])
    else Lit(('0' as int + (n - 8)) as char)
  }

  function BranchHigh(n: nat): Re<char>
    requires n < 17
  {
    if n == 0 then PositiveUpTo('6')
    else if n == 1 then Maximum()
    else if n < 8 then WiderNumber(MAX_WIDTHS[n - 2])
    else Between(('0' as int + (n - 8) + 1) as char, '9')
  }

  lemma BranchesArePairs(n: nat)
    requires n < 17
    ensures |PairBranches()| == 17 && PairBranches()[n] == Pair(BranchLow(n), BranchHigh(n))
  {
    var first := [Pair(Lit('0'), PositiveUpTo('6')), Pair(BelowMaximum(), Maximum())];
    var widths := WidthBranches();
    assert |first + widths| == 8;
    if n < 2 {
      assert PairBranches()[n] == first[n];
    } else if n < 8 {
      assert PairBranches()[n] == widths[n - 2];
    } else {
      assert PairBranches()[n] == DigitBranch(n - 8);
    }
  }

  lemma LitMeaning(ch: char, s: string, i: nat, j: nat)
    requires i <= j <= |s|
    ensures M(Lit(ch), s, i, j) <==> s[i..j] == [ch]
  {
    if j == i + 1 { assert s[i..j][0] == s[i]; }
  }

  lemma WidthSides(n: nat, s: string, i: nat, c: nat, j: nat)
    requires 2 <= n < 8 && i <= c < j <= |s|
    ensures M(BranchLow(n), s, i, c) && M(BranchHigh(n), s, c + 1, j) <==> BranchSays(n, s[i..c], s[c + 1..j])
  {
    hide M;
    var low, high := MIN_WIDTHS[n - 2], MAX_WIDTHS[n - 2];
    WidthMeaning(low, s, i, c);
    WiderMeaning(high, s, c + 1, j);
    SpanDigits(s, c + 1, j);
    hide OfWidth, WiderNumber;
  }

  lemma BranchSides(n: nat, s: string, i: nat, c: nat, j: nat)
    requires n < 17 && i <= c < j <= |s|
    ensures M(BranchLow(n), s, i, c) && M(BranchHigh(n), s, c + 1, j) <==> BranchSays(n, s[i..c], s[c + 1..j])
  {
    hide M, OfWidth, WiderNumber, PositiveUpTo, NumberUpTo, Maximum;
    if n == 0 {
      LitMeaning('0', s, i, c);
      PositiveMeaning('6', s, c + 1, j);
    } else if n == 1 {
      NumberMeaning('5', s, i, c);
      MaximumMeaning(s, c + 1, j);
    } else if n < 8 {
      WidthSides(n, s, i, c, j);
    } else {
      DigitBranchMeaning(n - 8, s, i, c, j);
    }
  }

  /** Every branch is in order, given that both numerals are within the maximum. */
  lemma BranchIsPublished(n: nat, d: string, e: string)
    requires n < 17 && BranchSays(n, d, e)
    requires Canonical(e) && Value(e) <= REPEAT_MAXIMUM
    ensures PublishedPair(d, e)
  {
    if n == 0 {
      ValueOne(d);
    } else if n == 1 {
      MaximumNumeral(e);
    } else if n < 8 {
      ShorterIsSmaller(d, e);
    } else {
      ValueOne(d);
      ValueOne(e);
    }
  }

  /** Every published pair has a branch. */
  lemma PublishedHasBranch(d: string, e: string) returns (n: nat)
    requires PublishedPair(d, e)
    ensures n < 17 && BranchSays(n, d, e)
  {
    ZeroNumeral(d);
    MaximumNumeral(e);
    if Value(d) == 0 {
      n := 0;
    } else if Value(e) == REPEAT_MAXIMUM {
      n := 1;
    } else if |d| < |e| {
      if |e| > 4 {
        LongIsLarge(e);
      }
      n := if |d| == 1 then |e| else if |d| == 2 then |e| + 2 else 7;
    } else {
      ValueOne(d);
      ValueOne(e);
      n := 8 + DigitValue(d[0]);
    }
  }

  // ------------------------------------------------------------ the whole pair

  /** Runs of digits that end at a nondigit end in the same place. */
  lemma SameDigitsEnd(s: string, i: nat, c: nat, c': nat)
    requires i <= c < |s| && i <= c' < |s|
    requires DigitsAt(s, i, c) && DigitsAt(s, i, c') && !IsDigit(s[c]) && !IsDigit(s[c'])
    ensures c == c'
  {
  }

  lemma NumberDigits(s: string, i: nat, j: nat)
    requires i <= j <= |s| && M(BoundedNumber(), s, i, j)
    ensures Canonical(s[i..j]) && Value(s[i..j]) <= REPEAT_MAXIMUM && DigitsAt(s, i, j)
  {
    NumberMeaning('6', s, i, j);
    SpanDigits(s, i, j);
  }

  lemma BoundedMeaning(s: string, i: nat, j: nat)
    requires i <= j <= |s|
    ensures M(BoundedNumber(), s, i, j) <==> Canonical(s[i..j]) && Value(s[i..j]) <= REPEAT_MAXIMUM
  {
    NumberMeaning('6', s, i, j);
  }

  /** The lookahead: two numbers within the maximum, a comma between, a brace after. */
  lemma AheadSplit(s: string, i: nat) returns (c: nat, m: nat)
    requires i <= |s| && M(Ahead(Cat(Pair(BoundedNumber(), BoundedNumber()), Lit('}'))), s, i, i)
    ensures i < c < m < |s| && s[c] == ',' && s[m] == '}'
    ensures DigitsAt(s, i, c) && DigitsAt(s, c + 1, m)
    ensures Canonical(s[i..c]) && Canonical(s[c + 1..m]) && Value(s[c + 1..m]) <= REPEAT_MAXIMUM
  {
    hide M, BoundedNumber, Pair;
    var both := Pair(BoundedNumber(), BoundedNumber());
    var e := AheadOpen(Cat(both, Lit('}')), s, i);
    m := CatSplit(both, Lit('}'), s, i, e);
    c := PairSplit(BoundedNumber(), BoundedNumber(), s, i, m);
    LitMeaning('}', s, m, e);
    assert s[m..e][0] == '}';
    NumberDigits(s, i, c);
    NumberDigits(s, c + 1, m);
  }

  lemma AheadOpen(re: Re<char>, s: string, i: nat) returns (e: nat)
    requires i <= |s| && M(Ahead(re), s, i, i)
    ensures i <= e <= |s| && M(re, s, i, e)
  {
    e :| i <= e <= |s| && M(re, s, i, e);
  }

  lemma AheadJoin(s: string, i: nat, c: nat, m: nat)
    requires i < c < m < |s| && s[c] == ',' && s[m] == '}'
    requires Canonical(s[i..c]) && Value(s[i..c]) <= REPEAT_MAXIMUM
    requires Canonical(s[c + 1..m]) && Value(s[c + 1..m]) <= REPEAT_MAXIMUM
    ensures M(Ahead(Cat(Pair(BoundedNumber(), BoundedNumber()), Lit('}'))), s, i, i)
  {
    hide M, BoundedNumber, Pair;
    BoundedMeaning(s, i, c);
    BoundedMeaning(s, c + 1, m);
    LitMeaning('}', s, m, m + 1);
    var both := Pair(BoundedNumber(), BoundedNumber());
    PairJoin(BoundedNumber(), BoundedNumber(), s, i, c, m);
    CatJoin(both, Lit('}'), s, i, m, m + 1);
    AheadHolds(Cat(both, Lit('}')), s, i, m + 1);
  }

  lemma AheadHolds(re: Re<char>, s: string, i: nat, e: nat)
    requires i <= e <= |s| && M(re, s, i, e)
    ensures M(Ahead(re), s, i, i)
  {
  }

  lemma AheadTakesNothing(re: Re<char>, s: string, i: nat, k: nat)
    requires i <= k <= |s| && M(Ahead(re), s, i, k)
    ensures k == i
  {
  }

  /** Inside braces the fragment accepts only published pairs, cut at their one comma. */
  lemma PairIsPublished(s: string, i: nat, j: nat) returns (c: nat)
    requires i <= j < |s| && s[j] == '}' && M(IncreasingPair(), s, i, j)
    ensures i < c < j && s[c] == ',' && PublishedPair(s[i..c], s[c + 1..j])
    ensures DigitsAt(s, i, c) && DigitsAt(s, c + 1, j)
  {
    hide M, AltAll, PairBranches, BoundedNumber, Pair;
    var branches := PairBranches();
    BranchesArePairs(0);
    var ahead := Cat(Pair(BoundedNumber(), BoundedNumber()), Lit('}'));
    var k := CatSplit(Ahead(ahead), AltAll(branches), s, i, j);
    AheadTakesNothing(ahead, s, i, k);
    AltAllMeaning(branches, s, i, j);
    var n :| 0 <= n < |branches| && M(branches[n], s, i, j);
    c := PairBranchCut(n, s, i, j);
  }

  /** A matching branch, together with the lookahead, gives a published pair. */
  lemma PairBranchCut(n: nat, s: string, i: nat, j: nat) returns (c: nat)
    requires i <= j < |s| && s[j] == '}'
    requires M(Ahead(Cat(Pair(BoundedNumber(), BoundedNumber()), Lit('}'))), s, i, i)
    requires n < |PairBranches()| && M(PairBranches()[n], s, i, j)
    ensures i < c < j && s[c] == ',' && PublishedPair(s[i..c], s[c + 1..j])
    ensures DigitsAt(s, i, c) && DigitsAt(s, c + 1, j)
  {
    hide M, PairBranches, BranchLow, BranchHigh, BoundedNumber;
    BranchesArePairs(0);
    BranchesArePairs(n);
    var c0, m := AheadSplit(s, i);
    c := PairSplit(BranchLow(n), BranchHigh(n), s, i, j);
    BranchSides(n, s, i, c, j);
    BranchDigits(n, s[i..c], s[c + 1..j]);
    SpanDigits(s, i, c);
    SpanDigits(s, c + 1, j);
    SameDigitsEnd(s, i, c, c0);
    SameDigitsEnd(s, c + 1, j, m);
    BranchIsPublished(n, s[i..c], s[c + 1..j]);
  }

  lemma BranchDigits(n: nat, d: string, e: string)
    requires n < 17 && BranchSays(n, d, e)
    ensures |d| > 0 && |e| > 0 && AllDigits(d) && AllDigits(e)
  {
  }

  /** Inside braces the fragment accepts every published pair. */
  lemma PublishedIsPair(s: string, i: nat, c: nat, j: nat)
    requires i < c < j < |s| && s[c] == ',' && s[j] == '}' && PublishedPair(s[i..c], s[c + 1..j])
    ensures M(IncreasingPair(), s, i, j)
  {
    var ahead := Ahead(Cat(Pair(BoundedNumber(), BoundedNumber()), Lit('}')));
    var branches := PairBranches();
    AheadJoin(s, i, c, j);
    var n := PublishedHasBranch(s[i..c], s[c + 1..j]);
    AltAllMeaning(branches, s, i, j);
    hide M, AltAll, PairBranches, PublishedPair, BranchLow, BranchHigh, BoundedNumber;
    BranchesArePairs(n);
    BranchSides(n, s, i, c, j);
    PairJoin(BranchLow(n), BranchHigh(n), s, i, c, j);
    assert M(branches[n], s, i, j);
    CatJoin(ahead, AltAll(branches), s, i, i, j);
  }

  /** The pair fragment, exactly. */
  lemma PairMeaning(s: string, i: nat, j: nat)
    requires i <= j < |s| && s[j] == '}'
    ensures M(IncreasingPair(), s, i, j) <==>
            exists c :: i < c < j && s[c] == ',' && PublishedPair(s[i..c], s[c + 1..j])
  {
    hide M, PublishedPair;
    if M(IncreasingPair(), s, i, j) {
      var c := PairIsPublished(s, i, j);
    }
    if c: nat :| i < c < j && s[c] == ',' && PublishedPair(s[i..c], s[c + 1..j]) {
      PublishedIsPair(s, i, c, j);
    }
  }
}
