/** Every atom and quantifier the grammar accepts, the runtime scan consumes whole. */
module SafeAtoms {
  import opened Wrappers
  import opened Regex
  import opened Decimals
  import opened SafePattern
  import opened SafeNumbers
  import opened SafePairs
  import opened RuntimeScanner

  // ------------------------------------------------------------ escapes

  lemma EscapeConsumed(s: string, i: nat, j: nat)
    requires i <= j <= |s| && M(ApprovedEscape(), s, i, j)
    ensures j == i + 2 && s[i] == '\\' && ConsumeEscape(s, i) == Some(j)
  {
    ClassThen({'\\'}, Alt(OneOf(SHORTHANDS), OneOf(ESCAPED)), s, i, j);
    AltMeaning(OneOf(SHORTHANDS), OneOf(ESCAPED), s, i + 1, j);
  }

  // ------------------------------------------------------------ items of a class

  /** The class scan goes from `i` to `j` and has then seen an atom. */
  ghost predicate Passes(s: string, i: nat, j: nat) {
    i < j <= |s| && forall has :: ClassLoop(s, i, has, false) == ClassLoop(s, j, true, false)
  }

  lemma EscapePasses(s: string, i: nat, j: nat)
    requires i <= j <= |s| && M(ApprovedEscape(), s, i, j)
    ensures Passes(s, i, j) && s[i] == '\\'
  {
    EscapeConsumed(s, i, j);
  }

  lemma RangePasses(lo: char, hi: char, s: string, i: nat, j: nat)
    requires i <= j <= |s| && M(Range(lo, hi), s, i, j)
    requires !IsClassSyntax(lo) && !IsClassSyntax(hi)
    ensures Passes(s, i, j) && s[i] == lo
  {
    ClassThen({lo}, Cat(Lit('-'), Lit(hi)), s, i, j);
    ClassThen({'-'}, Lit(hi), s, i + 1, j);
    hide M;
    forall has ensures ClassLoop(s, i, has, false) == ClassLoop(s, j, true, false) {
      assert ClassLoop(s, i, has, false) == ClassLoop(s, i + 1, true, false);
      assert ClassLoop(s, i + 1, true, false) == ClassLoop(s, i + 2, true, true);
      assert ClassLoop(s, i + 2, true, true) == ClassLoop(s, i + 3, true, false);
    }
  }

  lemma RangesPass(s: string, i: nat, j: nat)
    requires i <= j <= |s| && M(PublishedRanges(), s, i, j)
    ensures Passes(s, i, j) && s[i] != '^'
  {
    var parts := [Range('0', '9'), Range('A', 'Z'), Range('a', 'z'), Range(' ', '~')];
    AltAllMeaning(parts, s, i, j);
    hide M, Passes, AltAll;
    var n :| 0 <= n < |parts| && M(parts[n], s, i, j);
    if n == 0 { RangePasses('0', '9', s, i, j); }
    else if n == 1 { RangePasses('A', 'Z', s, i, j); }
    else if n == 2 { RangePasses('a', 'z', s, i, j); }
    else { RangePasses(' ', '~', s, i, j); }
  }

  lemma PlainPasses(cs: set<char>, s: string, i: nat, j: nat)
    requires i <= j <= |s| && M(OneOf(cs), s, i, j)
    requires forall c :: c in cs ==> !IsClassSyntax(c)
    ensures Passes(s, i, j) && s[i] in cs
  {
  }

  lemma ItemOf(plain: set<char>, s: string, i: nat, j: nat)
    requires i <= j <= |s| && M(AltAll([ApprovedEscape(), OneOf(plain), PublishedRanges()]), s, i, j)
    requires forall c :: c in plain ==> !IsClassSyntax(c)
    ensures Passes(s, i, j) && (s[i] != '^' || '^' in plain)
  {
    var parts := [ApprovedEscape(), OneOf(plain), PublishedRanges()];
    AltAllMeaning(parts, s, i, j);
    hide M, Passes, AltAll, ApprovedEscape, PublishedRanges;
    var n :| 0 <= n < |parts| && M(parts[n], s, i, j);
    if n == 0 { EscapePasses(s, i, j); }
    else if n == 1 { PlainPasses(plain, s, i, j); }
    else { RangesPass(s, i, j); }
  }

  lemma ItemPasses(s: string, i: nat, j: nat)
    requires i <= j <= |s| && M(Item(), s, i, j)
    ensures Passes(s, i, j)
  {
    hide M, AltAll;
    ItemOf(PLAIN, s, i, j);
  }

  lemma FirstItemPasses(s: string, i: nat, j: nat)
    requires i <= j <= |s| && M(FirstItem(), s, i, j)
    ensures Passes(s, i, j) && s[i] != '^'
  {
    hide M, AltAll;
    ItemOf(FIRST_PLAIN, s, i, j);
  }

  lemma {:induction false} ItemsPass(s: string, i: nat, j: nat)
    requires i <= j <= |s| && MStar(Item(), s, i, j)
    ensures ClassLoop(s, i, true, false) == ClassLoop(s, j, true, false)
    decreases j - i
  {
    if i < j {
      var k := StarSplit(Item(), s, i, j);
      hide M, MStar, Item;
      ItemPasses(s, i, k);
      ItemsPass(s, k, j);
    }
  }

  lemma OptionalHyphen(s: string, i: nat, j: nat)
    requires i <= j < |s| && s[j] == ']' && M(Opt(Lit('-')), s, i, j)
    ensures ClassLoop(s, i, true, false) == Some(j + 1)
  {
    AltMeaning(Lit('-'), Empty, s, i, j);
  }

  /** Items up to the bracket, after a first one that passes. */
  lemma ItemsClose(first: Re<char>, s: string, i: nat, j: nat) returns (k: nat)
    requires i <= j < |s| && s[j] == ']' && M(Items(first), s, i, j)
    ensures i <= k <= j && M(first, s, i, k)
    ensures Passes(s, i, k) ==> forall has :: ClassLoop(s, i, has, false) == Some(j + 1)
  {
    hide M, MStar, Item, Opt;
    k := CatSplit(first, Cat(Star(Item()), Opt(Lit('-'))), s, i, j);
    var m := CatSplit(Star(Item()), Opt(Lit('-')), s, k, j);
    StarMeaning(Item(), s, k, m);
    ItemsPass(s, k, m);
    OptionalHyphen(s, m, j);
  }

  /** The kinds of first item: the plain one anywhere, the guarded one right after `[`. */
  predicate IsFirst(first: Re<char>) {
    first == Item() || first == FirstItem()
  }

  lemma FirstPasses(first: Re<char>, s: string, i: nat, j: nat)
    requires IsFirst(first) && i <= j <= |s| && M(first, s, i, j)
    ensures Passes(s, i, j) && (first == FirstItem() ==> s[i] != '^')
  {
    hide M, Item, FirstItem;
    if first == Item() { ItemPasses(s, i, j); }
    if first == FirstItem() { FirstItemPasses(s, i, j); }
  }

  lemma FirstItemsClose(first: Re<char>, s: string, i: nat, j: nat)
    requires IsFirst(first) && i <= j < |s| && s[j] == ']' && M(Items(first), s, i, j)
    ensures forall has :: ClassLoop(s, i, has, false) == Some(j + 1)
    ensures i < j && (first == FirstItem() ==> s[i] != '^')
  {
    hide M, Item, FirstItem;
    var k := ItemsClose(first, s, i, j);
    FirstPasses(first, s, i, k);
  }

  lemma HyphensClose(s: string, i: nat, j: nat)
    requires i <= j < |s| && s[j] == ']' && M(HyphensOnly(), s, i, j)
    ensures i < j && s[i] == '-' && ClassLoop(s, i, false, false) == Some(j + 1)
  {
    ClassThen({'-'}, Opt(Lit('-')), s, i, j);
    OptionalHyphen(s, i + 1, j);
  }

  /** A class body up to its bracket is scanned whole. */
  lemma ClassBodyCloses(first: Re<char>, s: string, i: nat, j: nat)
    requires IsFirst(first) && i <= j < |s| && s[j] == ']' && M(ClassBody(first), s, i, j)
    ensures i < j && ClassLoop(s, i, false, false) == Some(j + 1)
    ensures first == FirstItem() ==> s[i] != '^'
  {
    var parts := [HyphensOnly(), Items(first), Cat(Lit('-'), Items(Item()))];
    hide M, AltAll, Item, FirstItem, HyphensOnly, Items;
    AltAllMeaning(parts, s, i, j);
    var n :| 0 <= n < |parts| && M(parts[n], s, i, j);
    if n == 0 {
      HyphensClose(s, i, j);
    } else if n == 1 {
      FirstItemsClose(first, s, i, j);
    } else {
      ClassThen({'-'}, Items(Item()), s, i, j);
      FirstItemsClose(Item(), s, i + 1, j);
    }
  }

  /** A class ends exactly where the scan says its first unescaped bracket is. */
  lemma ClassConsumed(s: string, i: nat, j: nat)
    requires i <= j <= |s| && M(CharacterClassAtom(), s, i, j)
    ensures i < j && s[i] == '[' && ConsumeClass(s, i) == Some(j)
  {
    var negated, plain := Cat(Lit('^'), ClassBody(Item())), ClassBody(FirstItem());
    hide M, ClassBody, Item, FirstItem;
    ClassThen({'['}, Cat(Alt(negated, plain), Lit(']')), s, i, j);
    var k := CatSplit(Alt(negated, plain), Lit(']'), s, i + 1, j);
    LitMeaning(']', s, k, j);
    assert s[k..j][0] == ']';
    AltMeaning(negated, plain, s, i + 1, k);
    if M(negated, s, i + 1, k) {
      ClassThen({'^'}, ClassBody(Item()), s, i + 1, k);
      ClassBodyCloses(Item(), s, i + 2, k);
    } else {
      ClassBodyCloses(FirstItem(), s, i + 1, k);
    }
  }

  // ------------------------------------------------------------ atoms

  /** Characters that start something other than an atom: anchors and quantifiers. */
  predicate NotAtomStart(c: char) {
    c == '^' || c == '$' || c == '*' || c == '+' || c == '?' || c == '{'
  }

  /** Every atom is consumed whole, and never starts like an anchor or a quantifier. */
  lemma AtomConsumed(s: string, i: nat, j: nat)
    requires i <= j <= |s| && M(Atom(), s, i, j)
    ensures i < j && ConsumeAtom(s, i) == Some(j) && !NotAtomStart(s[i])
  {
    var parts := [OneOf(LITERALS), ApprovedEscape(), CharacterClassAtom()];
    AltAllMeaning(parts, s, i, j);
    hide M, AltAll, ApprovedEscape, CharacterClassAtom, ClassLoop, ConsumeClass, ConsumeEscape;
    var n :| 0 <= n < |parts| && M(parts[n], s, i, j);
    if n == 0 {
      ClassMeaning(LITERALS, s, i, j);
    } else if n == 1 {
      EscapeConsumed(s, i, j);
    } else {
      ClassConsumed(s, i, j);
    }
  }

  // ------------------------------------------------------------ quantifiers

  lemma BracedSplit(inner: Re<char>, s: string, i: nat, j: nat)
    requires i <= j <= |s| && M(Braced(inner), s, i, j)
    ensures i + 1 < j && s[i] == '{' && s[j - 1] == '}' && M(inner, s, i + 1, j - 1)
  {
    hide M;
    ClassThen({'{'}, Cat(inner, Lit('}')), s, i, j);
    var k := CatSplit(inner, Lit('}'), s, i + 1, j);
    LitMeaning('}', s, k, j);
    assert s[k..j][0] == '}';
  }

  lemma OneBound(d: string, end: nat)
    requires IsNumeral(d)
    ensures Bounds(d, end) == Some(Quantifier(end, Value(d), Some(Value(d))))
  {
    assert IndexOf(d, ',', 0) == |d|;
    assert d[..|d|] == d;
  }

  lemma OpenBound(d: string, inner: string, end: nat)
    requires IsNumeral(d) && inner == d + ","
    ensures Bounds(inner, end) == Some(Quantifier(end, Value(d), None))
  {
    assert forall k :: 0 <= k < |d| ==> inner[k] == d[k];
    assert inner[|d|] == ',';
    assert IndexOf(inner, ',', 0) == |d|;
    assert inner[..|d|] == d && inner[|d| + 1..] == "";
  }

  lemma TwoBounds(d: string, e: string, inner: string, end: nat)
    requires IsNumeral(d) && IsNumeral(e) && inner == d + "," + e
    ensures Bounds(inner, end) == Some(Quantifier(end, Value(d), Some(Value(e))))
  {
    assert forall k :: 0 <= k < |d| ==> inner[k] == d[k];
    assert inner[|d|] == ',';
    assert IndexOf(inner, ',', 0) == |d|;
    assert inner[..|d|] == d && inner[|d| + 1..] == e;
  }

  /** The scan consumes the quantifier at `i` whole, with these bounds. */
  ghost predicate Consumed(s: string, i: nat, j: nat, varies: bool) {
    && StartsQuantifier(s, i)
    && ConsumeQuantifier(s, i).Some?
    && ConsumeQuantifier(s, i).value.end == j
    && Varies(ConsumeQuantifier(s, i).value) == varies
  }

  /** Braces around readable bounds within the limit, with no brace inside, are consumed whole. */
  lemma BracesConsumed(s: string, i: nat, j: nat, lo: nat, hi: Option<nat>)
    requires i + 1 < j <= |s| && s[i] == '{' && s[j - 1] == '}'
    requires forall k :: i < k < j - 1 ==> s[k] != '}'
    requires Bounds(s[i + 1..j - 1], j) == Some(Quantifier(j, lo, hi))
    requires lo <= EffectiveMax(Quantifier(j, lo, hi)) <= REPEAT_MAXIMUM
    ensures Consumed(s, i, j, lo != EffectiveMax(Quantifier(j, lo, hi)))
  {
    hide Bounds;
    assert IndexOf(s, '}', i + 1) == j - 1;
  }

  lemma NumberBraced(top: char, s: string, i: nat, j: nat)
    requires IsDigit(top) && '0' <= top <= '6' && i <= j <= |s| && M(NumberUpTo(top), s, i, j)
    ensures IsNumeral(s[i..j]) && Value(s[i..j]) <= 4090 + DigitValue(top)
    ensures forall k :: i <= k < j ==> IsDigit(s[k])
  {
    NumberMeaning(top, s, i, j);
    SpanDigits(s, i, j);
  }

  lemma FixedNumberConsumed(s: string, i: nat, j: nat)
    requires i <= j <= |s| && M(Braced(BoundedNumber()), s, i, j)
    ensures Consumed(s, i, j, false)
  {
    hide M, NumberUpTo, Bounds, Consumed;
    BracedSplit(BoundedNumber(), s, i, j);
    NumberBraced('6', s, i + 1, j - 1);
    var d := s[i + 1..j - 1];
    OneBound(d, j);
    BracesConsumed(s, i, j, Value(d), Some(Value(d)));
  }

  lemma NumberCommaSplit(number: Re<char>, s: string, i: nat, j: nat)
    requires i <= j <= |s| && M(Cat(number, Lit(',')), s, i, j)
    ensures i < j && s[j - 1] == ',' && M(number, s, i, j - 1)
  {
    hide M;
    var k := CatSplit(number, Lit(','), s, i, j);
    LitMeaning(',', s, k, j);
    assert s[k..j][0] == ',';
  }

  lemma OpenMaximumConsumed(s: string, i: nat, j: nat)
    requires i <= j <= |s| && M(Braced(Cat(Maximum(), Lit(','))), s, i, j)
    ensures Consumed(s, i, j, false)
  {
    hide M, Maximum, Bounds, Consumed;
    BracedSplit(Cat(Maximum(), Lit(',')), s, i, j);
    NumberCommaSplit(Maximum(), s, i + 1, j - 1);
    MaximumMeaning(s, i + 1, j - 2);
    var d := s[i + 1..j - 2];
    assert Canonical(d);
    MaximumNumeral(d);
    assert forall k :: i + 1 <= k < j - 2 ==> s[k] == d[k - i - 1];
    assert s[i + 1..j - 1] == d + ",";
    OpenBound(d, s[i + 1..j - 1], j);
    BracesConsumed(s, i, j, Value(d), None);
  }

  /** Every fixed quantifier is consumed whole and has equal effective bounds. */
  lemma FixedConsumed(s: string, i: nat, j: nat)
    requires i <= j <= |s| && M(FixedQuantifier(), s, i, j)
    ensures Consumed(s, i, j, false)
  {
    var number, top := Braced(BoundedNumber()), Braced(Cat(Maximum(), Lit(',')));
    AltMeaning(number, top, s, i, j);
    hide M, Braced, BoundedNumber, Maximum;
    if M(number, s, i, j) {
      FixedNumberConsumed(s, i, j);
    } else {
      OpenMaximumConsumed(s, i, j);
    }
  }

  lemma OpenRangeConsumed(s: string, i: nat, j: nat)
    requires i <= j <= |s| && M(Braced(Cat(BelowMaximum(), Lit(','))), s, i, j)
    ensures Consumed(s, i, j, true)
  {
    hide M, NumberUpTo, Bounds, Consumed;
    BracedSplit(Cat(BelowMaximum(), Lit(',')), s, i, j);
    NumberCommaSplit(BelowMaximum(), s, i + 1, j - 1);
    NumberBraced('5', s, i + 1, j - 2);
    var d := s[i + 1..j - 2];
    assert s[i + 1..j - 1] == d + ",";
    OpenBound(d, s[i + 1..j - 1], j);
    BracesConsumed(s, i, j, Value(d), None);
  }

  lemma PairConsumed(s: string, i: nat, j: nat)
    requires i <= j <= |s| && M(Braced(IncreasingPair()), s, i, j)
    ensures Consumed(s, i, j, true)
  {
    hide M, IncreasingPair, Bounds, Consumed;
    BracedSplit(IncreasingPair(), s, i, j);
    var c := PairIsPublished(s, i + 1, j - 1);
    var d, e := s[i + 1..c], s[c + 1..j - 1];
    assert s[i + 1..j - 1] == d + "," + e;
    TwoBounds(d, e, s[i + 1..j - 1], j);
    BracesConsumed(s, i, j, Value(d), Some(Value(e)));
  }

  lemma MarkConsumed(s: string, i: nat, j: nat)
    requires i <= j <= |s| && M(OneOf({'?', '*', '+'}), s, i, j)
    ensures Consumed(s, i, j, true)
  {
    assert s[i] == '?' || s[i] == '*' || s[i] == '+';
  }

  /** Every variable quantifier is consumed whole and has strictly increasing effective bounds. */
  lemma VariableConsumed(s: string, i: nat, j: nat)
    requires i <= j <= |s| && M(VariableQuantifier(), s, i, j)
    ensures Consumed(s, i, j, true)
  {
    var marks: Re<char> := OneOf({'?', '*', '+'});
    var parts := [marks, Braced(Cat(BelowMaximum(), Lit(','))), Braced(IncreasingPair())];
    AltAllMeaning(parts, s, i, j);
    hide M, AltAll, Braced, BelowMaximum, IncreasingPair, Consumed;
    var n :| 0 <= n < |parts| && M(parts[n], s, i, j);
    if n == 0 {
      MarkConsumed(s, i, j);
    } else if n == 1 {
      OpenRangeConsumed(s, i, j);
    } else {
      PairConsumed(s, i, j);
    }
  }

  /** The two kinds of quantifier share no text. */
  lemma QuantifiersDisjoint(s: string, i: nat, j: nat, k: nat)
    requires i <= j <= |s| && i <= k <= |s|
    requires M(FixedQuantifier(), s, i, j)
    ensures !M(VariableQuantifier(), s, i, k)
  {
    FixedConsumed(s, i, j);
    if M(VariableQuantifier(), s, i, k) {
      VariableConsumed(s, i, k);
    }
  }
}
