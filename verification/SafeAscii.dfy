/** Everything the published pattern can match is printable ASCII. */
module SafeAscii {
  import opened Regex
  import opened SafePattern
  import opened SafePairs

  // ------------------------------------------------------------ one constructor at a time

  lemma ClassDraws(cs: set<char>)
    requires forall c :: c in cs ==> IsPrintable(c)
    ensures Draws(OneOf(cs), PRINTABLE)
  {
  }

  lemma LitDraws(c: char)
    requires IsPrintable(c)
    ensures Draws(Lit(c), PRINTABLE)
  {
  }

  lemma BetweenDraws(lo: char, hi: char)
    requires IsPrintable(lo) && IsPrintable(hi)
    ensures Draws(Between(lo, hi), PRINTABLE)
  {
    var cs := set c: char | InRange(c, lo, hi);
    assert forall c :: c in cs ==> IsPrintable(c);
    ClassDraws(cs);
  }

  lemma CatDraws(left: Re<char>, right: Re<char>)
    requires Draws(left, PRINTABLE) && Draws(right, PRINTABLE)
    ensures Draws(Cat(left, right), PRINTABLE)
  {
  }

  lemma AltDraws(left: Re<char>, right: Re<char>)
    requires Draws(left, PRINTABLE) && Draws(right, PRINTABLE)
    ensures Draws(Alt(left, right), PRINTABLE)
  {
  }

  lemma OptDraws(re: Re<char>)
    requires Draws(re, PRINTABLE)
    ensures Draws(Opt(re), PRINTABLE)
  {
  }

  lemma StarDraws(re: Re<char>)
    requires Draws(re, PRINTABLE)
    ensures Draws(Star(re), PRINTABLE)
  {
  }

  lemma PlusDraws(re: Re<char>)
    requires Draws(re, PRINTABLE)
    ensures Draws(Plus(re), PRINTABLE)
  {
    StarDraws(re);
    CatDraws(re, Star(re));
  }

  lemma TimesDraws(re: Re<char>, lo: nat, hi: nat)
    requires Draws(re, PRINTABLE)
    ensures Draws(Times(re, lo, hi), PRINTABLE)
  {
  }

  lemma ThreeDraw(a: Re<char>, b: Re<char>, c: Re<char>)
    requires Draws(a, PRINTABLE) && Draws(b, PRINTABLE) && Draws(c, PRINTABLE)
    ensures Draws(AltAll([a, b, c]), PRINTABLE)
  {
    AltAllDraws([a, b, c], PRINTABLE);
  }

  // ------------------------------------------------------------ atoms

  lemma RangeDraws(lo: char, hi: char)
    requires IsPrintable(lo) && IsPrintable(hi)
    ensures Draws(Range(lo, hi), PRINTABLE)
  {
    LitDraws(lo);
    LitDraws('-');
    LitDraws(hi);
    hide Draws, Lit;
    CatDraws(Lit('-'), Lit(hi));
    CatDraws(Lit(lo), Cat(Lit('-'), Lit(hi)));
  }

  lemma RangesDraw()
    ensures Draws(PublishedRanges(), PRINTABLE)
  {
    RangeDraws('0', '9');
    RangeDraws('A', 'Z');
    RangeDraws('a', 'z');
    RangeDraws(' ', '~');
    hide Draws, Range, AltAll;
    AltAllDraws([Range('0', '9'), Range('A', 'Z'), Range('a', 'z'), Range(' ', '~')], PRINTABLE);
  }

  lemma EscapeDraws()
    ensures Draws(ApprovedEscape(), PRINTABLE)
  {
    ClassDraws(SHORTHANDS);
    ClassDraws(ESCAPED);
    LitDraws('\\');
    hide Draws, Lit;
    AltDraws(OneOf(SHORTHANDS), OneOf(ESCAPED));
    CatDraws(Lit('\\'), Alt(OneOf(SHORTHANDS), OneOf(ESCAPED)));
  }

  lemma ItemsDraw()
    ensures Draws(Item(), PRINTABLE) && Draws(FirstItem(), PRINTABLE)
  {
    EscapeDraws();
    RangesDraw();
    ClassDraws(PLAIN);
    ClassDraws(FIRST_PLAIN);
    hide Draws, ApprovedEscape, PublishedRanges, AltAll;
    ThreeDraw(ApprovedEscape(), OneOf(PLAIN), PublishedRanges());
    ThreeDraw(ApprovedEscape(), OneOf(FIRST_PLAIN), PublishedRanges());
  }

  lemma ItemRunDraws(first: Re<char>)
    requires Draws(first, PRINTABLE)
    ensures Draws(Items(first), PRINTABLE)
  {
    hide Draws, Lit, Item, Opt;
    ItemsDraw();
    LitDraws('-');
    OptDraws(Lit('-'));
    StarDraws(Item());
    CatDraws(Star(Item()), Opt(Lit('-')));
    CatDraws(first, Cat(Star(Item()), Opt(Lit('-'))));
  }

  lemma ClassBodyDraws(first: Re<char>)
    requires Draws(first, PRINTABLE)
    ensures Draws(ClassBody(first), PRINTABLE)
  {
    hide Draws, Lit, Item, Opt, Items, AltAll;
    ItemsDraw();
    ItemRunDraws(first);
    ItemRunDraws(Item());
    LitDraws('-');
    OptDraws(Lit('-'));
    CatDraws(Lit('-'), Opt(Lit('-')));
    CatDraws(Lit('-'), Items(Item()));
    ThreeDraw(HyphensOnly(), Items(first), Cat(Lit('-'), Items(Item())));
  }

  lemma AtomDraws()
    ensures Draws(Atom(), PRINTABLE)
  {
    ClassDraws(LITERALS);
    hide Draws, Lit, Item, FirstItem, ClassBody, ApprovedEscape, AltAll;
    EscapeDraws();
    ItemsDraw();
    ClassBodyDraws(Item());
    ClassBodyDraws(FirstItem());
    LitDraws('[');
    LitDraws(']');
    LitDraws('^');
    var negated, plain := Cat(Lit('^'), ClassBody(Item())), ClassBody(FirstItem());
    CatDraws(Lit('^'), ClassBody(Item()));
    AltDraws(negated, plain);
    CatDraws(Alt(negated, plain), Lit(']'));
    CatDraws(Lit('['), Cat(Alt(negated, plain), Lit(']')));
    ThreeDraw(OneOf(LITERALS), ApprovedEscape(), CharacterClassAtom());
  }

  // ------------------------------------------------------------ quantifiers

  lemma DigitsDraw()
    ensures Draws(Digits(), PRINTABLE) && Draws(NonZero(), PRINTABLE)
  {
    BetweenDraws('0', '9');
    BetweenDraws('1', '9');
  }

  /** The numbers that start with `40`, whose last two digits go up to `9` and `top`. */
  lemma FortyDraws(top: char)
    requires '0' <= top <= '9'
    ensures Draws(Cat(Lit('4'), Cat(Lit('0'), Alt(Cat(Between('0', '8'), Digits()),
                                                   Cat(Lit('9'), Between('0', top))))), PRINTABLE)
  {
    LitDraws('4');
    LitDraws('0');
    LitDraws('9');
    BetweenDraws('0', '8');
    BetweenDraws('0', top);
    DigitsDraw();
    hide Draws, Lit, Between, Digits;
    var low, high := Cat(Between('0', '8'), Digits()), Cat(Lit('9'), Between('0', top));
    CatDraws(Between('0', '8'), Digits());
    CatDraws(Lit('9'), Between('0', top));
    AltDraws(low, high);
    CatDraws(Lit('0'), Alt(low, high));
    CatDraws(Lit('4'), Cat(Lit('0'), Alt(low, high)));
  }

  lemma NumberDraws(top: char)
    requires '0' <= top <= '9'
    ensures Draws(NumberUpTo(top), PRINTABLE) && Draws(PositiveUpTo(top), PRINTABLE)
  {
    LitDraws('0');
    BetweenDraws('1', '3');
    DigitsDraw();
    FortyDraws(top);
    hide Draws, Lit, Between, Digits, NonZero, AltAll;
    TimesDraws(Digits(), 0, 2);
    TimesDraws(Digits(), 3, 3);
    CatDraws(NonZero(), Times(Digits(), 0, 2));
    CatDraws(Between('1', '3'), Times(Digits(), 3, 3));
    ThreeDraw(Cat(NonZero(), Times(Digits(), 0, 2)),
              Cat(Between('1', '3'), Times(Digits(), 3, 3)),
              Cat(Lit('4'), Cat(Lit('0'), Alt(Cat(Between('0', '8'), Digits()), Cat(Lit('9'), Between('0', top))))));
    AltDraws(Lit('0'), PositiveUpTo(top));
  }

  lemma WidthDraws(width: nat)
    requires width >= 1
    ensures Draws(OfWidth(width), PRINTABLE) && Draws(WiderNumber(width), PRINTABLE)
  {
    DigitsDraw();
    hide Draws, Digits, NonZero;
    TimesDraws(Digits(), width - 1, width - 1);
    CatDraws(NonZero(), Times(Digits(), width - 1, width - 1));
  }

  lemma MaximumDraws()
    ensures Draws(Maximum(), PRINTABLE)
  {
    LitDraws('4');
    LitDraws('0');
    LitDraws('9');
    LitDraws('6');
    hide Draws, Lit;
    CatDraws(Lit('9'), Lit('6'));
    CatDraws(Lit('0'), Cat(Lit('9'), Lit('6')));
    CatDraws(Lit('4'), Cat(Lit('0'), Cat(Lit('9'), Lit('6'))));
  }

  lemma PairDraws(low: Re<char>, high: Re<char>)
    requires Draws(low, PRINTABLE) && Draws(high, PRINTABLE)
    ensures Draws(Pair(low, high), PRINTABLE)
  {
    LitDraws(',');
    hide Draws, Lit;
    CatDraws(Lit(','), high);
    CatDraws(low, Cat(Lit(','), high));
  }

  lemma BranchDraws(n: nat)
    requires n < 17
    ensures Draws(Pair(BranchLow(n), BranchHigh(n)), PRINTABLE)
  {
    hide Draws, Pair, OfWidth, WiderNumber, Lit, Between, NumberUpTo, PositiveUpTo, Maximum;
    if n == 0 {
      LitDraws('0');
      NumberDraws('6');
    } else if n == 1 {
      NumberDraws('5');
      MaximumDraws();
    } else if n < 8 {
      WidthDraws(MIN_WIDTHS[n - 2]);
      WidthDraws(MAX_WIDTHS[n - 2]);
    } else {
      LitDraws(('0' as int + (n - 8)) as char);
      BetweenDraws(('0' as int + (n - 8) + 1) as char, '9');
    }
    PairDraws(BranchLow(n), BranchHigh(n));
  }

  lemma IncreasingPairDraws()
    ensures Draws(IncreasingPair(), PRINTABLE)
  {
    hide AltAll, PairBranches, Pair, BoundedNumber, BranchLow, BranchHigh;
    BranchesArePairs(0);
    var branches := PairBranches();
    forall n | 0 <= n < |branches| ensures Draws(branches[n], PRINTABLE) {
      BranchesArePairs(n);
      BranchDraws(n);
    }
    AltAllDraws(branches, PRINTABLE);
  }

  lemma BracedDraws(inner: Re<char>)
    requires Draws(inner, PRINTABLE)
    ensures Draws(Braced(inner), PRINTABLE)
  {
    LitDraws('{');
    LitDraws('}');
    hide Draws, Lit;
    CatDraws(inner, Lit('}'));
    CatDraws(Lit('{'), Cat(inner, Lit('}')));
  }

  lemma QuantifiersDraw()
    ensures Draws(FixedQuantifier(), PRINTABLE) && Draws(VariableQuantifier(), PRINTABLE)
  {
    ClassDraws({'?', '*', '+'});
    LitDraws(',');
    hide Draws, Lit, NumberUpTo, Maximum, IncreasingPair, Braced, AltAll;
    NumberDraws('6');
    NumberDraws('5');
    MaximumDraws();
    IncreasingPairDraws();
    CatDraws(Maximum(), Lit(','));
    CatDraws(BelowMaximum(), Lit(','));
    BracedDraws(BoundedNumber());
    BracedDraws(Cat(Maximum(), Lit(',')));
    BracedDraws(Cat(BelowMaximum(), Lit(',')));
    BracedDraws(IncreasingPair());
    AltDraws(Braced(BoundedNumber()), Braced(Cat(Maximum(), Lit(','))));
    ThreeDraw(OneOf({'?', '*', '+'}), Braced(Cat(BelowMaximum(), Lit(','))), Braced(IncreasingPair()));
  }

  // ------------------------------------------------------------ the whole pattern

  lemma BodyDraws()
    ensures Draws(SafeBody(), PRINTABLE)
  {
    hide Draws, Atom, FixedQuantifier, VariableQuantifier, Opt, Plus;
    AtomDraws();
    QuantifiersDraw();
    var atom := Atom();
    var fixed, variable := Cat(atom, FixedQuantifier()), Cat(atom, VariableQuantifier());
    CatDraws(atom, FixedQuantifier());
    CatDraws(atom, VariableQuantifier());
    StarDraws(atom);
    PlusDraws(atom);
    OptDraws(fixed);
    CatDraws(fixed, Plus(atom));
    CatDraws(Plus(atom), fixed);
    StarDraws(Cat(fixed, Plus(atom)));
    StarDraws(Cat(Plus(atom), fixed));
    var before := Cat(Star(atom), Star(Cat(fixed, Plus(atom))));
    var after := Cat(Star(Cat(Plus(atom), fixed)), Star(atom));
    CatDraws(Star(atom), Star(Cat(fixed, Plus(atom))));
    CatDraws(Star(Cat(Plus(atom), fixed)), Star(atom));
    CatDraws(before, Opt(fixed));
    CatDraws(variable, after);
    CatDraws(before, Cat(variable, after));
    AltDraws(Cat(before, Opt(fixed)), Cat(before, Cat(variable, after)));
  }

  lemma EndDraws()
    ensures Draws(Cat(Dollar({'\n'}), NotAhead(OneOf(ANY))), PRINTABLE)
  {
  }

  /** No class of the pattern outside its lookaheads holds anything but printable ASCII. */
  lemma PatternDraws()
    ensures Draws(SafeLexicalPattern(), PRINTABLE)
  {
    assert Draws(Caret, PRINTABLE);
    LitDraws('^');
    LitDraws('$');
    EndDraws();
    hide Draws, SafeBody, Lit, Opt;
    BodyDraws();
    var end := Cat(Dollar({'\n'}), NotAhead(OneOf(ANY)));
    OptDraws(Lit('^'));
    OptDraws(Lit('$'));
    CatDraws(Opt(Lit('$')), end);
    CatDraws(SafeBody(), Cat(Opt(Lit('$')), end));
    CatDraws(Opt(Lit('^')), Cat(SafeBody(), Cat(Opt(Lit('$')), end)));
    CatDraws(Caret, Cat(Opt(Lit('^')), Cat(SafeBody(), Cat(Opt(Lit('$')), end))));
  }

  /** Every accepted text is printable ASCII. */
  lemma AcceptedIsPrintable(s: string)
    requires Accepted(s)
    ensures forall p :: 0 <= p < |s| ==> IsPrintable(s[p])
  {
    hide Draws, M, SafeLexicalPattern;
    PatternDraws();
    DrawsOnly(SafeLexicalPattern(), PRINTABLE, s, 0, |s|);
    assert forall c :: c in PRINTABLE ==> IsPrintable(c);
  }
}
