/** The builders of the published safe-regex grammar, fragment by fragment. */
module SafePattern {
  import opened Regex
  import opened UnitShapes

  const PATTERN_MAX_CHARACTERS: nat := 256
  const INPUT_MAX_CHARACTERS: nat := 4096
  const REPEAT_MAXIMUM: nat := 4096

  // ------------------------------------------------------------ characters

  predicate IsPrintable(c: char) {
    ' ' <= c <= '~'
  }

  predicate IsDigitChar(c: char) {
    '0' <= c <= '9'
  }

  predicate IsAlnum(c: char) {
    IsDigitChar(c) || 'A' <= c <= 'Z' || 'a' <= c <= 'z'
  }

  predicate IsShorthand(c: char) {
    c == 'd' || c == 'D' || c == 's' || c == 'S' || c == 'w' || c == 'W'
  }

  /** Characters that mean something outside a class. */
  predicate IsSpecial(c: char) {
    c == '^' || c == '$' || c == '[' || c == '\\' || c == '(' || c == ')' || c == '|' || c == '.'
    || c == '*' || c == '+' || c == '?' || c == '{' || c == '}' || c == ']'
  }

  /** Characters that mean something inside a class. */
  predicate IsClassSyntax(c: char) {
    c == '[' || c == ']' || c == '\\' || c == '-'
  }

  const PRINTABLE: set<char> := set c: char | IsPrintable(c)
  const LITERALS: set<char> := set c: char | IsPrintable(c) && !IsSpecial(c)
  const PLAIN: set<char> := set c: char | IsPrintable(c) && !IsClassSyntax(c)
  const FIRST_PLAIN: set<char> := set c: char | IsPrintable(c) && !IsClassSyntax(c) && c != '^'
  const SHORTHANDS: set<char> := set c: char | IsShorthand(c)
  const ESCAPED: set<char> := set c: char | IsPrintable(c) && !IsAlnum(c)

  function Lit(c: char): Re<char> {
    OneOf({c})
  }

  predicate InRange(c: char, lo: char, hi: char) {
    lo <= c <= hi
  }

  function Between(lo: char, hi: char): Re<char> {
    OneOf(set c: char | InRange(c, lo, hi))
  }

  function Digits(): Re<char> {
    Between('0', '9')
  }

  function NonZero(): Re<char> {
    Between('1', '9')
  }

  // ------------------------------------------------------------ atoms

  function ApprovedEscape(): Re<char> {
    Cat(Lit('\\'), Alt(OneOf(SHORTHANDS), OneOf(ESCAPED)))
  }

  function Range(lo: char, hi: char): Re<char> {
    Cat(Lit(lo), Cat(Lit('-'), Lit(hi)))
  }

  function PublishedRanges(): Re<char> {
    AltAll([Range('0', '9'), Range('A', 'Z'), Range('a', 'z'), Range(' ', '~')])
  }

  function FirstItem(): Re<char> {
    AltAll([ApprovedEscape(), OneOf(FIRST_PLAIN), PublishedRanges()])
  }

  function Item(): Re<char> {
    AltAll([ApprovedEscape(), OneOf(PLAIN), PublishedRanges()])
  }

  function HyphensOnly(): Re<char> {
    Cat(Lit('-'), Opt(Lit('-')))
  }

  /** One item of kind `first`, more items, and perhaps a closing hyphen. */
  function Items(first: Re<char>): Re<char> {
    Cat(first, Cat(Star(Item()), Opt(Lit('-'))))
  }

  function ClassBody(first: Re<char>): Re<char> {
    AltAll([HyphensOnly(), Items(first), Cat(Lit('-'), Items(Item()))])
  }

  function CharacterClassAtom(): Re<char> {
    Cat(Lit('['), Cat(Alt(Cat(Lit('^'), ClassBody(Item())), ClassBody(FirstItem())), Lit(']')))
  }

  function Atom(): Re<char> {
    AltAll([OneOf(LITERALS), ApprovedEscape(), CharacterClassAtom()])
  }

  // ------------------------------------------------------------ numbers

  /** `0 | [1-9][0-9]{0,2} | [1-3][0-9]{3} | 40([0-8][0-9] | 9[0-top])` */
  function NumberUpTo(top: char): Re<char> {
    Alt(Lit('0'), PositiveUpTo(top))
  }

  function PositiveUpTo(top: char): Re<char> {
    AltAll([Cat(NonZero(), Times(Digits(), 0, 2)),
            Cat(Between('1', '3'), Times(Digits(), 3, 3)),
            Cat(Lit('4'), Cat(Lit('0'), Alt(Cat(Between('0', '8'), Digits()), Cat(Lit('9'), Between('0', top)))))])
  }

  function BoundedNumber(): Re<char> {
    NumberUpTo('6')
  }

  function BelowMaximum(): Re<char> {
    NumberUpTo('5')
  }

  function Maximum(): Re<char> {
    Cat(Lit('4'), Cat(Lit('0'), Cat(Lit('9'), Lit('6'))))
  }

  function OfWidth(width: nat): Re<char>
    requires width >= 1
  {
    if width == 1 then Digits() else Cat(NonZero(), Times(Digits(), width - 1, width - 1))
  }

  /** A canonical number of the greater width: never starts with zero. */
  function WiderNumber(width: nat): Re<char>
    requires width >= 1
  {
    Cat(NonZero(), Times(Digits(), width - 1, width - 1))
  }

  // ------------------------------------------------------------ quantifiers

  function Pair(low: Re<char>, high: Re<char>): Re<char> {
    Cat(low, Cat(Lit(','), high))
  }

  /** Every pair of widths, the first the smaller, both at most four. */
  function WidthBranches(): seq<Re<char>> {
    [Pair(OfWidth(1), WiderNumber(2)), Pair(OfWidth(1), WiderNumber(3)), Pair(OfWidth(1), WiderNumber(4)),
     Pair(OfWidth(2), WiderNumber(3)), Pair(OfWidth(2), WiderNumber(4)), Pair(OfWidth(3), WiderNumber(4))]
  }

  function DigitBranch(low: nat): Re<char>
    requires low < 9
  {
    Pair(Lit(('0' as int + low) as char), Between(('0' as int + low + 1) as char, '9'))
  }

  function PairBranches(): seq<Re<char>> {
    [Pair(Lit('0'), PositiveUpTo('6')), Pair(BelowMaximum(), Maximum())]
    + WidthBranches()
    + seq(9, low requires 0 <= low < 9 => DigitBranch(low))
  }

  function IncreasingPair(): Re<char> {
    Cat(Ahead(Cat(Pair(BoundedNumber(), BoundedNumber()), Lit('}'))), AltAll(PairBranches()))
  }

  function Braced(inner: Re<char>): Re<char> {
    Cat(Lit('{'), Cat(inner, Lit('}')))
  }

  function FixedQuantifier(): Re<char> {
    Alt(Braced(BoundedNumber()), Braced(Cat(Maximum(), Lit(','))))
  }

  function VariableQuantifier(): Re<char> {
    AltAll([OneOf({'?', '*', '+'}), Braced(Cat(BelowMaximum(), Lit(','))), Braced(IncreasingPair())])
  }

  // ------------------------------------------------------------ the whole pattern

  /** The text of one unit of each kind. */
  function UnitText(k: Kind): Re<char> {
    match k
    case U => Atom()
    case F => Cat(Atom(), FixedQuantifier())
    case V => Cat(Atom(), VariableQuantifier())
  }

  function SafeBody(): Re<char> {
    var atom := Atom();
    var fixed := Cat(atom, FixedQuantifier());
    var variable := Cat(atom, VariableQuantifier());
    var before := Cat(Star(atom), Star(Cat(fixed, Plus(atom))));
    var after := Cat(Star(Cat(Plus(atom), fixed)), Star(atom));
    Alt(Cat(before, Opt(fixed)), Cat(before, Cat(variable, after)))
  }

  const ANY: set<char> := set c: char | IsPrintable(c) || !IsPrintable(c)

  /** The anchored pattern; the closing lookahead keeps `$` off a final newline. */
  function SafeLexicalPattern(): Re<char> {
    Cat(Caret, Cat(Opt(Lit('^')), Cat(SafeBody(), Cat(Opt(Lit('$')),
        Cat(Dollar({'\n'}), NotAhead(OneOf(ANY)))))))
  }

  ghost predicate Accepted(s: string) {
    |s| <= PATTERN_MAX_CHARACTERS && M(SafeLexicalPattern(), s, 0, |s|)
  }
}
