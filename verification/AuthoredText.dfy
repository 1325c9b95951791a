/** The published atom and quantifier fragments, exactly: the texts they match and no others. */
module AuthoredText {
  import opened Regex
  import opened Decimals
  import opened PatternText
  import opened SafePattern
  import opened SafeNumbers
  import opened SafePairs

  lemma SpanCat(s: string, i: nat, k: nat, j: nat)
    requires i <= k <= j <= |s|
    ensures s[i..j] == s[i..k] + s[k..j]
  {
  }

  // ------------------------------------------------------------ escapes, ranges, items

  lemma EscapeMeaning(s: string, i: nat, j: nat)
    requires i <= j <= |s|
    ensures M(ApprovedEscape(), s, i, j) <==> AuthoredEscape(s[i..j])
  {
    ClassThen({'\\'}, Alt(OneOf(SHORTHANDS), OneOf(ESCAPED)), s, i, j);
    if i < j {
      AltMeaning(OneOf(SHORTHANDS), OneOf(ESCAPED), s, i + 1, j);
      ClassMeaning(SHORTHANDS, s, i + 1, j);
      ClassMeaning(ESCAPED, s, i + 1, j);
      assert s[i..j][0] == s[i];
      if j == i + 2 { assert s[i..j][1] == s[i + 1]; }
    }
    hide M;
  }

  lemma RangeMeaning(lo: char, hi: char, s: string, i: nat, j: nat)
    requires i <= j <= |s|
    ensures M(Range(lo, hi), s, i, j) <==> s[i..j] == [lo, '-', hi]
  {
    ClassThen({lo}, Cat(Lit('-'), Lit(hi)), s, i, j);
    if i < j {
      ClassThen({'-'}, Lit(hi), s, i + 1, j);
      if i + 1 < j { ClassMeaning({hi}, s, i + 2, j); }
    }
    hide M;
    if j == i + 3 { assert s[i..j] == [s[i], s[i + 1], s[i + 2]]; }
  }

  lemma RangesMeaning(s: string, i: nat, j: nat)
    requires i <= j <= |s|
    ensures M(PublishedRanges(), s, i, j) <==>
              s[i..j] == "0-9" || s[i..j] == "A-Z" || s[i..j] == "a-z" || s[i..j] == " -~"
  {
    var parts := [Range('0', '9'), Range('A', 'Z'), Range('a', 'z'), Range(' ', '~')];
    AltAllMeaning(parts, s, i, j);
    RangeMeaning('0', '9', s, i, j);
    RangeMeaning('A', 'Z', s, i, j);
    RangeMeaning('a', 'z', s, i, j);
    RangeMeaning(' ', '~', s, i, j);
    hide M, AltAll, Range;
    assert M(parts[0], s, i, j) || M(parts[1], s, i, j) || M(parts[2], s, i, j) || M(parts[3], s, i, j)
           <==> exists n :: 0 <= n < |parts| && M(parts[n], s, i, j);
  }

  lemma OneMeaning(cs: set<char>, s: string, i: nat, j: nat)
    requires i <= j <= |s|
    ensures M(OneOf(cs), s, i, j) <==> |s[i..j]| == 1 && s[i..j][0] in cs
  {
  }

  lemma ItemMeaning(s: string, i: nat, j: nat)
    requires i <= j <= |s|
    ensures M(Item(), s, i, j) <==> AuthoredItem(s[i..j])
  {
    ThreeMeaning(ApprovedEscape(), OneOf(PLAIN), PublishedRanges(), s, i, j);
    hide M, AltAll, ApprovedEscape, PublishedRanges, AuthoredEscape;
    EscapeMeaning(s, i, j);
    OneMeaning(PLAIN, s, i, j);
    RangesMeaning(s, i, j);
  }

  lemma FirstItemMeaning(s: string, i: nat, j: nat)
    requires i <= j <= |s|
    ensures M(FirstItem(), s, i, j) <==> AuthoredItem(s[i..j]) && s[i..j] != "^"
  {
    ThreeMeaning(ApprovedEscape(), OneOf(FIRST_PLAIN), PublishedRanges(), s, i, j);
    hide M, AltAll, ApprovedEscape, PublishedRanges;
    EscapeMeaning(s, i, j);
    OneMeaning(FIRST_PLAIN, s, i, j);
    RangesMeaning(s, i, j);
    assert s[i..j] == "^" <==> |s[i..j]| == 1 && s[i..j][0] == '^';
  }

  // ------------------------------------------------------------ class bodies

  lemma {:induction false} StarItems(s: string, i: nat, j: nat) returns (items: seq<string>)
    requires i <= j <= |s| && MStar(Item(), s, i, j)
    ensures (forall k :: 0 <= k < |items| ==> AuthoredItem(items[k])) && s[i..j] == Concat(items)
    decreases j - i
  {
    if i == j {
      items := [];
    } else {
      var k := StarSplit(Item(), s, i, j);
      var rest := StarItems(s, k, j);
      hide M, MStar, Item, AuthoredItem;
      ItemMeaning(s, i, k);
      SpanCat(s, i, k, j);
      items := [s[i..k]] + rest;
      assert items[1..] == rest;
    }
  }

  lemma {:induction false} ItemsStar(s: string, i: nat, j: nat, items: seq<string>)
    requires i <= j <= |s| && (forall k :: 0 <= k < |items| ==> AuthoredItem(items[k])) && s[i..j] == Concat(items)
    ensures MStar(Item(), s, i, j)
    decreases |items|
  {
    if items == [] {
      StarNone(Item(), s, i);
    } else {
      assert Concat(items) == items[0] + Concat(items[1..]);
      hide M, MStar, Item, AuthoredItem, Concat;
      var k := i + |items[0]|;
      CutAt(s, i, j, items[0], Concat(items[1..]));
      ItemMeaning(s, i, k);
      ItemsStar(s, k, j, items[1..]);
      StarJoin(Item(), s, i, k, j);
    }
  }

  /** A span that reads `a + b` is cut after `a`. */
  lemma CutAt(s: string, i: nat, j: nat, a: string, b: string)
    requires i <= j <= |s| && s[i..j] == a + b
    ensures i + |a| <= j && s[i..i + |a|] == a && s[i + |a|..j] == b
  {
    assert |s[i..j]| == j - i;
    assert s[i..i + |a|] == s[i..j][..|a|] == a;
    assert s[i + |a|..j] == s[i..j][|a|..] == b;
  }

  lemma HyphenMeaning(s: string, i: nat, j: nat)
    requires i <= j <= |s|
    ensures M(Opt(Lit('-')), s, i, j) <==> s[i..j] == "" || s[i..j] == "-"
  {
    AltMeaning(Lit('-'), Empty, s, i, j);
    LitMeaning('-', s, i, j);
  }

  /** Which first items a class body takes. */
  predicate Leads(first: Re<char>, t: string) {
    first == Item() || (first == FirstItem() && t != "^")
  }

  predicate ItemsFrom(first: Re<char>, items: seq<string>) {
    items != [] && (forall k :: 0 <= k < |items| ==> AuthoredItem(items[k])) && Leads(first, items[0])
  }

  lemma FirstMeaning(first: Re<char>, s: string, i: nat, j: nat)
    requires i <= j <= |s| && (first == Item() || first == FirstItem())
    ensures M(first, s, i, j) <==> AuthoredItem(s[i..j]) && (first == Item() || s[i..j] != "^")
  {
    hide M, Item, FirstItem, AuthoredItem;
    if first == Item() { ItemMeaning(s, i, j); } else { FirstItemMeaning(s, i, j); }
  }

  lemma ItemsSplit(first: Re<char>, s: string, i: nat, j: nat) returns (items: seq<string>, tail: bool)
    requires i <= j <= |s| && (first == Item() || first == FirstItem()) && M(Items(first), s, i, j)
    ensures ItemsFrom(first, items) && s[i..j] == Concat(items) + Hyphen(tail)
  {
    hide M, MStar, Item, FirstItem, Opt, AuthoredItem;
    var k := CatSplit(first, Cat(Star(Item()), Opt(Lit('-'))), s, i, j);
    var m := CatSplit(Star(Item()), Opt(Lit('-')), s, k, j);
    StarMeaning(Item(), s, k, m);
    var rest := StarItems(s, k, m);
    FirstMeaning(first, s, i, k);
    HyphenMeaning(s, m, j);
    SpanCat(s, i, k, j);
    SpanCat(s, k, m, j);
    items, tail := [s[i..k]] + rest, m < j;
    assert items[1..] == rest;
    assert s[m..j] == Hyphen(tail);
  }

  lemma ItemsJoin(first: Re<char>, s: string, i: nat, j: nat, items: seq<string>, tail: bool)
    requires i <= j <= |s| && (first == Item() || first == FirstItem())
    requires ItemsFrom(first, items) && s[i..j] == Concat(items) + Hyphen(tail)
    ensures M(Items(first), s, i, j)
  {
    hide M, MStar, Item, FirstItem, Opt, AuthoredItem;
    CutAt(s, i, j, Concat(items), Hyphen(tail));
    var m := i + |Concat(items)|;
    CutAt(s, i, m, items[0], Concat(items[1..]));
    var k := i + |items[0]|;
    FirstMeaning(first, s, i, k);
    ItemsStar(s, k, m, items[1..]);
    StarMeaning(Item(), s, k, m);
    HyphenMeaning(s, m, j);
    CatJoin(Star(Item()), Opt(Lit('-')), s, k, m, j);
    CatJoin(first, Cat(Star(Item()), Opt(Lit('-'))), s, i, k, j);
  }

  /** A class body reads as perhaps a hyphen, items, and perhaps a hyphen. */
  predicate BodyParts(first: Re<char>, lead: bool, items: seq<string>) {
    && (lead || items != [])
    && (forall k :: 0 <= k < |items| ==> AuthoredItem(items[k]))
    && (!lead && items != [] ==> Leads(first, items[0]))
  }

  lemma HyphensMeaning(s: string, i: nat, j: nat)
    requires i <= j <= |s|
    ensures M(HyphensOnly(), s, i, j) <==> s[i..j] == "-" || s[i..j] == "--"
  {
    ClassThen({'-'}, Opt(Lit('-')), s, i, j);
    if i < j {
      HyphenMeaning(s, i + 1, j);
      assert s[i..j] == [s[i]] + s[i + 1..j];
    }
    hide M;
  }

  /** A body that leads with a hyphen, and one that does not. */
  lemma LedBody(items: seq<string>, tail: bool)
    ensures Hyphen(true) + Concat(items) + Hyphen(tail) == "-" + (Concat(items) + Hyphen(tail))
    ensures Hyphen(false) + Concat(items) + Hyphen(tail) == Concat(items) + Hyphen(tail)
  {
    hide Concat;
  }

  lemma BodySplit(first: Re<char>, s: string, i: nat, j: nat) returns (lead: bool, items: seq<string>, tail: bool)
    requires i <= j <= |s| && (first == Item() || first == FirstItem()) && M(ClassBody(first), s, i, j)
    ensures BodyParts(first, lead, items) && s[i..j] == Hyphen(lead) + Concat(items) + Hyphen(tail)
  {
    hide M, AltAll, Item, FirstItem, HyphensOnly, Items, AuthoredItem;
    ThreeMeaning(HyphensOnly(), Items(first), Cat(Lit('-'), Items(Item())), s, i, j);
    if M(HyphensOnly(), s, i, j) {
      HyphensMeaning(s, i, j);
      lead, items, tail := true, [], s[i..j] == "--";
      LedBody(items, tail);
    } else if M(Items(first), s, i, j) {
      items, tail := ItemsSplit(first, s, i, j);
      lead := false;
      hide Concat, Hyphen;
      LedBody(items, tail);
    } else {
      ClassThen({'-'}, Items(Item()), s, i, j);
      items, tail := ItemsSplit(Item(), s, i + 1, j);
      lead := true;
      hide Concat, Hyphen;
      LedBody(items, tail);
      SpanCat(s, i, i + 1, j);
      assert s[i..i + 1] == "-";
    }
  }

  lemma BodyJoin(first: Re<char>, s: string, i: nat, j: nat, lead: bool, items: seq<string>, tail: bool)
    requires i <= j <= |s| && (first == Item() || first == FirstItem())
    requires BodyParts(first, lead, items) && s[i..j] == Hyphen(lead) + Concat(items) + Hyphen(tail)
    ensures M(ClassBody(first), s, i, j)
  {
    hide M, AltAll, Item, FirstItem, HyphensOnly, Items, AuthoredItem;
    ThreeMeaning(HyphensOnly(), Items(first), Cat(Lit('-'), Items(Item())), s, i, j);
    if items == [] {
      HyphensMeaning(s, i, j);
    } else if !lead {
      assert s[i..j] == Concat(items) + Hyphen(tail);
      ItemsJoin(first, s, i, j, items, tail);
    } else {
      assert s[i..j] == "-" + (Concat(items) + Hyphen(tail));
      CutAt(s, i, j, "-", Concat(items) + Hyphen(tail));
      ItemsJoin(Item(), s, i + 1, j, items, tail);
      assert s[i..i + 1][0] == '-';
      ClassThen({'-'}, Items(Item()), s, i, j);
    }
  }

  // ------------------------------------------------------------ classes and atoms

  /** What may follow the opening bracket of a class: a negation and any items, or items with a guarded first. */
  function FirstOf(hat: bool): Re<char> {
    if hat then Item() else FirstItem()
  }

  function BodyStart(i: nat, hat: bool): nat {
    if hat then i + 2 else i + 1
  }

  /** A class, taken apart at its brackets and its negation. */
  lemma ClassCut(s: string, i: nat, j: nat) returns (hat: bool)
    requires i <= j <= |s| && M(CharacterClassAtom(), s, i, j)
    ensures BodyStart(i, hat) < j && s[i] == '[' && (hat ==> s[i + 1] == '^') && s[j - 1] == ']'
    ensures M(ClassBody(FirstOf(hat)), s, BodyStart(i, hat), j - 1)
  {
    var negated, plain := Cat(Lit('^'), ClassBody(Item())), ClassBody(FirstItem());
    hide M, ClassBody, Item, FirstItem;
    ClassThen({'['}, Cat(Alt(negated, plain), Lit(']')), s, i, j);
    var k := CatSplit(Alt(negated, plain), Lit(']'), s, i + 1, j);
    ClassMeaning({']'}, s, k, j);
    AltMeaning(negated, plain, s, i + 1, k);
    hat := M(negated, s, i + 1, k);
    if hat { ClassThen({'^'}, ClassBody(Item()), s, i + 1, k); }
  }

  lemma ClassPaste(s: string, i: nat, j: nat, hat: bool)
    requires BodyStart(i, hat) < j <= |s| && s[i] == '[' && (hat ==> s[i + 1] == '^') && s[j - 1] == ']'
    requires M(ClassBody(FirstOf(hat)), s, BodyStart(i, hat), j - 1)
    ensures M(CharacterClassAtom(), s, i, j)
  {
    var negated, plain := Cat(Lit('^'), ClassBody(Item())), ClassBody(FirstItem());
    hide M, ClassBody, Item, FirstItem;
    if hat { ClassThen({'^'}, ClassBody(Item()), s, i + 1, j - 1); }
    AltMeaning(negated, plain, s, i + 1, j - 1);
    ClassMeaning({']'}, s, j - 1, j);
    CatJoin(Alt(negated, plain), Lit(']'), s, i + 1, j - 1, j);
    ClassThen({'['}, Cat(Alt(negated, plain), Lit(']')), s, i, j);
  }

  /** The text between the brackets. */
  lemma ClassSpan(s: string, i: nat, j: nat, hat: bool, body: string)
    requires i <= j <= |s|
    ensures s[i..j] == "[" + Negation(hat) + body + "]" <==>
              && BodyStart(i, hat) < j && s[i] == '[' && (hat ==> s[i + 1] == '^') && s[j - 1] == ']'
              && s[BodyStart(i, hat)..j - 1] == body
  {
    var open, b := "[" + Negation(hat), BodyStart(i, hat);
    assert open + body + "]" == open + (body + "]");
    if s[i..j] == open + body + "]" {
      CutAt(s, i, j, open, body + "]");
      CutAt(s, b, j, body, "]");
      OpenSpan(s, i, hat);
      assert s[j - 1..j][0] == ']';
    }
    if b < j && s[i] == '[' && (hat ==> s[i + 1] == '^') && s[j - 1] == ']' {
      OpenSpan(s, i, hat);
      assert s[j - 1..j] == "]";
      hide Negation;
      SpanCat(s, i, b, j);
      SpanCat(s, b, j - 1, j);
    }
  }

  lemma OpenSpan(s: string, i: nat, hat: bool)
    requires BodyStart(i, hat) <= |s|
    ensures |"[" + Negation(hat)| == BodyStart(i, hat) - i
    ensures s[i..BodyStart(i, hat)] == "[" + Negation(hat) <==> s[i] == '[' && (hat ==> s[i + 1] == '^')
  {
    var open, span := "[" + Negation(hat), s[i..BodyStart(i, hat)];
    assert open == if hat then ['[', '^'] else ['['];
    assert span == if hat then [s[i], s[i + 1]] else [s[i]];
    if span == open { assert span[0] == open[0] && (hat ==> span[1] == open[1]); }
  }

  lemma ClassTextCat(hat: bool, lead: bool, items: seq<string>, tail: bool)
    ensures AuthoredClassText(hat, lead, items, tail)
         == "[" + Negation(hat) + (Hyphen(lead) + Concat(items) + Hyphen(tail)) + "]"
  {
    hide Concat, Hyphen, Negation;
    var a, b, c, d := "[" + Negation(hat), Hyphen(lead), Concat(items), Hyphen(tail);
    assert a + b + c + d == a + (b + c + d);
  }

  lemma PartsOfBody(hat: bool, lead: bool, items: seq<string>)
    ensures BodyParts(FirstOf(hat), lead, items) <==> AuthoredParts(hat, lead, items)
  {
    FirstDiffers();
    hide Item, FirstItem, AuthoredItem;
  }

  /** What a published class matches, exactly. */
  lemma ClassMatches(s: string, i: nat, j: nat)
    requires i <= j <= |s|
    ensures M(CharacterClassAtom(), s, i, j) <==> AuthoredClass(s[i..j])
  {
    hide M, CharacterClassAtom, ClassBody, BodyParts, AuthoredParts, AuthoredClassText, Item, FirstItem;
    hide Concat, Hyphen, Negation;
    if M(CharacterClassAtom(), s, i, j) {
      var hat := ClassCut(s, i, j);
      var lead, items, tail := BodySplit(FirstOf(hat), s, BodyStart(i, hat), j - 1);
      PartsOfBody(hat, lead, items);
      ClassTextCat(hat, lead, items, tail);
      ClassSpan(s, i, j, hat, Hyphen(lead) + Concat(items) + Hyphen(tail));
    }
    if hat, lead, items, tail :|
        AuthoredParts(hat, lead, items) && s[i..j] == AuthoredClassText(hat, lead, items, tail) {
      ClassTextCat(hat, lead, items, tail);
      ClassSpan(s, i, j, hat, Hyphen(lead) + Concat(items) + Hyphen(tail));
      PartsOfBody(hat, lead, items);
      BodyJoin(FirstOf(hat), s, BodyStart(i, hat), j - 1, lead, items, tail);
      ClassPaste(s, i, j, hat);
    }
  }

  /** The two kinds of first item are different expressions: only one takes a bare `^`. */
  lemma FirstDiffers()
    ensures Item() != FirstItem()
  {
    hide Item, FirstItem;
    FirstItemMeaning("^", 0, 1);
    ItemMeaning("^", 0, 1);
    assert "^"[0..1] == "^";
  }

  /** What the published atom matches, exactly. */
  lemma AtomMeaning(s: string, i: nat, j: nat)
    requires i <= j <= |s|
    ensures M(Atom(), s, i, j) <==> AuthoredAtom(s[i..j])
  {
    ThreeMeaning(OneOf(LITERALS), ApprovedEscape(), CharacterClassAtom(), s, i, j);
    OneMeaning(LITERALS, s, i, j);
    EscapeMeaning(s, i, j);
    hide M, AltAll, ApprovedEscape, CharacterClassAtom, AuthoredClass, AuthoredEscape;
    ClassMatches(s, i, j);
  }

  // ------------------------------------------------------------ quantifiers

  lemma BracedMeaning(inner: Re<char>, s: string, i: nat, j: nat)
    requires i <= j <= |s|
    ensures M(Braced(inner), s, i, j) <==>
              i + 1 < j && s[i] == '{' && s[j - 1] == '}' && M(inner, s, i + 1, j - 1)
  {
    hide M;
    ClassThen({'{'}, Cat(inner, Lit('}')), s, i, j);
    if i < j {
      if M(Cat(inner, Lit('}')), s, i + 1, j) {
        var k := CatSplit(inner, Lit('}'), s, i + 1, j);
        LitMeaning('}', s, k, j);
        assert s[k..j][0] == '}';
      }
      if i + 1 < j && s[j - 1] == '}' && M(inner, s, i + 1, j - 1) {
        LitMeaning('}', s, j - 1, j);
        CatJoin(inner, Lit('}'), s, i + 1, j - 1, j);
      }
    }
  }

  lemma BracesAround(s: string, i: nat, j: nat, d: string)
    requires i <= j <= |s|
    ensures s[i..j] == "{" + d + "}" <==>
              i + 1 < j && s[i] == '{' && s[j - 1] == '}' && s[i + 1..j - 1] == d
  {
    if s[i..j] == "{" + d + "}" {
      assert "{" + d + "}" == "{" + (d + "}");
      CutAt(s, i, j, "{", d + "}");
      CutAt(s, i + 1, j, d, "}");
      assert s[i..i + 1][0] == '{' && s[j - 1..j][0] == '}';
    }
    if i + 1 < j && s[i] == '{' && s[j - 1] == '}' {
      assert s[i..j] == "{" + s[i + 1..j - 1] + "}";
    }
  }

  lemma NumberCommaMeaning(number: Re<char>, s: string, i: nat, j: nat)
    requires i <= j <= |s|
    ensures M(Cat(number, Lit(',')), s, i, j) <==> i < j && s[j - 1] == ',' && M(number, s, i, j - 1)
  {
    hide M;
    if M(Cat(number, Lit(',')), s, i, j) {
      var k := CatSplit(number, Lit(','), s, i, j);
      LitMeaning(',', s, k, j);
      assert s[k..j][0] == ',';
    }
    if i < j && s[j - 1] == ',' && M(number, s, i, j - 1) {
      LitMeaning(',', s, j - 1, j);
      CatJoin(number, Lit(','), s, i, j - 1, j);
    }
  }

  lemma CommaAfter(s: string, i: nat, j: nat, d: string)
    requires i <= j <= |s|
    ensures s[i..j] == d + "," <==> i < j && s[j - 1] == ',' && s[i..j - 1] == d
  {
    if s[i..j] == d + "," {
      assert s[i..j][j - i - 1] == ',';
      assert s[i..j - 1] == s[i..j][..j - i - 1] == d;
    }
    if i < j && s[j - 1] == ',' { assert s[i..j] == s[i..j - 1] + ","; }
  }

  /** A braced number: its text, exactly. */
  lemma BracedNumber(s: string, i: nat, j: nat)
    requires i <= j <= |s|
    ensures M(Braced(BoundedNumber()), s, i, j) <==>
              exists d :: Canonical(d) && Value(d) <= 4096 && s[i..j] == "{" + d + "}"
  {
    hide M, BoundedNumber;
    BracedMeaning(BoundedNumber(), s, i, j);
    if i + 1 < j {
      BoundedMeaning(s, i + 1, j - 1);
      BracesAround(s, i, j, s[i + 1..j - 1]);
    }
    if d :| Canonical(d) && Value(d) <= 4096 && s[i..j] == "{" + d + "}" {
      BracesAround(s, i, j, d);
    }
  }

  lemma OpenAround(s: string, i: nat, j: nat, d: string)
    requires i <= j <= |s|
    ensures s[i..j] == "{" + d + ",}" <==>
              i + 2 < j && s[i] == '{' && s[j - 2] == ',' && s[j - 1] == '}' && s[i + 1..j - 2] == d
  {
    assert "{" + d + ",}" == "{" + (d + ",") + "}";
    BracesAround(s, i, j, d + ",");
    if i + 1 < j { CommaAfter(s, i + 1, j - 1, d); }
  }

  lemma OpenMeaning(number: Re<char>, s: string, i: nat, j: nat)
    requires i <= j <= |s|
    ensures M(Braced(Cat(number, Lit(','))), s, i, j) <==>
              i + 2 < j && s[i] == '{' && s[j - 2] == ',' && s[j - 1] == '}' && M(number, s, i + 1, j - 2)
  {
    hide M, Braced;
    BracedMeaning(Cat(number, Lit(',')), s, i, j);
    if i + 1 < j { NumberCommaMeaning(number, s, i + 1, j - 1); }
  }

  lemma OpenMaximum(s: string, i: nat, j: nat)
    requires i <= j <= |s|
    ensures M(Braced(Cat(Maximum(), Lit(','))), s, i, j) <==> s[i..j] == "{4096,}"
  {
    hide M, Braced, Maximum;
    OpenMeaning(Maximum(), s, i, j);
    assert "{4096,}" == "{" + "4096" + ",}";
    OpenAround(s, i, j, "4096");
    if i + 2 < j { MaximumMeaning(s, i + 1, j - 2); }
  }

  /** What the fixed quantifiers match, exactly. */
  lemma FixedMeaning(s: string, i: nat, j: nat)
    requires i <= j <= |s|
    ensures M(FixedQuantifier(), s, i, j) <==> AuthoredFixed(s[i..j])
  {
    hide M, Braced, BoundedNumber, Maximum, Canonical, Value;
    AltMeaning(Braced(BoundedNumber()), Braced(Cat(Maximum(), Lit(','))), s, i, j);
    BracedNumber(s, i, j);
    OpenMaximum(s, i, j);
  }

  lemma OpenNumber(s: string, i: nat, j: nat)
    requires i <= j <= |s|
    ensures M(Braced(Cat(BelowMaximum(), Lit(','))), s, i, j) <==>
              exists d :: Canonical(d) && Value(d) < 4096 && s[i..j] == "{" + d + ",}"
  {
    hide M, Braced, NumberUpTo, Value;
    OpenMeaning(BelowMaximum(), s, i, j);
    if i + 2 < j {
      NumberMeaning('5', s, i + 1, j - 2);
      OpenAround(s, i, j, s[i + 1..j - 2]);
    }
    if d :| Canonical(d) && Value(d) < 4096 && s[i..j] == "{" + d + ",}" {
      OpenAround(s, i, j, d);
    }
  }

  lemma PairText(s: string, i: nat, j: nat)
    requires i <= j <= |s|
    ensures M(Braced(IncreasingPair()), s, i, j) <==>
              exists d, e :: PublishedPair(d, e) && s[i..j] == "{" + d + "," + e + "}"
  {
    hide M, IncreasingPair, PublishedPair;
    BracedMeaning(IncreasingPair(), s, i, j);
    if i + 1 < j && s[j - 1] == '}' {
      PairMeaning(s, i + 1, j - 1);
    }
    if M(Braced(IncreasingPair()), s, i, j) {
      var c: nat :| i + 1 < c < j - 1 && s[c] == ',' && PublishedPair(s[i + 1..c], s[c + 1..j - 1]);
      assert s[i + 1..j - 1] == s[i + 1..c] + "," + s[c + 1..j - 1];
      BracesAround(s, i, j, s[i + 1..c] + "," + s[c + 1..j - 1]);
      assert s[i..j] == "{" + s[i + 1..c] + "," + s[c + 1..j - 1] + "}";
    }
    if d, e :| PublishedPair(d, e) && s[i..j] == "{" + d + "," + e + "}" {
      assert "{" + d + "," + e + "}" == "{" + (d + ("," + e)) + "}";
      BracesAround(s, i, j, d + ("," + e));
      CutAt(s, i + 1, j - 1, d, "," + e);
      var c := i + 1 + |d|;
      assert s[c..j - 1][0] == ',';
      assert s[c + 1..j - 1] == s[c..j - 1][1..] == e;
      PairNonEmpty(d, e);
    }
  }

  lemma PairNonEmpty(d: string, e: string)
    requires PublishedPair(d, e)
    ensures d != "" && e != ""
  {
  }

  /** What the variable quantifiers match, exactly. */
  lemma VariableMeaning(s: string, i: nat, j: nat)
    requires i <= j <= |s|
    ensures M(VariableQuantifier(), s, i, j) <==> AuthoredVariable(s[i..j])
  {
    var marks: Re<char> := OneOf({'?', '*', '+'});
    ThreeMeaning(marks, Braced(Cat(BelowMaximum(), Lit(','))), Braced(IncreasingPair()), s, i, j);
    OneMeaning({'?', '*', '+'}, s, i, j);
    hide M, AltAll, Braced, BelowMaximum, IncreasingPair, PublishedPair, Canonical, Value;
    OpenNumber(s, i, j);
    PairText(s, i, j);
    var t := s[i..j];
    assert |t| == 1 && t[0] in {'?', '*', '+'} <==> t == "?" || t == "*" || t == "+";
  }
}
