/**
 The whole pattern: a string is accepted exactly when it decomposes into an
 optional `^`, units in an allowed arrangement and an optional `$`.
 */
module SafeUnits {
  import opened Wrappers
  import opened Regex
  import opened UnitShapes
  import opened Substitution
  import opened PatternText
  import opened AuthoredText
  import opened SafePattern
  import opened RuntimeScanner
  import opened SafeAtoms

  /** An atom `s[start..atomEnd]` and its quantifier `s[atomEnd..end]`, empty when unquantified. */
  datatype Unit = Unit(kind: Kind, start: nat, atomEnd: nat, end: nat)

  datatype Decomposition = Decomposition(hat: bool, units: seq<Unit>, dollar: bool)

  /** The text of an authored atom, and after it nothing or the text of an authored quantifier. */
  ghost predicate UnitOk(s: string, u: Unit) {
    && u.start <= u.atomEnd <= u.end <= |s|
    && AuthoredAtom(s[u.start..u.atomEnd])
    && match u.kind
       case U => u.end == u.atomEnd
       case F => AuthoredFixed(s[u.atomEnd..u.end])
       case V => AuthoredVariable(s[u.atomEnd..u.end])
  }

  lemma UnitMatches(s: string, u: Unit)
    requires u.start <= u.atomEnd <= u.end <= |s|
    ensures UnitOk(s, u) <==>
              && M(Atom(), s, u.start, u.atomEnd)
              && (u.kind == U ==> u.end == u.atomEnd)
              && (u.kind == F ==> M(FixedQuantifier(), s, u.atomEnd, u.end))
              && (u.kind == V ==> M(VariableQuantifier(), s, u.atomEnd, u.end))
  {
    hide M, Atom, FixedQuantifier, VariableQuantifier, AuthoredAtom, AuthoredFixed, AuthoredVariable;
    AtomMeaning(s, u.start, u.atomEnd);
    FixedMeaning(s, u.atomEnd, u.end);
    VariableMeaning(s, u.atomEnd, u.end);
  }

  function Start(d: Decomposition): nat {
    if d.hat then 1 else 0
  }

  /** Where unit `k` of a chain from `i` begins, or the chain ends. */
  function Edge(units: seq<Unit>, i: nat, k: nat): nat
    requires k <= |units|
  {
    if k == 0 then i else units[k - 1].end
  }

  /** Units one after the other, from `i` to `j`. */
  ghost predicate Chain(s: string, units: seq<Unit>, i: nat, j: nat) {
    && (forall k :: 0 <= k < |units| ==> UnitOk(s, units[k]))
    && (forall k :: 0 <= k < |units| ==> units[k].start == Edge(units, i, k))
    && j == Edge(units, i, |units|)
    && i <= j <= |s|
  }

  /** Where the units of a decomposition end. */
  function End(d: Decomposition): nat {
    Edge(d.units, Start(d), |d.units|)
  }

  function Kinds(units: seq<Unit>): (w: seq<Kind>)
    ensures |w| == |units| && forall k :: 0 <= k < |units| ==> w[k] == units[k].kind
  {
    seq(|units|, k requires 0 <= k < |units| => units[k].kind)
  }

  ghost predicate Decomposes(s: string, d: Decomposition) {
    && (d.hat ==> |s| > 0 && s[0] == '^')
    && Chain(s, d.units, Start(d), End(d))
    && Shaped(Kinds(d.units))
    && (if d.dollar then End(d) + 1 == |s| && s[|s| - 1] == '$' else End(d) == |s|)
  }

  // ------------------------------------------------------------ from the pattern to units

  lemma UnitOfText(k: Kind, s: string, i: nat, j: nat) returns (u: Unit)
    requires i <= j <= |s| && M(UnitText(k), s, i, j)
    ensures u.kind == k && u.start == i && u.end == j && UnitOk(s, u)
  {
    hide M, Atom, FixedQuantifier, VariableQuantifier, UnitOk;
    match k
    case U =>
      u := Unit(U, i, j, j);
      UnitMatches(s, u);
    case F =>
      var m := CatSplit(Atom(), FixedQuantifier(), s, i, j);
      u := Unit(F, i, m, j);
      UnitMatches(s, u);
    case V =>
      var m := CatSplit(Atom(), VariableQuantifier(), s, i, j);
      u := Unit(V, i, m, j);
      UnitMatches(s, u);
  }

  lemma TextOfUnit(s: string, u: Unit)
    requires UnitOk(s, u)
    ensures M(UnitText(u.kind), s, u.start, u.end)
  {
    assert u.start <= u.atomEnd <= u.end <= |s|;
    hide M, Atom, FixedQuantifier, VariableQuantifier, UnitOk;
    UnitMatches(s, u);
    match u.kind
    case U =>
    case F => CatJoin(Atom(), FixedQuantifier(), s, u.start, u.atomEnd, u.end);
    case V => CatJoin(Atom(), VariableQuantifier(), s, u.start, u.atomEnd, u.end);
  }

  function UnitTexts(): Kind -> Re<char> {
    (k: Kind) => UnitText(k)
  }

  lemma BodyIsSubstitution()
    ensures Lettered(Body()) && SafeBody() == Subst(Body(), UnitTexts())
  {
    hide Atom, FixedQuantifier, VariableQuantifier;
    var f := UnitTexts();
    assert f(U) == UnitText(U) && f(F) == UnitText(F) && f(V) == UnitText(V);
    BodyPiecesLettered();
    SubstBefore();
    SubstAfter();
    assert Subst(Opt(Letter(F)), f) == Opt(UnitText(F)) by { LetterSubst(F); }
    assert Subst(Letter(V), f) == UnitText(V) by { LetterSubst(V); }
  }

  lemma LetterSubst(k: Kind)
    ensures Lettered(Letter(k)) && Subst(Letter(k), UnitTexts()) == UnitText(k)
  {
    assert {U} != {F} && {U} != {V} && {F} != {V} by {
      assert U in {U} && U !in {F} && U !in {V} && F in {F} && F !in {V};
    }
  }

  lemma BodyPiecesLettered()
    ensures Lettered(Body())
    ensures Lettered(BeforeVariable()) && Lettered(AfterVariable())
    ensures Lettered(FixedThenUs()) && Lettered(UsThenFixed())
  {
  }

  lemma SubstBefore()
    ensures Lettered(BeforeVariable())
    ensures Subst(BeforeVariable(), UnitTexts())
         == Cat(Star(UnitText(U)), Star(Cat(UnitText(F), Plus(UnitText(U)))))
  {
    LetterSubst(U);
    LetterSubst(F);
    hide UnitText;
  }

  lemma SubstAfter()
    ensures Lettered(AfterVariable())
    ensures Subst(AfterVariable(), UnitTexts())
         == Cat(Star(Cat(Plus(UnitText(U)), UnitText(F))), Star(UnitText(U)))
  {
    LetterSubst(U);
    LetterSubst(F);
    hide UnitText;
  }

  /** Unit `u` is piece `k` of a spelled word. */
  ghost predicate IsPiece(u: Unit, s: string, w: seq<Kind>, cuts: seq<nat>, k: nat) {
    && k < |w| && |cuts| == |w| + 1
    && UnitOk(s, u) && u.kind == w[k] && u.start == cuts[k] && u.end == cuts[k + 1]
  }

  lemma PieceUnit(s: string, w: seq<Kind>, cuts: seq<nat>, k: nat) returns (u: Unit)
    requires Spelled(UnitTexts(), s, w, cuts) && k < |w|
    ensures IsPiece(u, s, w, cuts, k)
  {
    hide M, UnitOk, UnitText;
    var f := UnitTexts();
    assert cuts[k] <= cuts[k + 1] <= |s| && M(f(w[k]), s, cuts[k], cuts[k + 1]);
    assert f(w[k]) == UnitText(w[k]);
    u := UnitOfText(w[k], s, cuts[k], cuts[k + 1]);
  }

  lemma {:induction false} SpelledUnits(s: string, w: seq<Kind>, cuts: seq<nat>, n: nat) returns (units: seq<Unit>)
    requires Spelled(UnitTexts(), s, w, cuts) && n <= |w|
    ensures |units| == n && forall k :: 0 <= k < n ==> IsPiece(units[k], s, w, cuts, k)
  {
    hide IsPiece, UnitTexts, Spelled;
    if n == 0 {
      units := [];
    } else {
      var front := SpelledUnits(s, w, cuts, n - 1);
      var u := PieceUnit(s, w, cuts, n - 1);
      units := front + [u];
    }
  }

  lemma PiecesChain(s: string, w: seq<Kind>, cuts: seq<nat>, units: seq<Unit>)
    requires Spelled(UnitTexts(), s, w, cuts) && |units| == |w|
    requires forall k :: 0 <= k < |w| ==> IsPiece(units[k], s, w, cuts, k)
    ensures Kinds(units) == w && Chain(s, units, cuts[0], cuts[|w|])
  {
    CutsOrdered(UnitTexts(), s, w, cuts, 0, |w|);
    hide M, UnitOk, UnitTexts;
    assert forall k :: 0 <= k < |w| ==> IsPiece(units[k], s, w, cuts, k);
    forall k | 0 <= k < |w| ensures units[k].start == Edge(units, cuts[0], k) {
      assert IsPiece(units[k], s, w, cuts, k);
      if k > 0 { assert IsPiece(units[k - 1], s, w, cuts, k - 1); }
    }
  }

  /** A match of the generated body is a chain of units in an allowed arrangement. */
  lemma BodyGivesUnits(s: string, i: nat, j: nat) returns (units: seq<Unit>)
    requires i <= j <= |s| && M(SafeBody(), s, i, j)
    ensures Chain(s, units, i, j) && Shaped(Kinds(units)) && j == Edge(units, i, |units|)
  {
    BodyIsSubstitution();
    hide M, UnitOk, Shaped, SafeBody, Body, UnitTexts, Subst, Lettered;
    var w, cuts := MatchSpellsWord(Body(), UnitTexts(), s, i, j);
    BodyIsShaped(w);
    units := SpelledUnits(s, w, cuts, |w|);
    PiecesChain(s, w, cuts, units);
  }

  /** A chain of units in an allowed arrangement is a match of the generated body. */
  lemma UnitsGiveBody(s: string, i: nat, j: nat, units: seq<Unit>)
    requires Chain(s, units, i, j) && Shaped(Kinds(units))
    ensures M(SafeBody(), s, i, j)
  {
    BodyIsSubstitution();
    hide M, UnitOk, Shaped, SafeBody, Body, Subst, Lettered;
    var w := Kinds(units);
    var cuts: seq<nat> := seq(|w| + 1, k requires 0 <= k <= |w| => Edge(units, i, k));
    ChainSpells(s, units, i, j, cuts);
    BodyIsShaped(w);
    WordIsMatched(Body(), UnitTexts(), s, w, cuts, 0, |w|);
  }

  lemma ChainSpells(s: string, units: seq<Unit>, i: nat, j: nat, cuts: seq<nat>)
    requires Chain(s, units, i, j)
    requires |cuts| == |units| + 1 && forall k :: 0 <= k <= |units| ==> cuts[k] == Edge(units, i, k)
    ensures Spelled(UnitTexts(), s, Kinds(units), cuts)
  {
    hide M, UnitText, UnitOk, Chain, UnitTexts, Edge;
    var f, w := UnitTexts(), Kinds(units);
    ChainStart(s, units, i, j);
    forall k | 0 <= k < |w| ensures cuts[k] <= cuts[k + 1] {
      ChainPiece(s, units, i, j, k);
    }
    forall k | 0 <= k <= |w| ensures cuts[k] <= |s| {
      if k > 0 { ChainPiece(s, units, i, j, k - 1); }
    }
    forall k | 0 <= k < |w| ensures M(f(w[k]), s, cuts[k], cuts[k + 1]) {
      ChainPiece(s, units, i, j, k);
    }
  }

  lemma ChainStart(s: string, units: seq<Unit>, i: nat, j: nat)
    requires Chain(s, units, i, j)
    ensures Edge(units, i, 0) <= |s|
  {
    hide UnitOk;
  }

  lemma ChainPiece(s: string, units: seq<Unit>, i: nat, j: nat, k: nat)
    requires Chain(s, units, i, j) && k < |units|
    ensures Edge(units, i, k) <= Edge(units, i, k + 1) <= |s|
    ensures M(UnitTexts()(units[k].kind), s, Edge(units, i, k), Edge(units, i, k + 1))
  {
    ChainUnit(s, units, i, j, k);
    hide M, UnitText, UnitOk, Chain;
    TextOfUnit(s, units[k]);
    assert UnitTexts()(units[k].kind) == UnitText(units[k].kind);
  }

  /** One unit of a chain. */
  lemma ChainUnit(s: string, units: seq<Unit>, i: nat, j: nat, k: nat)
    requires Chain(s, units, i, j) && k < |units|
    ensures UnitOk(s, units[k]) && units[k].start == Edge(units, i, k)
    ensures units[k].start <= units[k].end <= |s|
  {
    hide M;
  }

  // ------------------------------------------------------------ the anchored whole

  lemma OptionalChar(ch: char, s: string, i: nat, j: nat)
    requires i <= j <= |s|
    ensures M(Opt(Lit(ch)), s, i, j) <==> j == i || (j == i + 1 && s[i] == ch)
  {
  }

  lemma NothingAhead(s: string, i: nat)
    requires i <= |s|
    ensures M(NotAhead(OneOf(ANY)), s, i, i) <==> i == |s|
  {
    if i < |s| {
      ClassMeaning(ANY, s, i, i + 1);
    }
  }

  lemma AheadStays(s: string, i: nat, j: nat)
    requires i <= j <= |s| && M(NotAhead(OneOf(ANY)), s, i, j)
    ensures i == j
  {
  }

  lemma DollarStays(s: string, i: nat, j: nat)
    requires i <= j <= |s| && M(Dollar({'\n'}), s, i, j)
    ensures i == j
  {
  }

  /** `$` followed by "nothing more" is the very end, not the place before a last newline. */
  lemma AbsoluteEnd(s: string, i: nat, j: nat)
    requires i <= j <= |s|
    ensures M(Cat(Dollar({'\n'}), NotAhead(OneOf(ANY))), s, i, j) <==> i == j == |s|
  {
    if M(Cat(Dollar({'\n'}), NotAhead(OneOf(ANY))), s, i, j) {
      var k := CatSplit(Dollar({'\n'}), NotAhead(OneOf(ANY)), s, i, j);
      DollarStays(s, i, k);
      AheadStays(s, k, j);
      NothingAhead(s, i);
    }
    if i == j == |s| {
      NothingAhead(s, i);
      CatJoin(Dollar({'\n'}), NotAhead(OneOf(ANY)), s, i, i, j);
    }
  }

  /** The pattern, taken apart at its anchors. */
  lemma PatternSplit(s: string) returns (a: nat, b: nat)
    requires M(SafeLexicalPattern(), s, 0, |s|)
    ensures a <= b <= |s| && M(SafeBody(), s, a, b)
    ensures a == 0 || (a == 1 && s[0] == '^')
    ensures b == |s| || (b + 1 == |s| && s[b] == '$')
  {
    hide M, SafeBody;
    var end := Cat(Dollar({'\n'}), NotAhead(OneOf(ANY)));
    var tail := Cat(Opt(Lit('$')), end);
    var middle := Cat(SafeBody(), tail);
    var z := CatSplit(Caret, Cat(Opt(Lit('^')), middle), s, 0, |s|);
    CaretIsStart(s, 0, z);
    a := CatSplit(Opt(Lit('^')), middle, s, 0, |s|);
    OptionalChar('^', s, 0, a);
    b := CatSplit(SafeBody(), tail, s, a, |s|);
    var e := CatSplit(Opt(Lit('$')), end, s, b, |s|);
    OptionalChar('$', s, b, e);
    AbsoluteEnd(s, e, |s|);
  }

  lemma CaretIsStart(s: string, i: nat, j: nat)
    requires i <= j <= |s|
    ensures M(Caret, s, i, j) <==> i == j == 0
  {
  }

  lemma PatternJoin(s: string, a: nat, b: nat)
    requires a <= b <= |s| && M(SafeBody(), s, a, b)
    requires a == 0 || (a == 1 && s[0] == '^')
    requires b == |s| || (b + 1 == |s| && s[b] == '$')
    ensures M(SafeLexicalPattern(), s, 0, |s|)
  {
    hide M, SafeBody;
    var end := Cat(Dollar({'\n'}), NotAhead(OneOf(ANY)));
    var tail := Cat(Opt(Lit('$')), end);
    AbsoluteEnd(s, |s|, |s|);
    OptionalChar('$', s, b, |s|);
    CatJoin(Opt(Lit('$')), end, s, b, |s|, |s|);
    CatJoin(SafeBody(), tail, s, a, b, |s|);
    OptionalChar('^', s, 0, a);
    CatJoin(Opt(Lit('^')), Cat(SafeBody(), tail), s, 0, a, |s|);
    CaretIsStart(s, 0, 0);
    CatJoin(Caret, Cat(Opt(Lit('^')), Cat(SafeBody(), tail)), s, 0, 0, |s|);
  }

  lemma PatternDecomposes(s: string) returns (d: Decomposition)
    requires M(SafeLexicalPattern(), s, 0, |s|)
    ensures Decomposes(s, d)
  {
    hide M, UnitOk, Shaped, Chain, SafeLexicalPattern, SafeBody, Kinds;
    var a, b := PatternSplit(s);
    var units := BodyGivesUnits(s, a, b);
    d := Decomposition(a == 1, units, b < |s|);
    assert Start(d) == a && End(d) == b;
  }

  lemma DecomposedSpan(s: string, d: Decomposition)
    requires Decomposes(s, d)
    ensures Start(d) <= End(d) <= |s|
  {
    hide Shaped;
  }

  lemma DecompositionIsPattern(s: string, d: Decomposition)
    requires Decomposes(s, d)
    ensures M(SafeLexicalPattern(), s, 0, |s|)
  {
    hide M, UnitOk, Shaped, Chain, SafeLexicalPattern, SafeBody, Kinds, End;
    DecomposedSpan(s, d);
    UnitsGiveBody(s, Start(d), End(d), d.units);
    PatternJoin(s, Start(d), End(d));
  }

  /** The generated pattern accepts exactly the strings that decompose. */
  lemma AcceptedIffDecomposes(s: string)
    ensures M(SafeLexicalPattern(), s, 0, |s|) <==> exists d :: Decomposes(s, d)
    ensures Accepted(s) <==> |s| <= 256 && exists d :: Decomposes(s, d)
  {
    hide M, Decomposes, SafeLexicalPattern;
    if M(SafeLexicalPattern(), s, 0, |s|) {
      var d := PatternDecomposes(s);
    }
    if d :| Decomposes(s, d) {
      DecompositionIsPattern(s, d);
    }
  }

  // ------------------------------------------------------------ what the scan sees of a unit

  /** The unit the scan finds at `i`, when it finds one. */
  ghost predicate ScannedAt(s: string, u: Unit) {
    && u.start < |s|
    && !NotAtomStart(s[u.start])
    && ConsumeAtom(s, u.start) == Some(u.atomEnd)
    && (u.kind == U ==> u.end == u.atomEnd)
    && (u.kind == F ==> Consumed(s, u.atomEnd, u.end, false))
    && (u.kind == V ==> Consumed(s, u.atomEnd, u.end, true))
  }

  lemma UnitScanned(s: string, u: Unit)
    requires UnitOk(s, u)
    ensures ScannedAt(s, u) && u.start < u.end
  {
    assert u.start <= u.atomEnd <= u.end <= |s|;
    hide M, Atom, FixedQuantifier, VariableQuantifier, Consumed, ConsumeAtom, UnitOk;
    UnitMatches(s, u);
    AtomConsumed(s, u.start, u.atomEnd);
    if u.kind == F { FixedConsumed(s, u.atomEnd, u.end); }
    if u.kind == V { VariableConsumed(s, u.atomEnd, u.end); ConsumedForward(s, u.atomEnd, u.end, true); }
    if u.kind == F { ConsumedForward(s, u.atomEnd, u.end, false); }
  }

  lemma ConsumedForward(s: string, i: nat, j: nat, varies: bool)
    requires Consumed(s, i, j, varies)
    ensures i < j
  {
  }

  /** After a unit comes another unit, a final `$` or the end: never a quantifier. */
  lemma NothingQuantifies(s: string, d: Decomposition, k: nat)
    requires Decomposes(s, d) && k < |d.units|
    ensures d.units[k].end <= |s| && !StartsQuantifier(s, d.units[k].end)
  {
    hide Shaped, UnitOk, Chain, ConsumeAtom;
    ChainUnit(s, d.units, Start(d), End(d), k);
    if k + 1 < |d.units| {
      ChainUnit(s, d.units, Start(d), End(d), k + 1);
      UnitScanned(s, d.units[k + 1]);
    }
  }

  lemma DecomposedUnit(s: string, d: Decomposition, k: nat)
    requires Decomposes(s, d) && k < |d.units|
    ensures d.units[k].start == Edge(d.units, Start(d), k)
    ensures d.units[k].start < d.units[k].end <= |s|
    ensures ScannedAt(s, d.units[k]) && !StartsQuantifier(s, d.units[k].end)
  {
    hide Shaped, UnitOk, Chain, ScannedAt, StartsQuantifier;
    ChainUnit(s, d.units, Start(d), End(d), k);
    UnitScanned(s, d.units[k]);
    NothingQuantifies(s, d, k);
  }
}
