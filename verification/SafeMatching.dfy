/**
 What the grammar is for: an accepted pattern, matched against a whole input of
 at most 4096 characters, leaves no choice to the matcher. Atoms mean any set of
 characters; each consumes exactly one.
 */
module SafeMatching {
  import opened Wrappers
  import opened Regex
  import opened UnitShapes
  import opened SafePattern
  import opened RuntimeScanner
  import opened SafePairs
  import opened SafeAtoms
  import opened SafeUnits
  import opened SafeGate
  import opened PatternText
  import opened GateText

  /** An atom's characters and how often it may repeat; no upper bound when it is open. */
  datatype Piece = Piece(cs: set<char>, lo: nat, hi: Option<nat>)

  function Ceiling(p: Piece): nat {
    match p.hi case Some(n) => n case None => REPEAT_MAXIMUM
  }

  /** The piece as the pattern writes it: an open quantifier repeats without end. */
  function PieceRe(p: Piece): Re<char> {
    match p.hi
    case Some(n) => Times(OneOf(p.cs), p.lo, n)
    case None => Cat(Times(OneOf(p.cs), p.lo, p.lo), Star(OneOf(p.cs)))
  }

  function JoinedRe(ps: seq<Piece>): Re<char> {
    if ps == [] then Empty else Cat(PieceRe(ps[0]), JoinedRe(ps[1..]))
  }

  /** Every open quantifier closed at the ceiling. */
  function Capped(ps: seq<Piece>): (r: seq<Piece>)
    ensures |r| == |ps|
    ensures forall k :: 0 <= k < |ps| ==> r[k] == ps[k].(hi := Some(Ceiling(ps[k])))
  {
    seq(|ps|, k requires 0 <= k < |ps| => ps[k].(hi := Some(Ceiling(ps[k]))))
  }

  // ------------------------------------------------------------ repeat counts

  ghost predicate Holds(cs: set<char>, w: string, i: nat, j: nat)
    requires i <= j <= |w|
  {
    forall p :: i <= p < j ==> w[p] in cs
  }

  predicate Within(p: Piece, c: nat) {
    p.lo <= c && (p.hi.Some? ==> c <= p.hi.value)
  }

  /** These repeat counts consume `w[i..]` exactly. */
  ghost predicate Fits(ps: seq<Piece>, w: string, i: nat, counts: seq<nat>)
    requires i <= |w|
    decreases |ps|
  {
    if ps == [] then counts == [] && i == |w|
    else
      && counts != []
      && Within(ps[0], counts[0])
      && i + counts[0] <= |w|
      && Holds(ps[0].cs, w, i, i + counts[0])
      && Fits(ps[1..], w, i + counts[0], counts[1..])
  }

  lemma {:induction false} ClassStar(cs: set<char>, w: string, i: nat, j: nat)
    requires i <= j <= |w|
    ensures MStar(OneOf(cs), w, i, j) <==> Holds(cs, w, i, j)
    decreases j - i
  {
    if i < j {
      ClassStar(cs, w, i + 1, j);
      if w[i] in cs {
        assert M(OneOf(cs), w, i, i + 1);
      }
    }
  }

  lemma BoundedPiece(p: Piece, w: string, i: nat, j: nat)
    requires i <= j <= |w| && p.hi.Some?
    ensures M(PieceRe(p), w, i, j) <==> Within(p, j - i) && Holds(p.cs, w, i, j)
  {
    assert M(PieceRe(p), w, i, j) == MTimes(OneOf(p.cs), p.lo, p.hi.value, w, i, j);
    if p.lo <= p.hi.value {
      ClassTimes(p.cs, p.lo, p.hi.value, w, i, j);
    } else {
      TimesBackwards(p.cs, p.lo, p.hi.value, w, i, j);
    }
  }

  /** A repeat whose bounds are the wrong way round matches nothing. */
  lemma {:induction false} TimesBackwards(cs: set<char>, lo: nat, hi: nat, w: string, i: nat, j: nat)
    requires i <= j <= |w| && hi < lo
    ensures !MTimes(OneOf(cs), lo, hi, w, i, j)
    decreases hi
  {
    if MTimes(OneOf(cs), lo, hi, w, i, j) {
      var k := TimesSplit(OneOf(cs), lo, hi, w, i, j);
      TimesBackwards(cs, lo - 1, hi - 1, w, k, j);
    }
  }

  lemma OpenPiece(p: Piece, w: string, i: nat, j: nat)
    requires i <= j <= |w| && p.hi.None?
    ensures M(PieceRe(p), w, i, j) <==> Within(p, j - i) && Holds(p.cs, w, i, j)
  {
    var head, tail := Times(OneOf(p.cs), p.lo, p.lo), Star(OneOf(p.cs));
    if M(PieceRe(p), w, i, j) {
      var k := CatSplit(head, tail, w, i, j);
      ClassTimes(p.cs, p.lo, p.lo, w, i, k);
      ClassStar(p.cs, w, k, j);
    }
    if Within(p, j - i) && Holds(p.cs, w, i, j) {
      var k := i + p.lo;
      ClassTimes(p.cs, p.lo, p.lo, w, i, k);
      ClassStar(p.cs, w, k, j);
      CatJoin(head, tail, w, i, k, j);
    }
  }

  lemma PieceMeaning(p: Piece, w: string, i: nat, j: nat)
    requires i <= j <= |w|
    ensures M(PieceRe(p), w, i, j) <==> Within(p, j - i) && Holds(p.cs, w, i, j)
  {
    hide M, PieceRe;
    if p.hi.Some? { BoundedPiece(p, w, i, j); } else { OpenPiece(p, w, i, j); }
  }

  lemma {:induction false} MatchGivesCounts(ps: seq<Piece>, w: string, i: nat) returns (counts: seq<nat>)
    requires i <= |w| && M(JoinedRe(ps), w, i, |w|)
    ensures Fits(ps, w, i, counts)
    decreases |ps|
  {
    if ps == [] {
      counts := [];
    } else {
      var k := CatSplit(PieceRe(ps[0]), JoinedRe(ps[1..]), w, i, |w|);
      hide M, PieceRe, JoinedRe;
      PieceMeaning(ps[0], w, i, k);
      var rest := MatchGivesCounts(ps[1..], w, k);
      counts := [k - i] + rest;
      assert counts[1..] == rest;
    }
  }

  lemma {:induction false} CountsGiveMatch(ps: seq<Piece>, w: string, i: nat, counts: seq<nat>)
    requires i <= |w| && Fits(ps, w, i, counts)
    ensures M(JoinedRe(ps), w, i, |w|)
    decreases |ps|
  {
    if ps != [] {
      hide M, PieceRe;
      var k := i + counts[0];
      PieceMeaning(ps[0], w, i, k);
      CountsGiveMatch(ps[1..], w, k, counts[1..]);
      CatJoin(PieceRe(ps[0]), JoinedRe(ps[1..]), w, i, k, |w|);
    }
  }

  // ------------------------------------------------------------ no choice

  /** At most one piece varies, and nothing needs more than the ceiling. */
  ghost predicate Steady(ps: seq<Piece>) {
    && (forall k :: 0 <= k < |ps| ==> ps[k].lo <= Ceiling(ps[k]) <= REPEAT_MAXIMUM)
    && forall k, n :: 0 <= k < n < |ps| ==> ps[k].lo == Ceiling(ps[k]) || ps[n].lo == Ceiling(ps[n])
  }

  predicate Settled(ps: seq<Piece>) {
    forall k :: 0 <= k < |ps| ==> ps[k].lo == Ceiling(ps[k])
  }

  function Least(ps: seq<Piece>): nat {
    if ps == [] then 0 else ps[0].lo + Least(ps[1..])
  }

  /** The only counts an input of length `n` could have: the variable piece takes what is left. */
  function Forced(ps: seq<Piece>, n: int): seq<int> {
    if ps == [] then []
    else
      var c := if ps[0].lo == Ceiling(ps[0]) then ps[0].lo else n - Least(ps[1..]);
      [c] + Forced(ps[1..], n - c)
  }

  lemma {:induction false} FitsAtLeast(ps: seq<Piece>, w: string, i: nat, counts: seq<nat>)
    requires i <= |w| && Fits(ps, w, i, counts)
    ensures Least(ps) <= |w| - i
    decreases |ps|
  {
    if ps != [] {
      FitsAtLeast(ps[1..], w, i + counts[0], counts[1..]);
    }
  }

  /** Within the input limit even an open `{4096,}` has one possible count. */
  lemma SettledCount(p: Piece, c: nat)
    requires Within(p, c) && p.lo == Ceiling(p) && c <= INPUT_MAX_CHARACTERS
    ensures c == p.lo
  {
  }

  lemma {:induction false} SettledTakesLeast(ps: seq<Piece>, w: string, i: nat, counts: seq<nat>)
    requires i <= |w| <= INPUT_MAX_CHARACTERS && Settled(ps) && Fits(ps, w, i, counts)
    ensures |w| - i == Least(ps)
    decreases |ps|
  {
    if ps != [] {
      SettledCount(ps[0], counts[0]);
      assert ps[0].lo == Ceiling(ps[0]);
      assert forall k :: 0 <= k < |ps| - 1 ==> ps[1..][k] == ps[k + 1];
      SettledTakesLeast(ps[1..], w, i + counts[0], counts[1..]);
    }
  }

  lemma SteadyRest(ps: seq<Piece>)
    requires Steady(ps) && ps != []
    ensures Steady(ps[1..])
    ensures ps[0].lo != Ceiling(ps[0]) ==> Settled(ps[1..])
  {
    var rest := ps[1..];
    assert forall k :: 0 <= k < |rest| ==> rest[k] == ps[k + 1];
  }

  /** Any counts that fit are the forced ones. */
  lemma {:induction false} FitIsForced(ps: seq<Piece>, w: string, i: nat, counts: seq<nat>)
    requires i <= |w| <= INPUT_MAX_CHARACTERS && Steady(ps) && Fits(ps, w, i, counts)
    ensures counts == Forced(ps, |w| - i)
    decreases |ps|
  {
    if ps != [] {
      SteadyRest(ps);
      HeadIsForced(ps, w, i, counts);
      hide Steady, Settled, Holds, Within, Least;
      FitIsForced(ps[1..], w, i + counts[0], counts[1..]);
      assert counts == [counts[0]] + counts[1..];
    }
  }

  /** The first count is the one the length forces. */
  lemma HeadIsForced(ps: seq<Piece>, w: string, i: nat, counts: seq<nat>)
    requires i <= |w| <= INPUT_MAX_CHARACTERS && Steady(ps) && Fits(ps, w, i, counts) && ps != []
    ensures counts != [] && i + counts[0] <= |w|
    ensures counts[0] == if ps[0].lo == Ceiling(ps[0]) then ps[0].lo else |w| - i - Least(ps[1..])
  {
    SteadyRest(ps);
    hide Steady, Settled, Holds, Least;
    if ps[0].lo == Ceiling(ps[0]) {
      SettledCount(ps[0], counts[0]);
    } else {
      SettledTakesLeast(ps[1..], w, i + counts[0], counts[1..]);
    }
  }

  /** At most one assignment of repeat counts matches the whole input. */
  lemma AtMostOneFit(ps: seq<Piece>, w: string, counts: seq<nat>, counts': seq<nat>)
    requires |w| <= INPUT_MAX_CHARACTERS && Steady(ps)
    requires Fits(ps, w, 0, counts) && Fits(ps, w, 0, counts')
    ensures counts == counts'
  {
    FitIsForced(ps, w, 0, counts);
    FitIsForced(ps, w, 0, counts');
  }

  ghost predicate Naturals(cs: seq<int>) {
    forall k :: 0 <= k < |cs| ==> cs[k] >= 0
  }

  ghost function AsNaturals(cs: seq<int>): (r: seq<nat>)
    requires Naturals(cs)
    ensures r == cs
  {
    seq(|cs|, k requires 0 <= k < |cs| => cs[k])
  }

  /** Matching is one comparison against the forced counts. */
  lemma MatchIffForced(ps: seq<Piece>, w: string)
    requires |w| <= INPUT_MAX_CHARACTERS && Steady(ps)
    ensures M(JoinedRe(ps), w, 0, |w|)
       <==> Naturals(Forced(ps, |w|)) && Fits(ps, w, 0, AsNaturals(Forced(ps, |w|)))
  {
    hide M, Steady, Fits, Forced, JoinedRe;
    var forced := Forced(ps, |w|);
    if M(JoinedRe(ps), w, 0, |w|) {
      var counts := MatchGivesCounts(ps, w, 0);
      FitIsForced(ps, w, 0, counts);
      assert Naturals(forced) && AsNaturals(forced) == counts;
    }
    if Naturals(forced) && Fits(ps, w, 0, AsNaturals(forced)) {
      CountsGiveMatch(ps, w, 0, AsNaturals(forced));
    }
  }

  // ------------------------------------------------------------ the ceiling on open quantifiers

  lemma {:induction false} CappedFits(ps: seq<Piece>, w: string, i: nat, counts: seq<nat>)
    requires i <= |w| <= INPUT_MAX_CHARACTERS
    ensures Fits(Capped(ps), w, i, counts) <==> Fits(ps, w, i, counts)
    decreases |ps|
  {
    if ps != [] {
      assert Capped(ps)[1..] == Capped(ps[1..]);
      if counts != [] && i + counts[0] <= |w| {
        CappedFits(ps[1..], w, i + counts[0], counts[1..]);
      }
    }
  }

  /** Closing every open quantifier at 4096 matches the same inputs of at most 4096 characters. */
  lemma CappingChangesNothing(ps: seq<Piece>, w: string)
    requires |w| <= INPUT_MAX_CHARACTERS
    ensures M(JoinedRe(Capped(ps)), w, 0, |w|) <==> M(JoinedRe(ps), w, 0, |w|)
  {
    hide M, JoinedRe, Capped;
    if M(JoinedRe(Capped(ps)), w, 0, |w|) {
      var counts := MatchGivesCounts(Capped(ps), w, 0);
      CappedFits(ps, w, 0, counts);
      CountsGiveMatch(ps, w, 0, counts);
    }
    if M(JoinedRe(ps), w, 0, |w|) {
      var counts := MatchGivesCounts(ps, w, 0);
      CappedFits(ps, w, 0, counts);
      CountsGiveMatch(Capped(ps), w, 0, counts);
    }
  }

  // ------------------------------------------------------------ accepted patterns

  /** The piece a unit stands for, when atoms mean the sets `meaning` gives them. */
  function PieceOf(s: string, u: Unit, meaning: string -> set<char>): Piece
    requires u.start <= u.atomEnd <= |s|
  {
    var cs := meaning(s[u.start..u.atomEnd]);
    if !StartsQuantifier(s, u.atomEnd) || ConsumeQuantifier(s, u.atomEnd).None? then Piece(cs, 1, Some(1))
    else
      var q := ConsumeQuantifier(s, u.atomEnd).value;
      Piece(cs, q.lo, q.hi)
  }

  ghost predicate Placed(s: string, units: seq<Unit>) {
    forall k :: 0 <= k < |units| ==> units[k].start <= units[k].atomEnd <= |s|
  }

  ghost function PiecesOf(s: string, units: seq<Unit>, meaning: string -> set<char>): (ps: seq<Piece>)
    requires Placed(s, units)
    ensures |ps| == |units|
    ensures forall k :: 0 <= k < |units| ==> ps[k] == PieceOf(s, units[k], meaning)
  {
    seq(|units|, k requires 0 <= k < |units| => PieceOf(s, units[k], meaning))
  }

  function HatRe(hat: bool): Re<char> {
    if hat then Caret else Empty
  }

  function DollarRe(dollar: bool): Re<char> {
    if dollar then Dollar({'\n'}) else Empty
  }

  /** The expression an accepted pattern denotes, anchors included. */
  ghost function DenotedRe(s: string, d: Decomposition, meaning: string -> set<char>): Re<char>
    requires Placed(s, d.units)
  {
    Cat(HatRe(d.hat), Cat(JoinedRe(PiecesOf(s, d.units, meaning)), DollarRe(d.dollar)))
  }

  lemma QuantifierBounds(s: string, i: nat)
    requires StartsQuantifier(s, i) && ConsumeQuantifier(s, i).Some?
    ensures ConsumeQuantifier(s, i).value.lo <= EffectiveMax(ConsumeQuantifier(s, i).value) <= REPEAT_MAXIMUM
  {
    hide Bounds, IndexOf;
  }

  /** A unit's piece varies exactly when the unit is variable. */
  lemma UnitPiece(s: string, u: Unit, meaning: string -> set<char>)
    requires ScannedAt(s, u) && u.start <= u.atomEnd <= u.end <= |s|
    requires u.kind == U ==> !StartsQuantifier(s, u.end)
    ensures var p := PieceOf(s, u, meaning);
            p.lo <= Ceiling(p) <= REPEAT_MAXIMUM && (p.lo != Ceiling(p) <==> u.kind == V)
  {
    hide ConsumeQuantifier, ConsumeAtom;
    if StartsQuantifier(s, u.atomEnd) && ConsumeQuantifier(s, u.atomEnd).Some? {
      QuantifierBounds(s, u.atomEnd);
    }
  }

  /** A unit's piece has the set of its atom's text and the bounds its quantifier's text writes, or exactly one. */
  lemma PieceIsWritten(s: string, u: Unit, meaning: string -> set<char>)
    requires GateUnit(s, u)
    ensures u.start <= u.atomEnd <= u.end <= |s|
    ensures var p := PieceOf(s, u, meaning);
            && p.cs == meaning(s[u.start..u.atomEnd])
            && (if u.kind == U then p.lo == 1 && p.hi == Some(1) else GateQuantifier(s[u.atomEnd..u.end], p.lo, p.hi))
  {
    hide GateAtom, GateFixed, GateVariable, GateQuantifier, ConsumeAtom, ConsumeQuantifier;
    GateUnitSpan(s, u);
    GateUnitIff(s, u);
    if u.kind != U {
      var q := ConsumeQuantifier(s, u.atomEnd).value;
      ConsumeQuantifierIff(s, u.atomEnd, u.end, q.lo, q.hi);
    }
  }

  lemma AcceptedIsSteady(s: string, d: Decomposition, meaning: string -> set<char>)
    requires GateDecomposes(s, d)
    ensures Placed(s, d.units) && Steady(PiecesOf(s, d.units, meaning))
  {
    hide GateUnit, ScannedAt, GateChain, Shaped, StartsQuantifier, PieceOf;
    GateShape(s, d);
    assert Placed(s, d.units) by {
      forall k | 0 <= k < |d.units| ensures d.units[k].start <= d.units[k].atomEnd <= |s| {
        GateAt(s, d, k);
      }
    }
    var ps := PiecesOf(s, d.units, meaning);
    forall k | 0 <= k < |ps|
      ensures ps[k].lo <= Ceiling(ps[k]) <= REPEAT_MAXIMUM && (ps[k].lo != Ceiling(ps[k]) <==> d.units[k].kind == V)
    {
      GateAt(s, d, k);
      UnitPiece(s, d.units[k], meaning);
    }
    forall k, n | 0 <= k < n < |ps| ensures ps[k].lo == Ceiling(ps[k]) || ps[n].lo == Ceiling(ps[n]) {
      VariableOnce(d.units, n);
    }
  }

  lemma AnchorsAddNothing(s: string, d: Decomposition, meaning: string -> set<char>, w: string)
    requires Placed(s, d.units)
    ensures M(DenotedRe(s, d, meaning), w, 0, |w|) <==> M(JoinedRe(PiecesOf(s, d.units, meaning)), w, 0, |w|)
  {
    var joined := JoinedRe(PiecesOf(s, d.units, meaning));
    var hat, dollar := HatRe(d.hat), DollarRe(d.dollar);
    hide M, JoinedRe, PiecesOf, HatRe, DollarRe;
    if M(DenotedRe(s, d, meaning), w, 0, |w|) {
      var i := CatSplit(hat, Cat(joined, dollar), w, 0, |w|);
      var j := CatSplit(joined, dollar, w, i, |w|);
      HatMeaning(d.hat, w, i);
      DollarMeaning(d.dollar, w, j);
    }
    if M(joined, w, 0, |w|) {
      HatMeaning(d.hat, w, 0);
      DollarMeaning(d.dollar, w, |w|);
      CatJoin(joined, dollar, w, 0, |w|, |w|);
      CatJoin(hat, Cat(joined, dollar), w, 0, 0, |w|);
    }
  }

  lemma HatMeaning(hat: bool, w: string, j: nat)
    requires j <= |w|
    ensures M(HatRe(hat), w, 0, j) <==> j == 0
  {
  }

  lemma DollarMeaning(dollar: bool, w: string, i: nat)
    requires i <= |w|
    ensures M(DollarRe(dollar), w, i, |w|) <==> i == |w|
  {
  }

  /**
   An accepted pattern matched against a whole input within the limit: it matches exactly
   when the forced counts fit, no other counts do, and capping its quantifiers changes nothing.
   */
  lemma MatchingHasNoChoice(s: string, d: Decomposition, meaning: string -> set<char>, w: string)
    requires GateDecomposes(s, d) && |w| <= INPUT_MAX_CHARACTERS
    ensures Placed(s, d.units)
    ensures var ps := PiecesOf(s, d.units, meaning);
            && (M(DenotedRe(s, d, meaning), w, 0, |w|)
                <==> Naturals(Forced(ps, |w|)) && Fits(ps, w, 0, AsNaturals(Forced(ps, |w|))))
            && (M(DenotedRe(s, d, meaning), w, 0, |w|) <==> M(JoinedRe(Capped(ps)), w, 0, |w|))
            && (forall counts, counts' :: Fits(ps, w, 0, counts) && Fits(ps, w, 0, counts') ==> counts == counts')
  {
    AcceptedIsSteady(s, d, meaning);
    var ps := PiecesOf(s, d.units, meaning);
    hide M, Steady, GateDecomposes, PiecesOf, JoinedRe, Forced, Fits, DenotedRe, Capped;
    AnchorsAddNothing(s, d, meaning, w);
    MatchIffForced(ps, w);
    CappingChangesNothing(ps, w);
    forall counts, counts' | Fits(ps, w, 0, counts) && Fits(ps, w, 0, counts') ensures counts == counts' {
      AtMostOneFit(ps, w, counts, counts');
    }
  }

  /** Every pattern the runtime gate lets through has such a reading, published or not. */
  lemma GatedPatternHasNoChoice(s: string, meaning: string -> set<char>, w: string) returns (d: Decomposition)
    requires RuntimeAccepts(s) && |w| <= INPUT_MAX_CHARACTERS
    ensures GateDecomposes(s, d) && Placed(s, d.units)
    ensures forall d' :: GateDecomposes(s, d') ==> d' == d
    ensures var ps := PiecesOf(s, d.units, meaning);
            && (M(DenotedRe(s, d, meaning), w, 0, |w|)
                <==> Naturals(Forced(ps, |w|)) && Fits(ps, w, 0, AsNaturals(Forced(ps, |w|))))
            && (forall counts, counts' :: Fits(ps, w, 0, counts) && Fits(ps, w, 0, counts') ==> counts == counts')
  {
    hide *;
    GateScans(s);
    d := ScanReads(s);
    forall d' | GateDecomposes(s, d') ensures d' == d {
      UniqueReading(s, d, d');
    }
    MatchingHasNoChoice(s, d, meaning, w);
  }

  lemma GateScans(s: string)
    requires RuntimeAccepts(s)
    ensures ScanFrom(s, 0, false, false)
  {
  }

  // ------------------------------------------------------------ why the input limit is there

  /** `a{4096,}aa?` and the reading the gate gives it. */
  const CHOOSING: string := "a{4096,}aa?"

  const READING: Decomposition :=
    Decomposition(false, [Unit(F, 0, 1, 8), Unit(U, 8, 9, 9), Unit(V, 9, 10, 11)], false)

  lemma OpenBraceConsumed()
    ensures Consumed(CHOOSING, 1, 8, false)
    ensures ConsumeQuantifier(CHOOSING, 1) == Some(Quantifier(8, 4096, None))
  {
    var s := CHOOSING;
    assert s[2..7] == "4096" + ",";
    MaximumNumeral("4096");
    OpenBound("4096", s[2..7], 8);
    hide Bounds;
    BracesConsumed(s, 1, 8, 4096, None);
    assert IndexOf(s, '}', 2) == 7;
  }

  lemma ChoosingUnits()
    ensures GateUnit(CHOOSING, READING.units[0]) && GateUnit(CHOOSING, READING.units[1])
    ensures GateUnit(CHOOSING, READING.units[2])
    ensures ConsumeQuantifier(CHOOSING, 10) == Some(Quantifier(11, 0, Some(1)))
  {
    ChoosingScanned();
    hide ScannedAt, StartsQuantifier, GateUnit, Consumed;
    GateUnitIff(CHOOSING, READING.units[0]);
    GateUnitIff(CHOOSING, READING.units[1]);
    GateUnitIff(CHOOSING, READING.units[2]);
  }

  lemma ChoosingScanned()
    ensures forall k :: 0 <= k < 3 ==>
              ScannedAt(CHOOSING, READING.units[k]) && !StartsQuantifier(CHOOSING, READING.units[k].end)
    ensures ConsumeQuantifier(CHOOSING, 10) == Some(Quantifier(11, 0, Some(1)))
  {
    OpenBraceConsumed();
    hide Bounds, IndexOf, ConsumeClass, ConsumeEscape;
  }

  lemma ChoosingShaped()
    ensures Shaped(Kinds(READING.units))
  {
    assert Kinds(READING.units) == [F, U, V];
  }

  lemma ChoosingChain()
    ensures GateChain(CHOOSING, READING.units, 0)
  {
    ChoosingUnits();
    hide GateUnit;
  }

  /** The gate reads the text as these three units. */
  lemma ChoosingIsRead()
    ensures GateDecomposes(CHOOSING, READING)
  {
    ChoosingChain();
    ChoosingShaped();
    hide GateChain, Shaped, Kinds;
  }

  lemma ReadIsAccepted(s: string, d: Decomposition)
    requires AllPrintable(s) && |s| <= PATTERN_MAX_CHARACTERS && GateDecomposes(s, d)
    ensures RuntimeAccepts(s)
  {
    PrintableIsOneByteEach(s);
    ScanIffReads(s);
    hide GateDecomposes, ScanFrom, Utf8Length, AllPrintable;
  }

  lemma ChoosingIsAccepted()
    ensures RuntimeAccepts(CHOOSING)
  {
    assert AllPrintable(CHOOSING) && |CHOOSING| <= PATTERN_MAX_CHARACTERS;
    hide *;
    ChoosingIsRead();
    ReadIsAccepted(CHOOSING, READING);
  }

  /** Its pieces when `a` means itself. */
  lemma ChoosingPieces(meaning: string -> set<char>)
    requires meaning("a") == {'a'}
    ensures Placed(CHOOSING, READING.units)
    ensures PiecesOf(CHOOSING, READING.units, meaning)
         == [Piece({'a'}, 4096, None), Piece({'a'}, 1, Some(1)), Piece({'a'}, 0, Some(1))]
  {
    OpenBraceConsumed();
    ChoosingScanned();
    var s := CHOOSING;
    assert s[0..1] == "a" && s[8..9] == "a" && s[9..10] == "a";
    hide ConsumeQuantifier, ScannedAt, Consumed, GateUnit, ConsumeAtom, ConsumeClass, ConsumeEscape;
  }

  /** On two characters more than the limit that accepted text has two readings of its input. */
  lemma BeyondTheLimitThereIsAChoice(meaning: string -> set<char>)
    requires meaning("a") == {'a'}
    ensures RuntimeAccepts(CHOOSING) && GateDecomposes(CHOOSING, READING) && Placed(CHOOSING, READING.units)
    ensures var ps := PiecesOf(CHOOSING, READING.units, meaning);
            var w := seq(4098, _ => 'a');
            Fits(ps, w, 0, [4096, 1, 1]) && Fits(ps, w, 0, [4097, 1, 0])
  {
    hide *;
    ChoosingIsRead();
    ChoosingIsAccepted();
    ChoosingPieces(meaning);
    TwoFits();
  }

  lemma TwoFits()
    ensures var ps := [Piece({'a'}, 4096, None), Piece({'a'}, 1, Some(1)), Piece({'a'}, 0, Some(1))];
            var w := seq(4098, _ => 'a');
            Fits(ps, w, 0, [4096, 1, 1]) && Fits(ps, w, 0, [4097, 1, 0])
  {
    var a, b, c := Piece({'a'}, 4096, None), Piece({'a'}, 1, Some(1)), Piece({'a'}, 0, Some(1));
    var ps := [a, b, c];
    var w := seq(4098, _ => 'a');
    assert ps[1..] == [b, c] && [b, c][1..] == [c] && [c][1..] == [];
    assert Fits([], w, 4098, []);
    assert [1][1..] == [] && [0][1..] == [];
    assert Fits([c], w, 4097, [1]) && Fits([c], w, 4098, [0]);
    assert [1, 1][1..] == [1] && [1, 0][1..] == [0];
    assert Fits([b, c], w, 4096, [1, 1]) && Fits([b, c], w, 4097, [1, 0]);
    assert [4096, 1, 1][1..] == [1, 1] && [4097, 1, 0][1..] == [1, 0];
  }
}
