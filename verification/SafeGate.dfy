/**
 The runtime gate, characterised: it accepts exactly the strings that are an
 optional `^`, units it can consume in an allowed arrangement, and an optional
 `$`, and it reads each of them in one way. The published pattern is stricter.
 */
module SafeGate {
  import opened Wrappers
  import opened Regex
  import opened UnitShapes
  import opened PatternText
  import opened SafePattern
  import opened RuntimeScanner
  import opened SafeAtoms
  import opened SafeAscii
  import opened SafeUnits
  import opened GateText

  /** The text of a gate atom, after it nothing or the text of a gate quantifier, and no quantifier left over. */
  ghost predicate GateUnit(s: string, u: Unit) {
    && u.start <= u.atomEnd <= u.end <= |s|
    && GateAtom(s[u.start..u.atomEnd])
    && (match u.kind
        case U => u.end == u.atomEnd
        case F => GateFixed(s[u.atomEnd..u.end])
        case V => GateVariable(s[u.atomEnd..u.end]))
    && (u.end < |s| ==> s[u.end] !in QUANTIFIERS)
  }

  /** That is a unit the scan consumes whole. */
  lemma GateUnitIff(s: string, u: Unit)
    requires u.start <= u.atomEnd <= u.end <= |s|
    ensures GateUnit(s, u) <==> u.start < u.end && ScannedAt(s, u) && !StartsQuantifier(s, u.end)
  {
    hide GateAtom, GateFixed, GateVariable, ConsumeAtom, Consumed;
    ConsumedIff(s, u.atomEnd, u.end);
    if u.start < |s| && s[u.start] !in ANCHORS { ConsumeAtomIff(s, u.start, u.atomEnd); }
    if GateAtom(s[u.start..u.atomEnd]) {
      AtomStarts(s[u.start..u.atomEnd]);
      assert s[u.start..u.atomEnd][0] == s[u.start];
    }
    if u.start < |s| && ConsumeAtom(s, u.start) == Some(u.atomEnd) { ConsumesSome(s, u.start); }
  }

  lemma ConsumesSome(s: string, i: nat)
    requires i < |s| && ConsumeAtom(s, i).Some?
    ensures i < ConsumeAtom(s, i).value
  {
    hide ConsumeClass, ConsumeEscape;
  }

  /** Consumable units one after the other, from `i`. */
  ghost predicate GateChain(s: string, units: seq<Unit>, i: nat) {
    && (forall k :: 0 <= k < |units| ==> GateUnit(s, units[k]))
    && (forall k :: 0 <= k < |units| ==> units[k].start == Edge(units, i, k))
    && i <= |s|
  }

  ghost predicate GateDecomposes(s: string, d: Decomposition) {
    && (d.hat ==> |s| > 0 && s[0] == '^')
    && GateChain(s, d.units, Start(d))
    && Shaped(Kinds(d.units))
    && (if d.dollar then End(d) + 1 == |s| && s[|s| - 1] == '$' else End(d) == |s|)
  }

  lemma GateAt(s: string, d: Decomposition, k: nat)
    requires GateDecomposes(s, d) && k < |d.units|
    ensures GateUnit(s, d.units[k])
    ensures d.units[k].start == Edge(d.units, Start(d), k)
    ensures d.units[k].start < d.units[k].end <= |s|
    ensures d.units[k].start <= d.units[k].atomEnd <= d.units[k].end
    ensures ScannedAt(s, d.units[k]) && !StartsQuantifier(s, d.units[k].end)
  {
    hide Shaped, ScannedAt, StartsQuantifier, GateAtom, GateFixed, GateVariable;
    assert GateUnit(s, d.units[k]);
    hide GateUnit;
    GateUnitSpan(s, d.units[k]);
    GateUnitIff(s, d.units[k]);
  }

  lemma GateShape(s: string, d: Decomposition)
    requires GateDecomposes(s, d)
    ensures Shaped(Kinds(d.units))
  {
    hide Shaped, GateChain;
  }

  lemma UnitPassesGate(s: string, d: Decomposition, k: nat)
    requires Decomposes(s, d) && k < |d.units|
    ensures GateUnit(s, d.units[k]) && d.units[k].start == Edge(d.units, Start(d), k)
  {
    hide Shaped, Decomposes, M, ScannedAt, StartsQuantifier, Chain, GateUnit;
    DecomposedUnit(s, d, k);
    DecomposedText(s, d, k);
    GateUnitIff(s, d.units[k]);
  }

  lemma DecomposedText(s: string, d: Decomposition, k: nat)
    requires Decomposes(s, d) && k < |d.units|
    ensures d.units[k].start <= d.units[k].atomEnd <= d.units[k].end
  {
    hide Shaped, M;
    assert UnitOk(s, d.units[k]);
  }

  /** A reading by the published grammar is a reading by the gate. */
  lemma DecomposesIsGate(s: string, d: Decomposition)
    requires Decomposes(s, d)
    ensures GateDecomposes(s, d)
  {
    forall k | 0 <= k < |d.units|
      ensures GateUnit(s, d.units[k]) && d.units[k].start == Edge(d.units, Start(d), k)
    {
      UnitPassesGate(s, d, k);
    }
    DecomposedSpan(s, d);
    hide Shaped, GateUnit, Chain;
  }

  // ------------------------------------------------------------ one reading only

  lemma SameUnit(s: string, u: Unit, u': Unit)
    requires ScannedAt(s, u) && ScannedAt(s, u') && u.start == u'.start
    requires u.end <= |s| && u'.end <= |s|
    requires u.kind == U ==> !StartsQuantifier(s, u.end)
    requires u'.kind == U ==> !StartsQuantifier(s, u'.end)
    ensures u == u'
  {
    hide ConsumeAtom, ConsumeQuantifier, Varies;
  }

  lemma {:induction false} SameUnitsBelow(s: string, d: Decomposition, d': Decomposition, k: nat)
    requires GateDecomposes(s, d) && GateDecomposes(s, d') && d.hat == d'.hat
    requires k <= |d.units| && k <= |d'.units|
    ensures forall n :: 0 <= n < k ==> d.units[n] == d'.units[n]
  {
    hide ScannedAt, StartsQuantifier, GateDecomposes;
    if k > 0 {
      SameUnitsBelow(s, d, d', k - 1);
      GateAt(s, d, k - 1);
      GateAt(s, d', k - 1);
      SameUnit(s, d.units[k - 1], d'.units[k - 1]);
    }
  }

  /** The leading `^` is there or not by the first character alone. */
  lemma HatIsFirst(s: string, d: Decomposition)
    requires GateDecomposes(s, d)
    ensures d.hat <==> |s| > 0 && s[0] == '^'
  {
    hide Shaped, GateUnit, ConsumeAtom, Consumed;
    if !d.hat && d.units != [] {
      GateAt(s, d, 0);
    }
  }

  lemma NoMoreUnits(s: string, d: Decomposition, d': Decomposition)
    requires GateDecomposes(s, d) && GateDecomposes(s, d') && d.hat == d'.hat
    ensures |d'.units| <= |d.units|
  {
    hide Shaped, GateChain, GateUnit, ConsumeAtom, Consumed, StartsQuantifier;
    if |d.units| < |d'.units| {
      var n := |d.units|;
      SameUnitsBelow(s, d, d', n);
      GateAt(s, d', n);
      assert false;
    }
  }

  /** Whatever the gate reads, it reads in one way. */
  lemma UniqueReading(s: string, d: Decomposition, d': Decomposition)
    requires GateDecomposes(s, d) && GateDecomposes(s, d')
    ensures d == d'
  {
    HatIsFirst(s, d);
    HatIsFirst(s, d');
    NoMoreUnits(s, d, d');
    NoMoreUnits(s, d', d);
    hide Shaped, GateChain;
    SameUnitsBelow(s, d, d', |d.units|);
    assert d.units == d'.units;
  }

  /** Every string the published pattern accepts decomposes in exactly one way. */
  lemma UniqueDecomposition(s: string, d: Decomposition, d': Decomposition)
    requires Decomposes(s, d) && Decomposes(s, d')
    ensures d == d'
  {
    hide Decomposes, GateDecomposes;
    DecomposesIsGate(s, d);
    DecomposesIsGate(s, d');
    UniqueReading(s, d, d');
  }

  // ------------------------------------------------------------ from a reading to the scan

  ghost predicate VariableBefore(units: seq<Unit>, k: nat)
    requires k <= |units|
  {
    exists n :: 0 <= n < k && units[n].kind == V
  }

  lemma UnitTurn(s: string, u: Unit, previousQuantified: bool, hasVariable: bool)
    requires ScannedAt(s, u) && u.end <= |s|
    requires !StartsQuantifier(s, u.end)
    requires previousQuantified ==> u.kind == U
    requires hasVariable ==> u.kind != V
    ensures Turn(s, u.start, previousQuantified, hasVariable)
         == Continue(u.end, u.kind != U, hasVariable || u.kind == V)
  {
    hide ConsumeAtom, ConsumeQuantifier, Varies;
  }

  /** The flags of the scan when it reaches unit `k`. */
  predicate QuantifiedBefore(units: seq<Unit>, k: nat)
    requires k <= |units|
  {
    k > 0 && units[k - 1].kind != U
  }

  /** From unit `k` on, the scan accepts. */
  ghost predicate ScansFromUnit(s: string, d: Decomposition, k: nat)
    requires k <= |d.units|
  {
    var edge := Edge(d.units, Start(d), k);
    edge <= |s| && ScanFrom(s, edge, QuantifiedBefore(d.units, k), VariableBefore(d.units, k))
  }

  lemma VariableNext(units: seq<Unit>, k: nat)
    requires k < |units|
    ensures VariableBefore(units, k + 1) <==> VariableBefore(units, k) || units[k].kind == V
  {
  }

  lemma Neighbours(units: seq<Unit>, k: nat)
    requires Shaped(Kinds(units)) && k < |units|
    ensures QuantifiedBefore(units, k) ==> units[k].kind == U
  {
    assert Kinds(units)[k] == units[k].kind;
    assert k > 0 ==> Kinds(units)[k - 1] == units[k - 1].kind;
  }

  lemma VariableOnce(units: seq<Unit>, k: nat)
    requires Shaped(Kinds(units)) && k < |units|
    ensures VariableBefore(units, k) ==> units[k].kind != V
  {
    if n :| 0 <= n < k && units[n].kind == V {
      assert Kinds(units)[n] == V && Kinds(units)[k] == units[k].kind;
    }
  }

  lemma TurnThenScan(s: string, index: nat, previousQuantified: bool, hasVariable: bool)
    requires index < |s|
    requires var t := Turn(s, index, previousQuantified, hasVariable);
             t.Continue? && ScanFrom(s, t.index, t.previousQuantified, t.hasVariable)
    ensures ScanFrom(s, index, previousQuantified, hasVariable)
  {
    hide Turn;
  }

  lemma DollarTurn(s: string, q: bool, v: bool)
    requires |s| > 0 && s[|s| - 1] == '$'
    ensures Turn(s, |s| - 1, q, v) == Continue(|s|, q, v)
  {
    hide ConsumeAtom, ConsumeQuantifier;
  }

  lemma LastTurn(s: string, d: Decomposition)
    requires GateDecomposes(s, d)
    ensures ScansFromUnit(s, d, |d.units|)
  {
    hide GateChain, Shaped, Turn, VariableBefore, QuantifiedBefore;
    var q, v := QuantifiedBefore(d.units, |d.units|), VariableBefore(d.units, |d.units|);
    assert ScanFrom(s, |s|, q, v);
    if d.dollar {
      DollarTurn(s, q, v);
      hide ScanFrom;
      TurnThenScan(s, |s| - 1, q, v);
    }
  }

  lemma ScanUnit(s: string, d: Decomposition, k: nat)
    requires GateDecomposes(s, d) && k < |d.units|
    requires ScansFromUnit(s, d, k + 1)
    ensures ScansFromUnit(s, d, k)
  {
    hide ScannedAt, StartsQuantifier, Turn, GateDecomposes, Kinds, Shaped, VariableBefore, ScanFrom;
    var u := d.units[k];
    GateAt(s, d, k);
    GateShape(s, d);
    Neighbours(d.units, k);
    VariableOnce(d.units, k);
    UnitTurn(s, u, QuantifiedBefore(d.units, k), VariableBefore(d.units, k));
    VariableNext(d.units, k);
    TurnThenScan(s, u.start, QuantifiedBefore(d.units, k), VariableBefore(d.units, k));
  }

  lemma {:induction false} ScanAccepts(s: string, d: Decomposition, k: nat)
    requires GateDecomposes(s, d) && k <= |d.units|
    ensures ScansFromUnit(s, d, k)
    decreases |d.units| - k
  {
    hide GateDecomposes, ScansFromUnit;
    if k == |d.units| {
      LastTurn(s, d);
    } else {
      ScanAccepts(s, d, k + 1);
      ScanUnit(s, d, k);
    }
  }

  lemma HatTurn(s: string, d: Decomposition)
    requires GateDecomposes(s, d) && ScansFromUnit(s, d, 0)
    ensures ScanFrom(s, 0, false, false)
  {
    hide Shaped;
    assert !VariableBefore(d.units, 0);
    if d.hat {
      assert Turn(s, 0, false, false) == Continue(1, false, false);
    }
  }

  // ------------------------------------------------------------ from the scan to a reading

  /** One turn of the scan at an atom: the unit it consumed. */
  lemma TurnUnit(s: string, index: nat, previousQuantified: bool, hasVariable: bool) returns (u: Unit)
    requires index < |s| && s[index] != '^' && s[index] != '$'
    requires Turn(s, index, previousQuantified, hasVariable).Continue?
    ensures GateUnit(s, u) && u.start == index
    ensures Turn(s, index, previousQuantified, hasVariable)
         == Continue(u.end, u.kind != U, hasVariable || u.kind == V)
    ensures previousQuantified ==> u.kind == U
    ensures hasVariable ==> u.kind != V
  {
    AtomNotMeta(s, index);
    hide ConsumeAtom, ConsumeQuantifier, Varies;
    var e := ConsumeAtom(s, index).value;
    if !StartsQuantifier(s, e) {
      u := Unit(U, index, e, e);
    } else {
      var q := ConsumeQuantifier(s, e).value;
      u := Unit(if Varies(q) then V else F, index, e, q.end);
    }
    hide GateUnit, Turn;
    GateUnitIff(s, u);
  }

  lemma AtomNotMeta(s: string, index: nat)
    requires index < |s| && s[index] != '^' && s[index] != '$' && ConsumeAtom(s, index).Some?
    ensures !NotAtomStart(s[index])
  {
  }

  /** These units may follow what the scan has seen. */
  ghost predicate MayFollow(units: seq<Unit>, previousQuantified: bool, hasVariable: bool) {
    && Shaped(Kinds(units))
    && (previousQuantified && units != [] ==> units[0].kind == U)
    && (hasVariable ==> forall k :: 0 <= k < |units| ==> units[k].kind != V)
  }

  lemma PrependShaped(u: Unit, rest: seq<Unit>, previousQuantified: bool, hasVariable: bool)
    requires MayFollow(rest, u.kind != U, hasVariable || u.kind == V)
    requires (previousQuantified ==> u.kind == U) && (hasVariable ==> u.kind != V)
    ensures MayFollow([u] + rest, previousQuantified, hasVariable)
  {
    var units := [u] + rest;
    var w, r := Kinds(units), Kinds(rest);
    assert forall k :: 1 <= k < |w| ==> w[k] == r[k - 1];
    forall i, j | 0 <= i < j < |w| ensures !(w[i] == V && w[j] == V) {
      assert w[j] == rest[j - 1].kind;
      if i > 0 { assert w[i] == r[i - 1] && w[j] == r[j - 1]; }
    }
    forall i | 0 <= i < |w| - 1 ensures w[i] == U || w[i + 1] == U {
      if i > 0 { assert w[i] == r[i - 1] && w[i + 1] == r[i - 1 + 1]; }
    }
  }

  lemma PrependChain(s: string, u: Unit, rest: seq<Unit>)
    requires GateUnit(s, u) && GateChain(s, rest, u.end)
    ensures GateChain(s, [u] + rest, u.start)
    ensures Edge([u] + rest, u.start, |rest| + 1) == Edge(rest, u.end, |rest|)
  {
    hide GateUnit;
    var units := [u] + rest;
    assert u.start <= |s| by { GateUnitSpan(s, u); }
    forall k | 0 <= k < |units| ensures units[k].start == Edge(units, u.start, k) && GateUnit(s, units[k]) {
      if k > 0 {
        assert units[k] == rest[k - 1];
        assert rest[k - 1].start == Edge(rest, u.end, k - 1);
      }
    }
  }

  lemma GateUnitSpan(s: string, u: Unit)
    requires GateUnit(s, u)
    ensures u.start <= u.atomEnd <= u.end <= |s| && u.start < u.end
  {
    hide ScannedAt, GateFixed, GateVariable;
    AtomStarts(s[u.start..u.atomEnd]);
  }

  /** Where a scan may stop: at the end, or at a final `$`. */
  predicate Stops(s: string, e: nat) {
    e == |s| || (e + 1 == |s| && s[e] == '$')
  }

  /** What an accepting scan consumes from a position past any leading `^`. */
  lemma {:induction false} ScanUnits(s: string, index: nat, previousQuantified: bool, hasVariable: bool)
      returns (units: seq<Unit>)
    requires index <= |s| && ScanFrom(s, index, previousQuantified, hasVariable)
    requires index == 0 && s != "" ==> s[0] != '^'
    ensures GateChain(s, units, index) && Stops(s, Edge(units, index, |units|))
    ensures MayFollow(units, previousQuantified, hasVariable)
    decreases |s| - index
  {
    if index == |s| || s[index] == '$' {
      units := [];
      hide ScanFrom, ConsumeAtom, ConsumeQuantifier;
      if index < |s| { DollarIsLast(s, index, previousQuantified, hasVariable); }
    } else {
      NoInnerHat(s, index, previousQuantified, hasVariable);
      var u := TurnUnit(s, index, previousQuantified, hasVariable);
      ScanGoesOn(s, index, previousQuantified, hasVariable);
      hide GateUnit, GateChain, MayFollow, Turn, ScanFrom, Stops;
      var rest := ScanUnits(s, u.end, u.kind != U, hasVariable || u.kind == V);
      PrependChain(s, u, rest);
      PrependShaped(u, rest, previousQuantified, hasVariable);
      units := [u] + rest;
    }
  }

  lemma ScanGoesOn(s: string, index: nat, previousQuantified: bool, hasVariable: bool)
    requires index < |s| && ScanFrom(s, index, previousQuantified, hasVariable)
    ensures var t := Turn(s, index, previousQuantified, hasVariable);
            t.Continue? && ScanFrom(s, t.index, t.previousQuantified, t.hasVariable)
  {
    hide Turn;
  }

  lemma DollarIsLast(s: string, index: nat, previousQuantified: bool, hasVariable: bool)
    requires index < |s| && s[index] == '$' && ScanFrom(s, index, previousQuantified, hasVariable)
    ensures index + 1 == |s|
  {
    ScanGoesOn(s, index, previousQuantified, hasVariable);
    hide ScanFrom, ConsumeAtom, ConsumeQuantifier;
  }

  lemma NoInnerHat(s: string, index: nat, previousQuantified: bool, hasVariable: bool)
    requires index < |s| && ScanFrom(s, index, previousQuantified, hasVariable)
    requires index == 0 ==> s[0] != '^'
    ensures s[index] != '^' && Turn(s, index, previousQuantified, hasVariable).Continue?
  {
    ScanGoesOn(s, index, previousQuantified, hasVariable);
    hide ScanFrom, ConsumeAtom, ConsumeQuantifier;
  }

  lemma HatFirst(s: string)
    requires s != "" && s[0] == '^' && ScanFrom(s, 0, false, false)
    ensures ScanFrom(s, 1, false, false)
  {
    ScanGoesOn(s, 0, false, false);
    hide ScanFrom, ConsumeAtom, ConsumeQuantifier;
  }

  lemma HatMeans(s: string)
    requires ScanFrom(s, 0, false, false)
    ensures ScanFrom(s, if s != "" && s[0] == '^' then 1 else 0, false, false)
  {
    if s != "" && s[0] == '^' { HatFirst(s); }
  }

  lemma Assembled(s: string, hat: bool, units: seq<Unit>)
    requires hat ==> s != "" && s[0] == '^'
    requires GateChain(s, units, if hat then 1 else 0) && Shaped(Kinds(units))
    requires Stops(s, Edge(units, if hat then 1 else 0, |units|))
    ensures GateDecomposes(s, Decomposition(hat, units, Edge(units, if hat then 1 else 0, |units|) < |s|))
  {
    hide GateChain, Shaped, Kinds, Edge;
  }

  /** The scan of an accepted string is a reading of it. */
  lemma ScanReads(s: string) returns (d: Decomposition)
    requires ScanFrom(s, 0, false, false)
    ensures GateDecomposes(s, d)
  {
    HatMeans(s);
    hide ScanFrom, GateChain, Shaped, Kinds, GateUnit, Edge, GateDecomposes, Stops;
    var hat := s != "" && s[0] == '^';
    var units := ScanUnits(s, if hat then 1 else 0, false, false);
    Assembled(s, hat, units);
    d := Decomposition(hat, units, Edge(units, if hat then 1 else 0, |units|) < |s|);
  }

  /** The gate accepts exactly what it can read. */
  lemma ScanIffReads(s: string)
    ensures ScanFrom(s, 0, false, false) <==> exists d :: GateDecomposes(s, d)
  {
    hide GateDecomposes, ScanFrom, ScansFromUnit;
    if ScanFrom(s, 0, false, false) {
      var d := ScanReads(s);
    }
    if d :| GateDecomposes(s, d) {
      ScanAccepts(s, d, 0);
      HatTurn(s, d);
    }
  }

  // ------------------------------------------------------------ the published pattern and the gate

  /** Whatever the published pattern accepts, the runtime gate accepts. */
  lemma PublishedImpliesRuntime(s: string)
    requires Accepted(s)
    ensures RuntimeAccepts(s)
    ensures Utf8Length(s) == |s|
  {
    AcceptedIsPrintable(s);
    PrintableIsOneByteEach(s);
    hide M, SafeLexicalPattern, Decomposes, GateDecomposes, ScanFrom;
    var d := PatternDecomposes(s);
    DecomposesIsGate(s, d);
    ScanIffReads(s);
  }

  // ------------------------------------------------------------ the gate itself

  /** What the gate accepts, as text: at most 256 printable characters that can be read. */
  lemma AcceptsIffReads(p: string)
    ensures RuntimeAccepts(p) <==>
              |p| <= 256 && (forall k :: 0 <= k < |p| ==> Printable(p[k])) && exists d :: GateDecomposes(p, d)
  {
    hide GateDecomposes, ScanFrom, Utf8Length;
    ScanIffReads(p);
    if AllPrintable(p) { PrintableIsOneByteEach(p); }
  }

  /** The gate as the loop it is. */
  method ValidateSafePattern(p: string) returns (ok: bool)
    ensures ok == RuntimeAccepts(p)
    ensures ok <==>
              |p| <= 256 && (forall k :: 0 <= k < |p| ==> Printable(p[k])) && exists d :: GateDecomposes(p, d)
  {
    AcceptsIffReads(p);
    hide GateDecomposes;
    var bytes := 0;
    for i := 0 to |p|
      invariant forall k :: 0 <= k < i ==> IsPrintable(p[k])
      invariant bytes == Utf8Length(p[..i])
    {
      if !IsPrintable(p[i]) {
        return false;
      }
      assert p[..i + 1][..i] == p[..i];
      bytes := bytes + Utf8Width(p[i]);
    }
    assert p[..|p|] == p;
    if |p| > PATTERN_MAX_CHARACTERS || bytes > PATTERN_MAX_CHARACTERS {
      return false;
    }
    var index, previousQuantified, hasVariable := 0, false, false;
    while index < |p|
      invariant index <= |p|
      invariant ScanFrom(p, 0, false, false) == ScanFrom(p, index, previousQuantified, hasVariable)
      decreases |p| - index
    {
      var t := Turn(p, index, previousQuantified, hasVariable);
      if t.Refuse? {
        return false;
      }
      index, previousQuantified, hasVariable := t.index, t.previousQuantified, t.hasVariable;
    }
    ok := true;
  }
}
