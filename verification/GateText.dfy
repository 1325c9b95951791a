/** What the runtime scan consumes at a position, exactly: the gate's atoms and quantifiers and no others. */
module GateText {
  import opened Wrappers
  import opened Decimals
  import opened PatternText
  import opened AuthoredText
  import opened RuntimeScanner
  import opened SafeAtoms

  // ------------------------------------------------------------ escapes and class steps

  lemma EscapeIff(p: string, i: nat, e: nat)
    requires i <= e <= |p|
    ensures GateEscape(p[i..e]) <==> i < |p| && p[i] == '\\' && ConsumeEscape(p, i) == Some(e)
  {
    if e == i + 2 { assert p[i..e] == [p[i], p[i + 1]]; }
  }

  /** What the class scan does at one member, with or without a range pending. */
  lemma MemberScanned(p: string, k: nat, e: nat, has: bool, pending: bool)
    requires k <= e <= |p| && GateMember(p[k..e])
    ensures k < e && p[k] != ']' && p[k] != '-' && ClassLoop(p, k, has, pending) == ClassLoop(p, e, true, false)
  {
    EscapeIff(p, k, e);
    if !GateEscape(p[k..e]) { assert p[k..e][0] == p[k]; }
  }

  lemma StepScanned(p: string, k: nat, e: nat)
    requires k <= e <= |p| && GateStep(p[k..e])
    ensures k < e && ClassLoop(p, k, true, false) == ClassLoop(p, e, true, false)
  {
    hide GateMember;
    if GateMember(p[k..e]) {
      MemberScanned(p, k, e, true, false);
    } else {
      assert p[k..e][1..] == p[k + 1..e] && p[k..e][0] == p[k];
      MemberScanned(p, k + 1, e, true, true);
    }
  }

  lemma {:induction false} StepsScanned(p: string, k: nat, e: nat, steps: seq<string>)
    requires k <= e <= |p| && (forall n :: 0 <= n < |steps| ==> GateStep(steps[n])) && p[k..e] == Concat(steps)
    ensures ClassLoop(p, k, true, false) == ClassLoop(p, e, true, false)
    decreases |steps|
  {
    if steps != [] {
      assert Concat(steps) == steps[0] + Concat(steps[1..]);
      hide Concat, GateStep, ClassLoop;
      var m := k + |steps[0]|;
      CutAt(p, k, e, steps[0], Concat(steps[1..]));
      StepScanned(p, k, m);
      StepsScanned(p, m, e, steps[1..]);
    }
  }

  lemma CloseScanned(p: string, k: nat, e: nat, tail: bool)
    requires k <= e <= |p| && p[k..e] == Hyphen(tail) + "]"
    ensures ClassLoop(p, k, true, false) == Some(e)
  {
    var close := Hyphen(tail) + "]";
    assert |close| == e - k && p[k..e][0] == p[k] == close[0];
    if tail { assert p[k..e][1] == p[k + 1] == close[1]; }
  }

  lemma FirstScanned(p: string, k: nat, e: nat)
    requires k <= e <= |p| && (GateMember(p[k..e]) || p[k..e] == "-")
    ensures k < e && ClassLoop(p, k, false, false) == ClassLoop(p, e, true, false)
  {
    if GateMember(p[k..e]) {
      MemberScanned(p, k, e, false, false);
    } else {
      assert p[k..e][0] == p[k];
    }
  }

  // ------------------------------------------------------------ from a scan to the steps

  /** The member the class scan goes past at `k`. */
  lemma ScannedMember(p: string, k: nat, has: bool, pending: bool) returns (e: nat)
    requires k < |p| && p[k] != ']' && p[k] != '-' && ClassLoop(p, k, has, pending).Some?
    ensures k < e <= |p| && GateMember(p[k..e]) && ClassLoop(p, k, has, pending) == ClassLoop(p, e, true, false)
  {
    if p[k] == '\\' {
      e := ConsumeEscape(p, k).value;
      EscapeIff(p, k, e);
    } else {
      e := k + 1;
      assert p[k..e] == [p[k]];
    }
  }

  /** The scan closes at a bracket, or at a hyphen before one. */
  lemma ScannedClose(p: string, k: nat, e: nat)
    requires k < e <= |p| && ClassLoop(p, k, true, false) == Some(e)
    requires p[k] == ']' || (p[k] == '-' && k + 1 < |p| && p[k + 1] == ']')
    ensures p[k..e] == Concat([]) + (Hyphen(p[k] == '-') + "]")
  {
    if p[k] == '-' {
      assert ClassLoop(p, k, true, false) == ClassLoop(p, k + 1, true, false) == Some(k + 2);
      assert p[k..e] == [p[k], p[k + 1]];
    } else {
      assert p[k..e] == [p[k]];
    }
  }

  /** The steps a class scan goes past, up to its closing bracket. */
  lemma {:induction false} ScannedSteps(p: string, k: nat, e: nat) returns (steps: seq<string>, tail: bool)
    requires k <= e <= |p| && ClassLoop(p, k, true, false) == Some(e)
    ensures (forall n :: 0 <= n < |steps| ==> GateStep(steps[n])) && p[k..e] == Concat(steps) + (Hyphen(tail) + "]")
    decreases |p| - k
  {
    assert k < |p|;
    if p[k] == ']' || (p[k] == '-' && k + 1 < |p| && p[k + 1] == ']') {
      steps, tail := [], p[k] == '-';
      ScannedClose(p, k, e);
    } else {
      var m := ScannedStep(p, k);
      hide ClassLoop, GateStep;
      var rest: seq<string>;
      rest, tail := ScannedSteps(p, m, e);
      SpanCat(p, k, m, e);
      steps := [p[k..m]] + rest;
      assert steps[1..] == rest;
    }
  }

  lemma ScannedStep(p: string, k: nat) returns (m: nat)
    requires k < |p| && p[k] != ']' && !(p[k] == '-' && k + 1 < |p| && p[k + 1] == ']')
    requires ClassLoop(p, k, true, false).Some?
    ensures k < m <= |p| && GateStep(p[k..m]) && ClassLoop(p, k, true, false) == ClassLoop(p, m, true, false)
  {
    if p[k] == '-' {
      assert k + 1 < |p|;
      assert ClassLoop(p, k, true, false) == ClassLoop(p, k + 1, true, true);
      assert p[k + 1] != '-';
      m := ScannedMember(p, k + 1, true, true);
      assert p[k..m][1..] == p[k + 1..m] && p[k..m][0] == '-';
    } else {
      m := ScannedMember(p, k, true, false);
    }
  }

  lemma ScannedFirst(p: string, k: nat) returns (m: nat)
    requires k < |p| && ClassLoop(p, k, false, false).Some?
    ensures k < m <= |p| && (GateMember(p[k..m]) || p[k..m] == "-")
    ensures ClassLoop(p, k, false, false) == ClassLoop(p, m, true, false)
  {
    if p[k] == '-' {
      m := k + 1;
      assert p[k..m] == "-";
    } else {
      m := ScannedMember(p, k, false, false);
    }
  }

  // ------------------------------------------------------------ classes

  lemma GateClassCat(hat: bool, first: string, steps: seq<string>, tail: bool)
    ensures GateClassText(hat, first, steps, tail)
         == ("[" + Negation(hat)) + (first + (Concat(steps) + (Hyphen(tail) + "]")))
  {
    hide Concat, Hyphen, Negation;
    var a, b, c, d := "[" + Negation(hat), first, Concat(steps), Hyphen(tail);
    assert a + b + c + d + "]" == a + (b + (c + (d + "]")));
  }

  lemma ClassIsConsumed(p: string, i: nat, e: nat, hat: bool, first: string, steps: seq<string>, tail: bool)
    requires i <= e <= |p| && GateParts(hat, first, steps) && p[i..e] == GateClassText(hat, first, steps, tail)
    ensures i < |p| && p[i] == '[' && ConsumeClass(p, i) == Some(e)
  {
    GateClassCat(hat, first, steps, tail);
    hide Concat, ClassLoop, GateClassText, GateMember, GateStep;
    var b := BodyStart(i, hat);
    CutAt(p, i, e, "[" + Negation(hat), first + (Concat(steps) + (Hyphen(tail) + "]")));
    OpenSpan(p, i, hat);
    CutAt(p, b, e, first, Concat(steps) + (Hyphen(tail) + "]"));
    var m := b + |first|;
    CutAt(p, m, e, Concat(steps), Hyphen(tail) + "]");
    var n := m + |Concat(steps)|;
    FirstScanned(p, b, m);
    StepsScanned(p, m, n, steps);
    CloseScanned(p, n, e, tail);
    if !hat { FirstIsNoHat(p, b, m, first); }
  }

  lemma FirstIsNoHat(p: string, b: nat, m: nat, first: string)
    requires b < m <= |p| && p[b..m] == first && (GateMember(first) || first == "-") && first != "^"
    ensures p[b] != '^'
  {
    assert first[0] == p[b];
    assert |first| == 1 ==> first == [first[0]];
  }

  lemma ConsumedIsClass(p: string, i: nat, e: nat)
    requires i <= e <= |p| && i < |p| && p[i] == '[' && ConsumeClass(p, i) == Some(e)
    ensures GateClass(p[i..e])
  {
    var hat := i + 1 < |p| && p[i + 1] == '^';
    var b := BodyStart(i, hat);
    assert b < |p| && ClassLoop(p, b, false, false) == Some(e);
    hide ClassLoop, GateMember, GateStep;
    var m := ScannedFirst(p, b);
    assert m <= e by { LoopForward(p, m); }
    var steps, tail := ScannedSteps(p, m, e);
    OpenSpan(p, i, hat);
    SpanCat(p, i, b, e);
    SpanCat(p, b, m, e);
    hide Concat, Hyphen, Negation;
    GateClassCat(hat, p[b..m], steps, tail);
    if !hat { assert p[b..m][0] == p[b]; }
    assert GateParts(hat, p[b..m], steps);
    assert p[i..e] == GateClassText(hat, p[b..m], steps, tail);
  }

  lemma LoopForward(p: string, k: nat)
    requires k <= |p| && ClassLoop(p, k, true, false).Some?
    ensures k < ClassLoop(p, k, true, false).value
  {
  }

  /** The scan of a class consumes exactly a class. */
  lemma ClassIff(p: string, i: nat, e: nat)
    requires i <= e <= |p|
    ensures GateClass(p[i..e]) <==> i < |p| && p[i] == '[' && ConsumeClass(p, i) == Some(e)
  {
    hide ConsumeClass, GateParts, GateClassText;
    if hat, first, steps, tail :| GateParts(hat, first, steps) && p[i..e] == GateClassText(hat, first, steps, tail) {
      ClassIsConsumed(p, i, e, hat, first, steps, tail);
    }
    if i < |p| && p[i] == '[' && ConsumeClass(p, i) == Some(e) {
      ConsumedIsClass(p, i, e);
    }
  }

  // ------------------------------------------------------------ atoms

  /** Away from an anchor, the scan consumes exactly an atom. */
  lemma ConsumeAtomIff(p: string, i: nat, e: nat)
    requires i <= e <= |p| && (i < |p| ==> p[i] !in ANCHORS)
    ensures GateAtom(p[i..e]) <==> i < |p| && ConsumeAtom(p, i) == Some(e)
  {
    EscapeIff(p, i, e);
    ClassIff(p, i, e);
    hide GateClass, GateEscape, ConsumeClass, ConsumeEscape;
    if e == i + 1 { assert p[i..e] == [p[i]]; }
  }

  /** An atom never starts like an anchor or a quantifier. */
  lemma AtomStarts(t: string)
    requires GateAtom(t)
    ensures t != "" && !NotAtomStart(t[0])
  {
    hide Concat;
  }

  // ------------------------------------------------------------ quantifiers

  /** What is written between braces for these bounds. */
  ghost predicate BraceBounds(inner: string, lo: nat, hi: Option<nat>) {
    || (Numeral(inner) && lo == Value(inner) && hi == Some(lo))
    || (exists d :: Numeral(d) && inner == d + "," && lo == Value(d) && hi == None)
    || exists d, e :: Numeral(d) && Numeral(e) && inner == d + "," + e && lo == Value(d) && hi == Some(Value(e))
  }

  lemma BoundsAreWritten(inner: string, end: nat)
    requires Bounds(inner, end).Some?
    ensures var q := Bounds(inner, end).value;
            q.end == end && BraceBounds(inner, q.lo, q.hi)
  {
    hide Value;
    var comma := IndexOf(inner, ',', 0);
    var d := inner[..comma];
    if comma == |inner| {
      assert d == inner;
    } else {
      var e := inner[comma + 1..];
      assert inner == d + "," + e;
      if e == "" {
        assert inner == d + ",";
      } else {
        assert Numeral(d) && Numeral(e);
      }
    }
  }

  lemma WrittenAreBounds(inner: string, end: nat, lo: nat, hi: Option<nat>)
    requires BraceBounds(inner, lo, hi)
    ensures Bounds(inner, end) == Some(Quantifier(end, lo, hi))
    ensures forall k :: 0 <= k < |inner| ==> inner[k] != '}'
  {
    hide Bounds, Value;
    if Numeral(inner) && lo == Value(inner) && hi == Some(lo) {
      OneBound(inner, end);
    } else if d :| Numeral(d) && inner == d + "," && lo == Value(d) && hi == None {
      OpenBound(d, inner, end);
    } else {
      var d, e :| Numeral(d) && Numeral(e) && inner == d + "," + e && lo == Value(d) && hi == Some(Value(e));
      TwoBounds(d, e, inner, end);
    }
  }

  /** Bounds are written as a mark, or between braces. */
  lemma WrittenIff(t: string, lo: nat, hi: Option<nat>)
    ensures Written(t, lo, hi) <==>
              || (t == "*" && lo == 0 && hi == None)
              || (t == "+" && lo == 1 && hi == None)
              || (t == "?" && lo == 0 && hi == Some(1))
              || exists inner :: BraceBounds(inner, lo, hi) && t == "{" + inner + "}"
  {
    hide Value;
    if d :| Numeral(d) && t == "{" + d + "}" && lo == Value(d) && hi == Some(lo) {
      assert BraceBounds(d, lo, hi);
    }
    if d :| Numeral(d) && t == "{" + d + ",}" && lo == Value(d) && hi == None {
      assert t == "{" + (d + ",") + "}" && BraceBounds(d + ",", lo, hi);
    }
    if d, e :| Numeral(d) && Numeral(e) && t == "{" + d + "," + e + "}" && lo == Value(d) && hi == Some(Value(e)) {
      assert t == "{" + (d + "," + e) + "}" && BraceBounds(d + "," + e, lo, hi);
    }
    if inner :| BraceBounds(inner, lo, hi) && t == "{" + inner + "}" {
      BracedIsWritten(t, inner, lo, hi);
    }
  }

  lemma BracedIsWritten(t: string, inner: string, lo: nat, hi: Option<nat>)
    requires BraceBounds(inner, lo, hi) && t == "{" + inner + "}"
    ensures Written(t, lo, hi)
  {
    hide Value;
    if Numeral(inner) && lo == Value(inner) && hi == Some(lo) {
    } else if d :| Numeral(d) && inner == d + "," && lo == Value(d) && hi == None {
      assert t == "{" + d + ",}";
    } else {
      var d, e :| Numeral(d) && Numeral(e) && inner == d + "," + e && lo == Value(d) && hi == Some(Value(e));
      assert t == "{" + d + "," + e + "}";
    }
  }

  /** The first closing brace is the one around the bounds. */
  lemma ClosesAt(p: string, i: nat, j: nat, inner: string)
    requires i <= j <= |p| && p[i..j] == "{" + inner + "}" && forall k :: 0 <= k < |inner| ==> inner[k] != '}'
    ensures i + 1 < j && p[i] == '{' && p[i + 1..j - 1] == inner && IndexOf(p, '}', i + 1) == j - 1
  {
    BracesAround(p, i, j, inner);
    assert forall k :: i < k < j - 1 ==> p[k] == inner[k - i - 1];
  }

  lemma BracedConsumed(p: string, i: nat, j: nat, inner: string, lo: nat, hi: Option<nat>)
    requires i <= j <= |p| && BraceBounds(inner, lo, hi) && p[i..j] == "{" + inner + "}" && lo <= Top(hi) <= 4096
    ensures StartsQuantifier(p, i) && ConsumeQuantifier(p, i) == Some(Quantifier(j, lo, hi))
  {
    hide BraceBounds, Bounds, IndexOf;
    WrittenAreBounds(inner, j, lo, hi);
    ClosesAt(p, i, j, inner);
  }

  lemma ConsumedBraced(p: string, i: nat, j: nat, lo: nat, hi: Option<nat>)
    requires i <= j <= |p| && StartsQuantifier(p, i) && p[i] == '{'
    requires ConsumeQuantifier(p, i) == Some(Quantifier(j, lo, hi))
    ensures i + 1 < j && BraceBounds(p[i + 1..j - 1], lo, hi) && p[i..j] == "{" + p[i + 1..j - 1] + "}"
    ensures lo <= Top(hi) <= 4096
  {
    hide Bounds, BraceBounds;
    var close := IndexOf(p, '}', i + 1);
    BoundsAreWritten(p[i + 1..close], close + 1);
    assert j == close + 1 && p[j - 1] == '}';
    hide ConsumeQuantifier, IndexOf;
    BracesAround(p, i, j, p[i + 1..j - 1]);
  }

  /** The scan consumes exactly a quantifier, and reads its bounds. */
  lemma ConsumeQuantifierIff(p: string, i: nat, j: nat, lo: nat, hi: Option<nat>)
    requires i <= j <= |p|
    ensures GateQuantifier(p[i..j], lo, hi) <==>
              StartsQuantifier(p, i) && ConsumeQuantifier(p, i) == Some(Quantifier(j, lo, hi))
  {
    WrittenIff(p[i..j], lo, hi);
    hide Written, BraceBounds, Bounds;
    if j == i + 1 { assert p[i..j] == [p[i]]; }
    if inner :| BraceBounds(inner, lo, hi) && p[i..j] == "{" + inner + "}" && lo <= Top(hi) <= 4096 {
      BracedConsumed(p, i, j, inner, lo, hi);
    }
    if StartsQuantifier(p, i) && p[i] == '{' && ConsumeQuantifier(p, i) == Some(Quantifier(j, lo, hi)) {
      ConsumedBraced(p, i, j, lo, hi);
    }
  }

  /** The kinds of quantifier are told apart by what the scan consumes. */
  lemma ConsumedIff(p: string, i: nat, j: nat)
    requires i <= j <= |p|
    ensures GateFixed(p[i..j]) <==> Consumed(p, i, j, false)
    ensures GateVariable(p[i..j]) <==> Consumed(p, i, j, true)
  {
    hide GateQuantifier, ConsumeQuantifier, StartsQuantifier;
    if StartsQuantifier(p, i) && ConsumeQuantifier(p, i).Some? {
      var q := ConsumeQuantifier(p, i).value;
      if q.end <= |p| && q.end == j { ConsumeQuantifierIff(p, i, j, q.lo, q.hi); }
    }
    forall lo, hi | GateQuantifier(p[i..j], lo, hi)
      ensures StartsQuantifier(p, i) && ConsumeQuantifier(p, i) == Some(Quantifier(j, lo, hi))
    {
      ConsumeQuantifierIff(p, i, j, lo, hi);
    }
  }
}
