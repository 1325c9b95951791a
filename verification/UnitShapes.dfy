/**
 The arrangement of units the generated body allows, as a regular expression
 over three letters and as a condition on words: at most one variable unit and
 no two quantified units side by side.
 */
module UnitShapes {
  import opened Regex

  /** Unquantified, fixed-width quantified, variable-width quantified. */
  datatype Kind = U | F | V

  function Letter(k: Kind): Re<Kind> {
    OneOf({k})
  }

  /** `U* (F U+)*` */
  function BeforeVariable(): Re<Kind> {
    Cat(Star(Letter(U)), Star(FixedThenUs()))
  }

  /** `U* (F U+)* F?` */
  function NoVariable(): Re<Kind> {
    Cat(BeforeVariable(), Opt(Letter(F)))
  }

  /** `(U+ F)* U*` */
  function AfterVariable(): Re<Kind> {
    Cat(Star(UsThenFixed()), Star(Letter(U)))
  }

  function Body(): Re<Kind> {
    Alt(NoVariable(), AroundVariable())
  }

  ghost predicate Shaped(w: seq<Kind>) {
    && (forall i, j :: 0 <= i < j < |w| ==> !(w[i] == V && w[j] == V))
    && forall i :: 0 <= i < |w| - 1 ==> w[i] == U || w[i + 1] == U
  }

  /** A stretch with no variable unit and no two quantified neighbours. */
  ghost predicate Calm(w: seq<Kind>, a: nat, b: nat)
    requires a <= b <= |w|
  {
    && (forall k :: a <= k < b ==> w[k] != V)
    && forall k :: a <= k < b - 1 ==> w[k] == U || w[k + 1] == U
  }

  lemma {:induction false} UsOnly(w: seq<Kind>, a: nat, b: nat)
    requires a <= b <= |w|
    ensures MStar(Letter(U), w, a, b) <==> forall k :: a <= k < b ==> w[k] == U
    decreases b - a
  {
    if a < b {
      UsOnly(w, a + 1, b);
      if w[a] == U {
        assert M(Letter(U), w, a, a + 1);
      }
    }
  }

  lemma PlusUs(w: seq<Kind>, a: nat, b: nat)
    requires a <= b <= |w|
    ensures M(Plus(Letter(U)), w, a, b) <==> a < b && forall k :: a <= k < b ==> w[k] == U
  {
    ClassThen({U}, Star(Letter(U)), w, a, b);
    if a < b {
      UsOnly(w, a + 1, b);
    }
  }

  /** The end of the run of unquantified units that starts at `a`. */
  ghost function RunEnd(w: seq<Kind>, a: nat, b: nat): (m: nat)
    requires a <= b <= |w|
    ensures a <= m <= b
    ensures forall k :: a <= k < m ==> w[k] == U
    ensures m < b ==> w[m] != U
    decreases b - a
  {
    if a < b && w[a] == U then RunEnd(w, a + 1, b) else a
  }

  /** The start of the run of unquantified units that ends at `b`. */
  ghost function RunStart(w: seq<Kind>, a: nat, b: nat): (m: nat)
    requires a <= b <= |w|
    ensures a <= m <= b
    ensures forall k :: m <= k < b ==> w[k] == U
    ensures a < m ==> w[m - 1] != U
    decreases b - a
  {
    if a < b && w[b - 1] == U then RunStart(w, a, b - 1) else b
  }

  // ------------------------------------------------------------ (F U+)*

  ghost predicate FixedFirst(w: seq<Kind>, a: nat, b: nat)
    requires a <= b <= |w|
  {
    Calm(w, a, b) && (a < b ==> w[a] == F && w[b - 1] == U)
  }

  function FixedThenUs(): Re<Kind> {
    Cat(Letter(F), Plus(Letter(U)))
  }

  lemma FixedThenUsMeaning(w: seq<Kind>, a: nat, b: nat)
    requires a <= b <= |w|
    ensures M(FixedThenUs(), w, a, b) <==> a + 1 < b && w[a] == F && forall k :: a < k < b ==> w[k] == U
  {
    ClassThen({F}, Plus(Letter(U)), w, a, b);
    if a < b {
      PlusUs(w, a + 1, b);
    }
  }

  lemma {:induction false} FixedFirstBlocks(w: seq<Kind>, a: nat, b: nat)
    requires a <= b <= |w|
    ensures MStar(FixedThenUs(), w, a, b) <==> FixedFirst(w, a, b)
    decreases b - a
  {
    hide M, MStar, FixedThenUs;
    if a == b {
      StarNone(FixedThenUs(), w, a);
    } else {
      if MStar(FixedThenUs(), w, a, b) {
        var k := StarSplit(FixedThenUs(), w, a, b);
        FixedThenUsMeaning(w, a, k);
        FixedFirstBlocks(w, k, b);
      }
      if FixedFirst(w, a, b) {
        var m := RunEnd(w, a + 1, b);
        assert w[a + 1] == U;
        FixedThenUsMeaning(w, a, m);
        FixedFirstBlocks(w, m, b);
        StarJoin(FixedThenUs(), w, a, m, b);
      }
    }
  }

  // ------------------------------------------------------------ (U+ F)*

  ghost predicate FixedLast(w: seq<Kind>, a: nat, b: nat)
    requires a <= b <= |w|
  {
    Calm(w, a, b) && (a < b ==> w[a] == U && w[b - 1] == F)
  }

  function UsThenFixed(): Re<Kind> {
    Cat(Plus(Letter(U)), Letter(F))
  }

  lemma UsThenFixedMeaning(w: seq<Kind>, a: nat, b: nat)
    requires a <= b <= |w|
    ensures M(UsThenFixed(), w, a, b) <==> a + 1 < b && w[b - 1] == F && forall k :: a <= k < b - 1 ==> w[k] == U
  {
    hide M, Plus;
    if M(UsThenFixed(), w, a, b) {
      var k := CatSplit(Plus(Letter(U)), Letter(F), w, a, b);
      PlusUs(w, a, k);
      ClassMeaning({F}, w, k, b);
    }
    if a + 1 < b && w[b - 1] == F && forall k :: a <= k < b - 1 ==> w[k] == U {
      PlusUs(w, a, b - 1);
      ClassMeaning({F}, w, b - 1, b);
      CatJoin(Plus(Letter(U)), Letter(F), w, a, b - 1, b);
    }
  }

  lemma {:induction false} FixedLastBlocks(w: seq<Kind>, a: nat, b: nat)
    requires a <= b <= |w|
    ensures MStar(UsThenFixed(), w, a, b) <==> FixedLast(w, a, b)
    decreases b - a
  {
    hide M, MStar, UsThenFixed;
    if a == b {
      StarNone(UsThenFixed(), w, a);
    } else {
      if MStar(UsThenFixed(), w, a, b) {
        var k := StarSplit(UsThenFixed(), w, a, b);
        UsThenFixedMeaning(w, a, k);
        FixedLastBlocks(w, k, b);
      }
      if FixedLast(w, a, b) {
        var m := RunEnd(w, a, b);
        assert w[m] == F;
        UsThenFixedMeaning(w, a, m + 1);
        FixedLastBlocks(w, m + 1, b);
        StarJoin(UsThenFixed(), w, a, m + 1, b);
      }
    }
  }

  // ------------------------------------------------------------ the two sides of a variable unit

  /** Before a variable unit: calm, and not ending in a quantified unit. */
  lemma BeforeMeaning(w: seq<Kind>, b: nat)
    requires b <= |w|
    ensures M(BeforeVariable(), w, 0, b) <==> Calm(w, 0, b) && (b > 0 ==> w[b - 1] == U)
  {
    hide M, MStar;
    if M(BeforeVariable(), w, 0, b) {
      var k := CatSplit(Star(Letter(U)), Star(FixedThenUs()), w, 0, b);
      StarMeaning(Letter(U), w, 0, k);
      StarMeaning(FixedThenUs(), w, k, b);
      UsOnly(w, 0, k);
      FixedFirstBlocks(w, k, b);
    }
    if Calm(w, 0, b) && (b > 0 ==> w[b - 1] == U) {
      var m := RunEnd(w, 0, b);
      UsOnly(w, 0, m);
      FixedFirstBlocks(w, m, b);
      StarMeaning(Letter(U), w, 0, m);
      StarMeaning(FixedThenUs(), w, m, b);
      CatJoin(Star(Letter(U)), Star(FixedThenUs()), w, 0, m, b);
    }
  }

  /** After a variable unit: calm, and not starting with a quantified unit. */
  lemma AfterMeaning(w: seq<Kind>, a: nat)
    requires a <= |w|
    ensures M(AfterVariable(), w, a, |w|) <==> Calm(w, a, |w|) && (a < |w| ==> w[a] == U)
  {
    hide M, MStar;
    var b := |w|;
    if M(AfterVariable(), w, a, b) {
      var k := CatSplit(Star(UsThenFixed()), Star(Letter(U)), w, a, b);
      StarMeaning(UsThenFixed(), w, a, k);
      StarMeaning(Letter(U), w, k, b);
      FixedLastBlocks(w, a, k);
      UsOnly(w, k, b);
    }
    if Calm(w, a, b) && (a < b ==> w[a] == U) {
      var m := RunStart(w, a, b);
      FixedLastBlocks(w, a, m);
      UsOnly(w, m, b);
      StarMeaning(UsThenFixed(), w, a, m);
      StarMeaning(Letter(U), w, m, b);
      CatJoin(Star(UsThenFixed()), Star(Letter(U)), w, a, m, b);
    }
  }

  lemma OptionalFixed(w: seq<Kind>, a: nat, b: nat)
    requires a <= b <= |w|
    ensures M(Opt(Letter(F)), w, a, b) <==> a == b || (b == a + 1 && w[a] == F)
  {
  }

  lemma NoVariableMeaning(w: seq<Kind>)
    ensures M(NoVariable(), w, 0, |w|) <==> Calm(w, 0, |w|)
  {
    hide M, BeforeVariable;
    var n := |w|;
    if M(NoVariable(), w, 0, n) {
      var k := CatSplit(BeforeVariable(), Opt(Letter(F)), w, 0, n);
      OptionalFixed(w, k, n);
      BeforeMeaning(w, k);
    }
    if Calm(w, 0, n) {
      var k := if n > 0 && w[n - 1] == F then n - 1 else n;
      BeforeMeaning(w, k);
      OptionalFixed(w, k, n);
      CatJoin(BeforeVariable(), Opt(Letter(F)), w, 0, k, n);
    }
  }

  function AroundVariable(): Re<Kind> {
    Cat(BeforeVariable(), Cat(Letter(V), AfterVariable()))
  }

  /** Unit `v` is variable, and calm on both sides with unquantified neighbours. */
  ghost predicate VariableAt(w: seq<Kind>, v: nat)
    requires v < |w|
  {
    && w[v] == V && Calm(w, 0, v) && Calm(w, v + 1, |w|)
    && (v > 0 ==> w[v - 1] == U) && (v + 1 < |w| ==> w[v + 1] == U)
  }

  lemma AroundImpliesVariable(w: seq<Kind>) returns (v: nat)
    requires M(AroundVariable(), w, 0, |w|)
    ensures v < |w| && VariableAt(w, v)
  {
    hide M, BeforeVariable, AfterVariable;
    v := CatSplit(BeforeVariable(), Cat(Letter(V), AfterVariable()), w, 0, |w|);
    ClassThen({V}, AfterVariable(), w, v, |w|);
    BeforeMeaning(w, v);
    AfterMeaning(w, v + 1);
  }

  lemma VariableImpliesAround(w: seq<Kind>, v: nat)
    requires v < |w| && VariableAt(w, v)
    ensures M(AroundVariable(), w, 0, |w|)
  {
    hide M, BeforeVariable, AfterVariable;
    BeforeMeaning(w, v);
    AfterMeaning(w, v + 1);
    ClassThen({V}, AfterVariable(), w, v, |w|);
    CatJoin(BeforeVariable(), Cat(Letter(V), AfterVariable()), w, 0, v, |w|);
  }

  lemma ShapedCases(w: seq<Kind>)
    ensures Shaped(w) <==> Calm(w, 0, |w|) || exists v :: 0 <= v < |w| && VariableAt(w, v)
  {
    if Shaped(w) && !Calm(w, 0, |w|) {
      var v :| 0 <= v < |w| && w[v] == V;
      assert VariableAt(w, v);
    }
  }

  /** The body's expression and the condition on words are the same language. */
  lemma BodyIsShaped(w: seq<Kind>)
    ensures M(Body(), w, 0, |w|) <==> Shaped(w)
  {
    AltMeaning(NoVariable(), AroundVariable(), w, 0, |w|);
    hide M, NoVariable, AroundVariable, VariableAt, Shaped, Calm;
    NoVariableMeaning(w);
    ShapedCases(w);
    if M(AroundVariable(), w, 0, |w|) {
      var v := AroundImpliesVariable(w);
    }
    if v :| 0 <= v < |w| && VariableAt(w, v) {
      VariableImpliesAround(w, v);
    }
  }
}
