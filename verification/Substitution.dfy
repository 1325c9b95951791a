/**
 Substituting a text expression for each letter of a unit expression: the text
 matches exactly when it can be cut into pieces that spell a matching unit word.
 */
module Substitution {
  import opened Regex
  import opened UnitShapes

  /** A unit expression built from single letters, joins, choices and stars. */
  predicate Lettered(re: Re<Kind>) {
    match re
    case Empty => true
    case OneOf(ks) => ks == {U} || ks == {F} || ks == {V}
    case Cat(left, right) => Lettered(left) && Lettered(right)
    case Alt(left, right) => Lettered(left) && Lettered(right)
    case Star(body) => Lettered(body)
    case _ => false
  }

  function Subst<T>(re: Re<Kind>, f: Kind -> Re<T>): Re<T>
    requires Lettered(re)
  {
    match re
    case Empty => Empty
    case OneOf(ks) => if ks == {U} then f(U) else if ks == {F} then f(F) else f(V)
    case Cat(left, right) => Cat(Subst(left, f), Subst(right, f))
    case Alt(left, right) => Alt(Subst(left, f), Subst(right, f))
    case Star(body) => Star(Subst(body, f))
  }

  /** `s` from the first cut to the last, piece by piece, spells the word `w`. */
  ghost predicate Spelled<T>(f: Kind -> Re<T>, s: seq<T>, w: seq<Kind>, cuts: seq<nat>) {
    && |cuts| == |w| + 1
    && cuts[|w|] <= |s|
    && (forall k :: 0 <= k < |w| ==> cuts[k] <= cuts[k + 1])
    && (forall k :: 0 <= k <= |w| ==> cuts[k] <= |s|)
    && forall k :: 0 <= k < |w| ==> M(f(w[k]), s, cuts[k], cuts[k + 1])
  }

  lemma {:induction false} CutsOrdered<T>(f: Kind -> Re<T>, s: seq<T>, w: seq<Kind>, cuts: seq<nat>, a: nat, b: nat)
    requires Spelled(f, s, w, cuts) && a <= b <= |w|
    ensures cuts[a] <= cuts[b]
  {
    if a < b {
      CutsOrdered(f, s, w, cuts, a, b - 1);
    }
  }

  lemma JoinSpelled<T>(f: Kind -> Re<T>, s: seq<T>, w: seq<Kind>, cuts: seq<nat>, w': seq<Kind>, cuts': seq<nat>)
    requires Spelled(f, s, w, cuts) && Spelled(f, s, w', cuts') && cuts[|w|] == cuts'[0]
    ensures Spelled(f, s, w + w', cuts + cuts'[1..])
    ensures (cuts + cuts'[1..])[0] == cuts[0]
    ensures (cuts + cuts'[1..])[|w + w'|] == cuts'[|w'|]
  {
    hide M;
    var all := cuts + cuts'[1..];
    assert forall k :: |w| <= k < |all| ==> all[k] == cuts'[k - |w|];
    assert forall k :: 0 <= k < |w + w'| ==> all[k] <= all[k + 1];
    var word := w + w';
    forall k | 0 <= k < |word| ensures M(f(word[k]), s, all[k], all[k + 1]) {
      if k >= |w| {
        assert all[k] == cuts'[k - |w|] && all[k + 1] == cuts'[k - |w| + 1];
      }
    }
  }

  lemma JoinWords(left: Re<Kind>, right: Re<Kind>, w: seq<Kind>, w': seq<Kind>)
    requires Plain(left) && Plain(right) && M(left, w, 0, |w|) && M(right, w', 0, |w'|)
    ensures M(Cat(left, right), w + w', 0, |w + w'|)
  {
    hide M, Plain;
    assert w[0..|w|] == (w + w')[0..|w|];
    Local(left, w, 0, |w|, w + w', 0);
    assert w'[0..|w'|] == (w + w')[|w|..|w| + |w'|];
    Local(right, w', 0, |w'|, w + w', |w|);
    CatJoin(left, right, w + w', 0, |w|, |w + w'|);
  }

  lemma {:induction false} LetteredIsPlain(re: Re<Kind>)
    requires Lettered(re)
    ensures Plain(re)
  {
    match re
    case Cat(left, right) => LetteredIsPlain(left); LetteredIsPlain(right);
    case Alt(left, right) => LetteredIsPlain(left); LetteredIsPlain(right);
    case Star(body) => LetteredIsPlain(body);
    case _ =>
  }

  /** A match of the substituted expression spells a word of the unit expression. */
  lemma {:induction false} MatchSpellsWord<T>(re: Re<Kind>, f: Kind -> Re<T>, s: seq<T>, i: nat, j: nat)
      returns (w: seq<Kind>, cuts: seq<nat>)
    requires Lettered(re) && i <= j <= |s| && M(Subst(re, f), s, i, j)
    ensures Spelled(f, s, w, cuts) && cuts[0] == i && cuts[|w|] == j
    ensures M(re, w, 0, |w|)
    decreases re, 0
  {
    LetteredIsPlain(re);
    match re
    case Empty =>
      w, cuts := [], [i];
    case OneOf(ks) =>
      var k := if ks == {U} then U else if ks == {F} then F else V;
      w, cuts := [k], [i, j];
    case Cat(left, right) =>
      var m := CatSplit(Subst(left, f), Subst(right, f), s, i, j);
      hide M;
      var w1, cuts1 := MatchSpellsWord(left, f, s, i, m);
      var w2, cuts2 := MatchSpellsWord(right, f, s, m, j);
      JoinSpelled(f, s, w1, cuts1, w2, cuts2);
      JoinWords(left, right, w1, w2);
      w, cuts := w1 + w2, cuts1 + cuts2[1..];
    case Alt(left, right) =>
      if M(Subst(left, f), s, i, j) {
        w, cuts := MatchSpellsWord(left, f, s, i, j);
      } else {
        w, cuts := MatchSpellsWord(right, f, s, i, j);
      }
    case Star(body) =>
      w, cuts := StarSpellsWord(body, f, s, i, j);
  }

  lemma {:induction false} StarSpellsWord<T>(body: Re<Kind>, f: Kind -> Re<T>, s: seq<T>, i: nat, j: nat)
      returns (w: seq<Kind>, cuts: seq<nat>)
    requires Lettered(body) && i <= j <= |s| && MStar(Subst(body, f), s, i, j)
    ensures Spelled(f, s, w, cuts) && cuts[0] == i && cuts[|w|] == j
    ensures MStar(body, w, 0, |w|)
    decreases body, 1, j - i
  {
    if i == j {
      w, cuts := [], [i];
    } else {
      LetteredIsPlain(body);
      var m := StarSplit(Subst(body, f), s, i, j);
      hide M, MStar;
      var w1, cuts1 := MatchSpellsWord(body, f, s, i, m);
      var w2, cuts2 := StarSpellsWord(body, f, s, m, j);
      JoinSpelled(f, s, w1, cuts1, w2, cuts2);
      w, cuts := w1 + w2, cuts1 + cuts2[1..];
      assert w1[0..|w1|] == w[0..|w1|];
      Local(body, w1, 0, |w1|, w, 0);
      assert w2[0..|w2|] == w[|w1|..|w1| + |w2|];
      LocalStar(body, w2, 0, |w2|, w, |w1|);
      StarJoin(body, w, 0, |w1|, |w|);
    }
  }

  /** A spelled word of the unit expression is a match of the substituted one. */
  lemma {:induction false} WordIsMatched<T>(re: Re<Kind>, f: Kind -> Re<T>, s: seq<T>,
                                            w: seq<Kind>, cuts: seq<nat>, a: nat, b: nat)
    requires Lettered(re) && Spelled(f, s, w, cuts) && a <= b <= |w| && M(re, w, a, b)
    ensures cuts[a] <= cuts[b] && M(Subst(re, f), s, cuts[a], cuts[b])
    decreases re, 0
  {
    CutsOrdered(f, s, w, cuts, a, b);
    match re
    case Empty =>
    case OneOf(_) =>
    case Cat(left, right) =>
      var m := CatSplit(left, right, w, a, b);
      WordIsMatched(left, f, s, w, cuts, a, m);
      WordIsMatched(right, f, s, w, cuts, m, b);
      CatJoin(Subst(left, f), Subst(right, f), s, cuts[a], cuts[m], cuts[b]);
    case Alt(left, right) =>
      if M(left, w, a, b) {
        WordIsMatched(left, f, s, w, cuts, a, b);
      } else {
        WordIsMatched(right, f, s, w, cuts, a, b);
      }
    case Star(body) =>
      StarIsMatched(body, f, s, w, cuts, a, b);
  }

  lemma {:induction false} StarIsMatched<T>(body: Re<Kind>, f: Kind -> Re<T>, s: seq<T>,
                                            w: seq<Kind>, cuts: seq<nat>, a: nat, b: nat)
    requires Lettered(body) && Spelled(f, s, w, cuts) && a <= b <= |w| && MStar(body, w, a, b)
    ensures cuts[a] <= cuts[b] && MStar(Subst(body, f), s, cuts[a], cuts[b])
    decreases body, 1, b - a
  {
    CutsOrdered(f, s, w, cuts, a, b);
    if a < b {
      var m := StarSplit(body, w, a, b);
      WordIsMatched(body, f, s, w, cuts, a, m);
      StarIsMatched(body, f, s, w, cuts, m, b);
      StarJoin(Subst(body, f), s, cuts[a], cuts[m], cuts[b]);
    }
  }
}
