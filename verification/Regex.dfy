/**
 Regular expressions over any alphabet, with the lookaheads and anchors the
 generated pattern uses. `M(re, s, i, j)` says `re` can match `s[i..j]` inside `s`.
 */
module Regex {

  datatype Re<T> =
    | Empty
    | OneOf(cs: set<T>)
    | Cat(left: Re<T>, right: Re<T>)
    | Alt(left: Re<T>, right: Re<T>)
    | Star(body: Re<T>)
    | Times(body: Re<T>, lo: nat, hi: nat)
    | Ahead(body: Re<T>)
    | NotAhead(body: Re<T>)
    | Caret
    | Dollar(newline: set<T>)

  function Opt<T>(re: Re<T>): Re<T> {
    Alt(re, Empty)
  }

  function Plus<T>(re: Re<T>): Re<T> {
    Cat(re, Star(re))
  }

  function AltAll<T>(parts: seq<Re<T>>): Re<T>
    requires parts != []
  {
    if |parts| == 1 then parts[0] else Alt(parts[0], AltAll(parts[1..]))
  }

  ghost predicate M<T>(re: Re<T>, s: seq<T>, i: nat, j: nat)
    requires i <= j <= |s|
    decreases re, 0
  {
    match re
    case Empty => i == j
    case OneOf(cs) => j == i + 1 && s[i] in cs
    case Cat(left, right) => exists k :: i <= k <= j && M(left, s, i, k) && M(right, s, k, j)
    case Alt(left, right) => M(left, s, i, j) || M(right, s, i, j)
    case Star(body) => MStar(body, s, i, j)
    case Times(body, lo, hi) => MTimes(body, lo, hi, s, i, j)
    case Ahead(body) => i == j && exists k :: i <= k <= |s| && M(body, s, i, k)
    case NotAhead(body) => i == j && !exists k :: i <= k <= |s| && M(body, s, i, k)
    case Caret => i == j == 0
    case Dollar(newline) => i == j && (i == |s| || (i == |s| - 1 && s[i] in newline))
  }

  /** Any number of nonempty rounds; an empty round adds nothing. */
  ghost predicate MStar<T>(body: Re<T>, s: seq<T>, i: nat, j: nat)
    requires i <= j <= |s|
    decreases body, 1, j - i
  {
    i == j || exists k :: i < k <= j && M(body, s, i, k) && MStar(body, s, k, j)
  }

  ghost predicate MTimes<T>(body: Re<T>, lo: nat, hi: nat, s: seq<T>, i: nat, j: nat)
    requires i <= j <= |s|
    decreases body, 1, hi
  {
    (lo == 0 && i == j) ||
    (hi > 0 && exists k :: i <= k <= j && M(body, s, i, k) &&
                           MTimes(body, if lo == 0 then 0 else lo - 1, hi - 1, s, k, j))
  }

  lemma {:induction false} AltAllMeaning<T>(parts: seq<Re<T>>, s: seq<T>, i: nat, j: nat)
    requires parts != [] && i <= j <= |s|
    ensures M(AltAll(parts), s, i, j) <==> exists n :: 0 <= n < |parts| && M(parts[n], s, i, j)
  {
    if |parts| > 1 {
      AltAllMeaning(parts[1..], s, i, j);
      if n :| 0 <= n < |parts[1..]| && M(parts[1..][n], s, i, j) {
        assert parts[n + 1] == parts[1..][n];
      }
      if n :| 0 <= n < |parts| && M(parts[n], s, i, j) {
        if n > 0 { assert parts[1..][n - 1] == parts[n]; }
      }
    }
  }

  lemma ThreeMeaning<T>(a: Re<T>, b: Re<T>, c: Re<T>, s: seq<T>, i: nat, j: nat)
    requires i <= j <= |s|
    ensures M(AltAll([a, b, c]), s, i, j) <==> M(a, s, i, j) || M(b, s, i, j) || M(c, s, i, j)
  {
    hide M, AltAll;
    var parts := [a, b, c];
    AltAllMeaning(parts, s, i, j);
    assert parts[0] == a && parts[1] == b && parts[2] == c;
  }

  // ------------------------------------------------------------ matching looks only at its own span

  /** No lookahead and no anchor anywhere. */
  predicate Plain<T>(re: Re<T>) {
    match re
    case Empty => true
    case OneOf(_) => true
    case Cat(left, right) => Plain(left) && Plain(right)
    case Alt(left, right) => Plain(left) && Plain(right)
    case Star(body) => Plain(body)
    case Times(body, _, _) => Plain(body)
    case _ => false
  }

  lemma {:induction false} Local<T>(re: Re<T>, s: seq<T>, i: nat, j: nat, t: seq<T>, k: nat)
    requires Plain(re) && i <= j <= |s| && k + (j - i) <= |t|
    requires s[i..j] == t[k..k + (j - i)]
    requires M(re, s, i, j)
    ensures M(re, t, k, k + (j - i))
    decreases re, 0
  {
    match re
    case Empty =>
    case OneOf(_) =>
      assert s[i..j][0] == t[k..k + (j - i)][0];
    case Cat(left, right) =>
      var m :| i <= m <= j && M(left, s, i, m) && M(right, s, m, j);
      SpanSplit(s, i, m, j, t, k);
      Local(left, s, i, m, t, k);
      Local(right, s, m, j, t, k + (m - i));
    case Alt(left, right) =>
      if M(left, s, i, j) { Local(left, s, i, j, t, k); } else { Local(right, s, i, j, t, k); }
    case Star(body) =>
      LocalStar(body, s, i, j, t, k);
    case Times(body, lo, hi) =>
      LocalTimes(body, lo, hi, s, i, j, t, k);
  }

  lemma SpanSplit<T>(s: seq<T>, i: nat, m: nat, j: nat, t: seq<T>, k: nat)
    requires i <= m <= j <= |s| && k + (j - i) <= |t|
    requires s[i..j] == t[k..k + (j - i)]
    ensures s[i..m] == t[k..k + (m - i)]
    ensures s[m..j] == t[k + (m - i)..k + (j - i)]
  {
    assert s[i..m] == s[i..j][..m - i];
    assert t[k..k + (m - i)] == t[k..k + (j - i)][..m - i];
    assert s[m..j] == s[i..j][m - i..];
    assert t[k + (m - i)..k + (j - i)] == t[k..k + (j - i)][m - i..];
  }

  lemma {:induction false} LocalStar<T>(body: Re<T>, s: seq<T>, i: nat, j: nat, t: seq<T>, k: nat)
    requires Plain(body) && i <= j <= |s| && k + (j - i) <= |t|
    requires s[i..j] == t[k..k + (j - i)]
    requires MStar(body, s, i, j)
    ensures MStar(body, t, k, k + (j - i))
    decreases body, 1, j - i
  {
    if i < j {
      var m :| i < m <= j && M(body, s, i, m) && MStar(body, s, m, j);
      SpanSplit(s, i, m, j, t, k);
      Local(body, s, i, m, t, k);
      LocalStar(body, s, m, j, t, k + (m - i));
    }
  }

  lemma {:induction false} LocalTimes<T>(body: Re<T>, lo: nat, hi: nat, s: seq<T>, i: nat, j: nat, t: seq<T>, k: nat)
    requires Plain(body) && i <= j <= |s| && k + (j - i) <= |t|
    requires s[i..j] == t[k..k + (j - i)]
    requires MTimes(body, lo, hi, s, i, j)
    ensures MTimes(body, lo, hi, t, k, k + (j - i))
    decreases body, 1, hi
  {
    if !(lo == 0 && i == j) {
      var lo' := if lo == 0 then 0 else lo - 1;
      var m :| i <= m <= j && M(body, s, i, m) && MTimes(body, lo', hi - 1, s, m, j);
      SpanSplit(s, i, m, j, t, k);
      Local(body, s, i, m, t, k);
      LocalTimes(body, lo', hi - 1, s, m, j, t, k + (m - i));
    }
  }

  // ------------------------------------------------------------ stars, extended at either end

  lemma {:induction false} StarAppend<T>(body: Re<T>, s: seq<T>, i: nat, m: nat, j: nat)
    requires i <= m <= j <= |s| && MStar(body, s, i, m) && MStar(body, s, m, j)
    ensures MStar(body, s, i, j)
    decreases m - i
  {
    if i < m {
      var k :| i < k <= m && M(body, s, i, k) && MStar(body, s, k, m);
      StarAppend(body, s, k, m, j);
    }
  }

  // ------------------------------------------------------------ the characters a match can contain

  /** Every class outside the lookaheads draws from `cs`. */
  predicate Draws<T(==)>(re: Re<T>, cs: set<T>) {
    match re
    case OneOf(own) => own <= cs
    case Cat(left, right) => Draws(left, cs) && Draws(right, cs)
    case Alt(left, right) => Draws(left, cs) && Draws(right, cs)
    case Star(body) => Draws(body, cs)
    case Times(body, _, _) => Draws(body, cs)
    case _ => true
  }

  lemma {:induction false} AltAllDraws<T>(parts: seq<Re<T>>, cs: set<T>)
    requires parts != [] && forall n :: 0 <= n < |parts| ==> Draws(parts[n], cs)
    ensures Draws(AltAll(parts), cs)
  {
    if |parts| > 1 {
      AltAllDraws(parts[1..], cs);
    }
  }

  lemma {:induction false} DrawsOnly<T>(re: Re<T>, cs: set<T>, s: seq<T>, i: nat, j: nat)
    requires Draws(re, cs) && i <= j <= |s| && M(re, s, i, j)
    ensures forall p :: i <= p < j ==> s[p] in cs
    decreases re, 0
  {
    match re
    case Cat(left, right) =>
      var k :| i <= k <= j && M(left, s, i, k) && M(right, s, k, j);
      DrawsOnly(left, cs, s, i, k);
      DrawsOnly(right, cs, s, k, j);
    case Alt(left, right) =>
      if M(left, s, i, j) { DrawsOnly(left, cs, s, i, j); } else { DrawsOnly(right, cs, s, i, j); }
    case Star(body) =>
      DrawsOnlyStar(body, cs, s, i, j);
    case Times(body, lo, hi) =>
      DrawsOnlyTimes(body, lo, hi, cs, s, i, j);
    case _ =>
  }

  lemma {:induction false} DrawsOnlyStar<T>(body: Re<T>, cs: set<T>, s: seq<T>, i: nat, j: nat)
    requires Draws(body, cs) && i <= j <= |s| && MStar(body, s, i, j)
    ensures forall p :: i <= p < j ==> s[p] in cs
    decreases body, 1, j - i
  {
    if i < j {
      var k :| i < k <= j && M(body, s, i, k) && MStar(body, s, k, j);
      DrawsOnly(body, cs, s, i, k);
      DrawsOnlyStar(body, cs, s, k, j);
    }
  }

  lemma {:induction false} DrawsOnlyTimes<T>(body: Re<T>, lo: nat, hi: nat, cs: set<T>, s: seq<T>, i: nat, j: nat)
    requires Draws(body, cs) && i <= j <= |s| && MTimes(body, lo, hi, s, i, j)
    ensures forall p :: i <= p < j ==> s[p] in cs
    decreases body, 1, hi
  {
    if !(lo == 0 && i == j) {
      var lo' := if lo == 0 then 0 else lo - 1;
      var k :| i <= k <= j && M(body, s, i, k) && MTimes(body, lo', hi - 1, s, k, j);
      DrawsOnly(body, cs, s, i, k);
      DrawsOnlyTimes(body, lo', hi - 1, cs, s, k, j);
    }
  }

  // ------------------------------------------------------------ taking a match apart

  lemma StarSplit<T>(body: Re<T>, s: seq<T>, i: nat, j: nat) returns (k: nat)
    requires i < j <= |s| && MStar(body, s, i, j)
    ensures i < k <= j && M(body, s, i, k) && MStar(body, s, k, j)
  {
    k :| i < k <= j && M(body, s, i, k) && MStar(body, s, k, j);
  }

  lemma TimesSplit<T>(body: Re<T>, lo: nat, hi: nat, s: seq<T>, i: nat, j: nat) returns (k: nat)
    requires i <= j <= |s| && lo > 0 && MTimes(body, lo, hi, s, i, j)
    ensures hi > 0 && i <= k <= j && M(body, s, i, k) && MTimes(body, lo - 1, hi - 1, s, k, j)
  {
    var lo' := if lo == 0 then 0 else lo - 1;
    k :| i <= k <= j && M(body, s, i, k) && MTimes(body, lo', hi - 1, s, k, j);
  }

  lemma StarNone<T>(body: Re<T>, s: seq<T>, i: nat)
    requires i <= |s|
    ensures MStar(body, s, i, i)
  {
  }

  lemma StarMeaning<T>(body: Re<T>, s: seq<T>, i: nat, j: nat)
    requires i <= j <= |s|
    ensures M(Star(body), s, i, j) <==> MStar(body, s, i, j)
  {
  }

  lemma AltMeaning<T>(left: Re<T>, right: Re<T>, s: seq<T>, i: nat, j: nat)
    requires i <= j <= |s|
    ensures M(Alt(left, right), s, i, j) <==> M(left, s, i, j) || M(right, s, i, j)
  {
  }

  lemma StarJoin<T>(body: Re<T>, s: seq<T>, i: nat, k: nat, j: nat)
    requires i <= k <= j <= |s| && M(body, s, i, k) && MStar(body, s, k, j)
    ensures MStar(body, s, i, j)
  {
  }

  lemma CatSplit<T>(left: Re<T>, right: Re<T>, s: seq<T>, i: nat, j: nat) returns (k: nat)
    requires i <= j <= |s| && M(Cat(left, right), s, i, j)
    ensures i <= k <= j && M(left, s, i, k) && M(right, s, k, j)
  {
    k :| i <= k <= j && M(left, s, i, k) && M(right, s, k, j);
  }

  lemma CatJoin<T>(left: Re<T>, right: Re<T>, s: seq<T>, i: nat, k: nat, j: nat)
    requires i <= k <= j <= |s| && M(left, s, i, k) && M(right, s, k, j)
    ensures M(Cat(left, right), s, i, j)
  {
  }

  // ------------------------------------------------------------ one character at a time

  lemma ClassMeaning<T>(cs: set<T>, s: seq<T>, i: nat, j: nat)
    requires i <= j <= |s|
    ensures M(OneOf(cs), s, i, j) <==> j == i + 1 && s[i] in cs
  {
  }

  lemma ClassThen<T>(cs: set<T>, re: Re<T>, s: seq<T>, i: nat, j: nat)
    requires i <= j <= |s|
    ensures M(Cat(OneOf(cs), re), s, i, j) <==> i < j && s[i] in cs && M(re, s, i + 1, j)
  {
    if i < j && s[i] in cs && M(re, s, i + 1, j) {
      assert M(OneOf(cs), s, i, i + 1);
    }
  }

  /** A class repeated between `lo` and `hi` times matches exactly the runs of such a length. */
  lemma {:induction false} ClassTimes<T>(cs: set<T>, lo: nat, hi: nat, s: seq<T>, i: nat, j: nat)
    requires i <= j <= |s| && lo <= hi
    ensures MTimes(OneOf(cs), lo, hi, s, i, j) <==> lo <= j - i <= hi && forall p :: i <= p < j ==> s[p] in cs
    decreases hi
  {
    var lo' := if lo == 0 then 0 else lo - 1;
    if hi > 0 && i < j {
      ClassTimes(cs, lo', hi - 1, s, i + 1, j);
      if s[i] in cs {
        assert M(OneOf(cs), s, i, i + 1);
      }
    }
  }
}
