/** The initial roster of trials and the ordered subsets an admission may select from it. */
module Roster {
  import Decimals

  /** Trial `initial-<model>-<configuration>`. */
  datatype Trial = Trial(model: nat, configuration: nat)

  function ModelRow(model: nat, configurations: nat): (row: seq<Trial>)
    ensures |row| == configurations
    ensures forall k :: 0 <= k < configurations ==> row[k] == Trial(model, k)
  {
    seq(configurations, k requires 0 <= k < configurations => Trial(model, k))
  }

  /** Every configuration of the first model, then of the second, and so on. */
  function Assignments(models: nat, configurations: nat): seq<Trial> {
    if models == 0 then [] else Assignments(models - 1, configurations) + ModelRow(models - 1, configurations)
  }

  /** Trial `(m, c)` stands at place `m * configurations + c`: models first, then configurations. */
  lemma {:induction false} AssignmentAt(models: nat, configurations: nat, m: nat, c: nat)
    requires m < models && c < configurations
    ensures |Assignments(models, configurations)| == models * configurations
    ensures m * configurations + c < models * configurations
    ensures Assignments(models, configurations)[m * configurations + c] == Trial(m, c)
  {
    AssignmentsLength(models, configurations);
    AssignmentsLength(models - 1, configurations);
    assert models * configurations == (models - 1) * configurations + configurations;
    if m < models - 1 {
      AssignmentAt(models - 1, configurations, m, c);
    }
  }

  lemma {:induction false} AssignmentsLength(models: nat, configurations: nat)
    ensures |Assignments(models, configurations)| == models * configurations
  {
    if models > 0 {
      AssignmentsLength(models - 1, configurations);
      assert models * configurations == (models - 1) * configurations + configurations;
    }
  }

  ghost predicate Distinct<T>(ids: seq<T>) {
    forall a, b :: 0 <= a < b < |ids| ==> ids[a] != ids[b]
  }

  lemma {:induction false} AssignmentsMembers(models: nat, configurations: nat, t: Trial)
    ensures t in Assignments(models, configurations) <==> t.model < models && t.configuration < configurations
  {
    if models > 0 {
      AssignmentsMembers(models - 1, configurations, t);
      var row := ModelRow(models - 1, configurations);
      if t.model == models - 1 && t.configuration < configurations {
        assert row[t.configuration] == t;
      }
    }
  }

  /** No trial appears twice in a roster. */
  lemma {:induction false} AssignmentsDistinct(models: nat, configurations: nat)
    ensures Distinct(Assignments(models, configurations))
  {
    if models > 0 {
      AssignmentsDistinct(models - 1, configurations);
      var front, row := Assignments(models - 1, configurations), ModelRow(models - 1, configurations);
      var ids := front + row;
      forall a, b | 0 <= a < b < |ids| ensures ids[a] != ids[b] {
        if a < |front| <= b {
          AssignmentsMembers(models - 1, configurations, front[a]);
        }
      }
    }
  }

  // ------------------------------------------------------------ the two ways to say "ordered subset"

  /** The members of `ids` that `keep` names, in the order of `ids`. */
  function Kept<T(==)>(ids: seq<T>, keep: seq<T>): seq<T> {
    if ids == [] then []
    else
      var x := ids[|ids| - 1];
      Kept(ids[..|ids| - 1], keep) + if x in keep then [x] else []
  }

  /** The positions `at` go strictly forward. */
  ghost predicate Forward(at: seq<nat>, n: nat) {
    && (forall k :: 0 <= k < |at| ==> at[k] < n)
    && forall a, b :: 0 <= a < b < |at| ==> at[a] < at[b]
  }

  ghost predicate Picks<T>(part: seq<T>, ids: seq<T>, at: seq<nat>) {
    && |at| == |part| && Forward(at, |ids|)
    && forall k :: 0 <= k < |at| ==> part[k] == ids[at[k]]
  }

  ghost predicate Subsequence<T>(part: seq<T>, ids: seq<T>) {
    exists at :: Picks(part, ids, at)
  }

  lemma {:induction false} KeptPicks<T>(ids: seq<T>, keep: seq<T>) returns (at: seq<nat>)
    ensures Picks(Kept(ids, keep), ids, at)
  {
    if ids == [] {
      at := [];
    } else {
      var n := |ids| - 1;
      at := KeptPicks(ids[..n], keep);
      hide Picks;
      PicksMore(Kept(ids[..n], keep), ids, at);
      if ids[n] in keep {
        at := at + [n];
      } else {
        assert Kept(ids[..n], keep) + [] == Kept(ids[..n], keep);
      }
    }
  }

  /** One more id may be left out or picked. */
  lemma PicksMore<T>(part: seq<T>, ids: seq<T>, at: seq<nat>)
    requires ids != [] && Picks(part, ids[..|ids| - 1], at)
    ensures Picks(part, ids, at) && Picks(part + [ids[|ids| - 1]], ids, at + [|ids| - 1])
  {
  }

  /** Naming one more thing that is not in the list changes nothing. */
  lemma {:induction false} KeptIgnores<T>(ids: seq<T>, keep: seq<T>, x: T)
    requires x !in ids
    ensures Kept(ids, keep + [x]) == Kept(ids, keep)
  {
    if ids != [] {
      KeptIgnores(ids[..|ids| - 1], keep, x);
    }
  }

  lemma PickedIn<T>(part: seq<T>, ids: seq<T>, at: seq<nat>, x: T)
    requires Picks(part, ids, at) && x in part
    ensures x in ids
  {
    var k :| 0 <= k < |part| && part[k] == x;
    assert ids[at[k]] == x;
  }

  /** Picks from a list without its last member, when that member is not used. */
  lemma PicksFront<T>(part: seq<T>, ids: seq<T>, at: seq<nat>)
    requires Picks(part, ids, at) && ids != [] && (at == [] || at[|at| - 1] < |ids| - 1)
    ensures Picks(part, ids[..|ids| - 1], at)
  {
  }

  lemma {:induction false} PicksAreKept<T>(part: seq<T>, ids: seq<T>, at: seq<nat>)
    requires Distinct(ids) && Picks(part, ids, at)
    ensures part == Kept(ids, part)
    decreases |ids|
  {
    if ids == [] {
    } else {
      var n := |ids| - 1;
      var front, x := ids[..n], ids[n];
      assert x !in front;
      if at == [] || at[|at| - 1] < n {
        PicksFront(part, ids, at);
        PicksAreKept(part, front, at);
        if x in part { PickedIn(part, front, at, x); }
      } else {
        var m := |part| - 1;
        var rest := part[..m];
        assert part == rest + [x];
        assert Picks(rest, ids, at[..m]);
        PicksFront(rest, ids, at[..m]);
        PicksAreKept(rest, front, at[..m]);
        KeptIgnores(front, rest, x);
      }
    }
  }

  /** Over distinct ids, equality with the filtered list is being a subsequence. */
  lemma KeptIffSubsequence<T>(part: seq<T>, ids: seq<T>)
    requires Distinct(ids)
    ensures part == Kept(ids, part) <==> Subsequence(part, ids)
  {
    if part == Kept(ids, part) {
      var at := KeptPicks(ids, part);
    }
    if at :| Picks(part, ids, at) {
      PicksAreKept(part, ids, at);
    }
  }

  lemma SubsequenceDistinct<T>(part: seq<T>, ids: seq<T>)
    requires Distinct(ids) && Subsequence(part, ids)
    ensures Distinct(part)
  {
    var at :| Picks(part, ids, at);
  }

  lemma SubsequenceChain<T>(a: seq<T>, b: seq<T>, c: seq<T>)
    requires Subsequence(a, b) && Subsequence(b, c)
    ensures Subsequence(a, c)
  {
    var at :| Picks(a, b, at);
    var through :| Picks(b, c, through);
    var both: seq<nat> := seq(|at|, k requires 0 <= k < |at| => through[at[k]]);
    assert Picks(a, c, both);
  }

  // ------------------------------------------------------------ the two checks

  /** The selection check: nonempty, nothing unknown, and equal to the roster filtered by it. */
  predicate SelectionOk<T(==)>(ids: seq<T>, selected: seq<T>) {
    && selected != []
    && (forall k :: 0 <= k < |selected| ==> selected[k] in ids)
    && selected == Kept(ids, selected)
  }

  predicate PendingOk<T(==)>(selected: seq<T>, pending: seq<T>) {
    pending == Kept(selected, pending)
  }

  /** A selection is accepted exactly when it is a nonempty duplicate-free subsequence in roster order. */
  lemma SelectionIffOrdered<T>(ids: seq<T>, selected: seq<T>)
    requires Distinct(ids)
    ensures SelectionOk(ids, selected) <==> selected != [] && Distinct(selected) && Subsequence(selected, ids)
  {
    KeptIffSubsequence(selected, ids);
    if Subsequence(selected, ids) {
      SubsequenceDistinct(selected, ids);
      var at :| Picks(selected, ids, at);
    }
  }

  /** One known id is a selection. */
  lemma SingleSelection<T>(ids: seq<T>, x: T)
    requires Distinct(ids) && x in ids
    ensures SelectionOk(ids, [x])
  {
    var k :| 0 <= k < |ids| && ids[k] == x;
    assert Picks([x], ids, [k]);
    hide Kept, Picks;
    KeptIffSubsequence([x], ids);
  }

  /** A pending list accepted against an accepted selection is itself ordered by the roster. */
  lemma PendingIsOrdered<T>(ids: seq<T>, selected: seq<T>, pending: seq<T>)
    requires Distinct(ids) && SelectionOk(ids, selected) && PendingOk(selected, pending)
    ensures Distinct(pending) && Subsequence(pending, ids) && PendingOk(ids, pending)
    ensures forall k :: 0 <= k < |pending| ==> pending[k] in selected
  {
    SelectionIffOrdered(ids, selected);
    KeptIffSubsequence(pending, selected);
    SubsequenceChain(pending, selected, ids);
    SubsequenceDistinct(pending, ids);
    KeptIffSubsequence(pending, ids);
    var at :| Picks(pending, selected, at);
  }

  /** Filtering by one name keeps every occurrence of it. */
  lemma {:induction false} KeptTwice<T>(ids: seq<T>, x: T, b: nat)
    requires b < |ids| && ids[b] == x
    ensures |Kept(ids, [x])| >= 1
    ensures (exists a :: 0 <= a < b && ids[a] == x) ==> |Kept(ids, [x])| >= 2
  {
    var n := |ids| - 1;
    KeptOneMore(ids, [x]);
    if b < n {
      KeptTwice(ids[..n], x, b);
      hide Kept;
      if a :| 0 <= a < b && ids[a] == x { assert ids[..n][a] == x; }
    } else if a :| 0 <= a < b && ids[a] == x {
      KeptTwice(ids[..n], x, a);
    }
  }

  lemma KeptOneMore<T>(ids: seq<T>, keep: seq<T>)
    requires ids != []
    ensures |Kept(ids, keep)| >= |Kept(ids[..|ids| - 1], keep)|
    ensures ids[|ids| - 1] in keep ==> |Kept(ids, keep)| == |Kept(ids[..|ids| - 1], keep)| + 1
  {
  }

  /** Filter equality is being a subsequence, for every list, exactly when the ids are distinct. */
  lemma CheckIffDistinct<T(!new)>(ids: seq<T>)
    ensures Distinct(ids) <==> forall part :: part == Kept(ids, part) <==> Subsequence(part, ids)
  {
    if Distinct(ids) {
      forall part ensures part == Kept(ids, part) <==> Subsequence(part, ids) {
        KeptIffSubsequence(part, ids);
      }
    } else {
      var a, b :| 0 <= a < b < |ids| && ids[a] == ids[b];
      KeptTwice(ids, ids[b], b);
      assert Picks([ids[a]], ids, [a]);
      assert Subsequence([ids[a]], ids) && |Kept(ids, [ids[a]])| >= 2;
    }
  }

  // ------------------------------------------------------------ the text of an identifier

  /** Decimal text padded with zeros to a width. */
  function Padded(n: nat, width: nat): string {
    var s := Decimals.Show(n);
    seq(if |s| < width then width - |s| else 0, _ => '0') + s
  }

  /** `initial-<model>-<configuration>`, padded to three and two digits. */
  function TrialId(t: Trial): string {
    "initial-" + Padded(t.model, 3) + "-" + Padded(t.configuration, 2)
  }

  lemma {:induction false} ZerosAddNothing(k: nat, s: string)
    requires Decimals.AllDigits(s)
    ensures Decimals.AllDigits(seq(k, _ => '0') + s)
    ensures Decimals.Value(seq(k, _ => '0') + s) == Decimals.Value(s)
    decreases |s|
  {
    var z := seq(k, _ => '0');
    if s == "" {
      assert z + s == z;
      ZerosAreZero(k);
    } else {
      var n := |s| - 1;
      ZerosAddNothing(k, s[..n]);
      assert (z + s)[..|z + s| - 1] == z + s[..n];
    }
  }

  lemma {:induction false} ZerosAreZero(k: nat)
    ensures Decimals.AllDigits(seq(k, _ => '0')) && Decimals.Value(seq(k, _ => '0')) == 0
  {
    if k > 0 {
      ZerosAreZero(k - 1);
      assert seq(k, _ => '0')[..k - 1] == seq(k - 1, _ => '0');
    }
  }

  lemma PaddedMeans(n: nat, width: nat)
    ensures Decimals.AllDigits(Padded(n, width)) && Decimals.Value(Padded(n, width)) == n
    ensures |Padded(n, width)| == if |Decimals.Show(n)| < width then width else |Decimals.Show(n)|
  {
    Decimals.ShowRoundTrip(n);
    var s := Decimals.Show(n);
    ZerosAddNothing(if |s| < width then width - |s| else 0, s);
  }

  /** Digits up to the same dash end in the same place. */
  lemma DigitsThenDash(a: string, b: string, a': string, b': string)
    requires Decimals.AllDigits(a) && Decimals.AllDigits(a') && a + "-" + b == a' + "-" + b'
    ensures a == a' && b == b'
  {
    var s := a + "-" + b;
    assert s[|a|] == '-' && s[|a'|] == '-';
    assert forall k :: 0 <= k < |a| ==> s[k] == a[k];
    assert forall k :: 0 <= k < |a'| ==> s[k] == a'[k];
    assert |a| == |a'|;
    assert a == s[..|a|] && a' == s[..|a'|];
    assert b == s[|a| + 1..] && b' == s[|a'| + 1..];
  }

  /** Three digits or more for the model, two or more for the configuration, and no padding beyond that. */
  lemma TrialIdText(t: Trial) returns (m: string, c: string)
    ensures TrialId(t) == "initial-" + m + "-" + c
    ensures Decimals.AllDigits(m) && Decimals.Value(m) == t.model && |m| >= 3 && (|m| > 3 ==> m[0] != '0')
    ensures Decimals.AllDigits(c) && Decimals.Value(c) == t.configuration && |c| >= 2 && (|c| > 2 ==> c[0] != '0')
  {
    m, c := Padded(t.model, 3), Padded(t.configuration, 2);
    PaddedMeans(t.model, 3);
    PaddedMeans(t.configuration, 2);
    Unpadded(t.model, 3);
    Unpadded(t.configuration, 2);
    hide Padded;
  }

  lemma Unpadded(n: nat, width: nat)
    ensures |Padded(n, width)| > width > 0 ==> Padded(n, width)[0] != '0'
  {
    Decimals.ShowRoundTrip(n);
    var s := Decimals.Show(n);
    assert |s| >= width ==> Padded(n, width) == s;
  }

  lemma TrialTail(t: Trial)
    ensures TrialId(t)[8..] == Padded(t.model, 3) + "-" + Padded(t.configuration, 2)
  {
    hide Padded;
  }

  lemma TrialIdInjective(t: Trial, t': Trial)
    requires TrialId(t) == TrialId(t')
    ensures t == t'
  {
    TrialTail(t);
    TrialTail(t');
    hide TrialId, Padded;
    PaddedMeans(t.model, 3);
    PaddedMeans(t'.model, 3);
    PaddedMeans(t.configuration, 2);
    PaddedMeans(t'.configuration, 2);
    DigitsThenDash(Padded(t.model, 3), Padded(t.configuration, 2), Padded(t'.model, 3), Padded(t'.configuration, 2));
  }

  /** The identifiers of a roster, as text. */
  function TrialIds(models: nat, configurations: nat): (ids: seq<string>)
    ensures |ids| == |Assignments(models, configurations)|
    ensures forall k :: 0 <= k < |ids| ==> ids[k] == TrialId(Assignments(models, configurations)[k])
  {
    var ts := Assignments(models, configurations);
    seq(|ts|, k requires 0 <= k < |ts| => TrialId(ts[k]))
  }

  /** No two trials of a roster share their identifier text. */
  lemma TrialIdsDistinct(models: nat, configurations: nat)
    ensures Distinct(TrialIds(models, configurations))
  {
    AssignmentsDistinct(models, configurations);
    var ts, ids := Assignments(models, configurations), TrialIds(models, configurations);
    forall a, b | 0 <= a < b < |ids| ensures ids[a] != ids[b] {
      if ids[a] == ids[b] { TrialIdInjective(ts[a], ts[b]); }
    }
  }
}
