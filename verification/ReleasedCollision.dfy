/**
 A run in which the releasing variant collides: a launch checks that the names
 are free, another lives its whole life, and the first then wins every claim.
 */
module ReleasedCollision {
  import opened Markers
  import opened Launches
  import opened ReleasedClaims

  /** An offline launch that writes one output. */
  const PLAN: Plan := Plan(Unguarded, 0, false, [0])

  /** The launch holds every claim of the directory at this moment. */
  predicate HoldsAll(w: World, i: nat, dir: nat) {
    forall m: nat | m < OUTPUTS :: Claim(dir, m) in w.owner && w.owner[Claim(dir, m)] == By(i)
  }

  lemma Append(ws: seq<World>, w: World) returns (ws': seq<World>)
    requires ReleasingRun(ws) && ReleasingStep(ws[|ws| - 1], w)
    ensures ReleasingRun(ws') && ws' == ws + [w]
  {
    ws' := ws + [w];
    hide ReleasingStep;
    forall t | 0 <= t < |ws'| - 1 ensures ReleasingStep(ws'[t], ws'[t + 1]) {
      if t < |ws| - 1 { assert ReleasingStep(ws[t], ws[t + 1]); }
    }
  }

  lemma Start(ws: seq<World>) returns (ws': seq<World>)
    requires ReleasingRun(ws)
    ensures ReleasingRun(ws') && ws <= ws' && |ws'| == |ws| + 1
    ensures ws'[|ws|] == ws[|ws| - 1].(launches := ws[|ws| - 1].launches + [Launch(Steps(PLAN), 0, true)])
  {
    var w := ws[|ws| - 1];
    hide ReleasingRun, Steps;
    var w' := w.(launches := w.launches + [Launch(Steps(PLAN), 0, true)]);
    assert Begins(w, w', PLAN);
    ws' := Append(ws, w');
  }

  /** A running launch of the variant at this position, in a consistent world. */
  predicate At(w: World, i: nat, pc: nat) {
    && w.owner.Keys == w.files.Keys
    && i < |w.launches| && w.launches[i] == Launch(Steps(PLAN), pc, true)
  }

  predicate OutputsFree(w: World) {
    forall m: nat | m < OUTPUTS :: Output(0, m) !in w.files
  }

  lemma GoOn(ws: seq<World>, i: nat) returns (ws': seq<World>)
    requires ReleasingRun(ws) && CanAct(ws[|ws| - 1], i)
    ensures ReleasingRun(ws') && ws' == ws + [After(ws[|ws| - 1], i, Fine)]
  {
    hide After, CanAct;
    ws' := Append(ws, After(ws[|ws| - 1], i, Fine));
  }

  lemma CheckOne(ws: seq<World>, i: nat, pc: nat) returns (ws': seq<World>)
    requires ReleasingRun(ws) && At(ws[|ws| - 1], i, pc) && pc < 3 && OutputsFree(ws[|ws| - 1])
    ensures ReleasingRun(ws') && ws <= ws' && |ws'| == |ws| + 1
    ensures ws'[|ws|] == Advanced(ws[|ws| - 1], i) && At(ws'[|ws|], i, pc + 1)
  {
    StepsAt(PLAN, pc);
    hide Steps;
    ws' := GoOn(ws, i);
  }

  lemma CheckAll(ws: seq<World>, i: nat) returns (ws': seq<World>)
    requires ReleasingRun(ws) && At(ws[|ws| - 1], i, 0) && OutputsFree(ws[|ws| - 1])
    ensures ReleasingRun(ws') && ws <= ws' && |ws'| == |ws| + 3
    ensures var w, w' := ws[|ws| - 1], ws'[|ws'| - 1];
            At(w', i, 3) && w' == w.(launches := w.launches[i := Launch(Steps(PLAN), 3, true)])
  {
    hide ReleasingRun, Steps;
    var a := CheckOne(ws, i, 0);
    var b := CheckOne(a, i, 1);
    ws' := CheckOne(b, i, 2);
  }

  lemma ClaimActions(m: nat)
    requires m < 3
    ensures |Steps(PLAN)| == 10
    ensures Steps(PLAN)[3 + 2 * m] == Create(Claim(0, m))
    ensures Steps(PLAN)[4 + 2 * m] == Fill(Claim(0, m), RESERVATION_BYTES)
  {
    StepsAt(PLAN, 3 + 2 * m);
    StepsAt(PLAN, 4 + 2 * m);
    hide Steps;
  }

  lemma CreateOne(ws: seq<World>, i: nat, m: nat) returns (ws': seq<World>)
    requires ReleasingRun(ws) && At(ws[|ws| - 1], i, 3 + 2 * m) && m < 3
    requires Claim(0, m) !in ws[|ws| - 1].files
    ensures ReleasingRun(ws') && ws <= ws' && |ws'| == |ws| + 1
    ensures var w, w' := ws[|ws| - 1], ws'[|ws|];
            && At(w', i, 4 + 2 * m)
            && w' == Advanced(w, i).(files := w.files[Claim(0, m) := ""], owner := w.owner[Claim(0, m) := By(i)])
  {
    ClaimActions(m);
    hide Steps;
    ws' := GoOn(ws, i);
  }

  lemma FillOne(ws: seq<World>, i: nat, m: nat) returns (ws': seq<World>)
    requires ReleasingRun(ws) && At(ws[|ws| - 1], i, 4 + 2 * m) && m < 3
    requires Claim(0, m) in ws[|ws| - 1].files
    ensures ReleasingRun(ws') && ws <= ws' && |ws'| == |ws| + 1
    ensures var w, w' := ws[|ws| - 1], ws'[|ws|];
            At(w', i, 5 + 2 * m) && w' == Advanced(w, i).(files := w.files[Claim(0, m) := RESERVATION_BYTES])
  {
    ClaimActions(m);
    hide Steps;
    ws' := GoOn(ws, i);
  }

  /** Two steps: create claim `m` and fill it. */
  lemma ClaimOne(ws: seq<World>, i: nat, m: nat) returns (ws': seq<World>)
    requires ReleasingRun(ws) && At(ws[|ws| - 1], i, 3 + 2 * m) && m < 3
    requires Claim(0, m) !in ws[|ws| - 1].files
    ensures ReleasingRun(ws') && ws <= ws' && |ws'| == |ws| + 2
    ensures var w, w' := ws[|ws| - 1], ws'[|ws'| - 1];
            && At(w', i, 5 + 2 * m)
            && w'.files == w.files[Claim(0, m) := RESERVATION_BYTES]
            && w'.owner == w.owner[Claim(0, m) := By(i)]
            && w'.launches == w.launches[i := Launch(Steps(PLAN), 5 + 2 * m, true)]
  {
    ClaimActions(m);
    hide Steps, ReleasingRun;
    var a := CreateOne(ws, i, m);
    ws' := FillOne(a, i, m);
  }

  function Claimed(files: Files): Files {
    files[Claim(0, 0) := RESERVATION_BYTES][Claim(0, 1) := RESERVATION_BYTES][Claim(0, 2) := RESERVATION_BYTES]
  }

  function Owned(owner: map<Key, Owner>, i: nat): map<Key, Owner> {
    owner[Claim(0, 0) := By(i)][Claim(0, 1) := By(i)][Claim(0, 2) := By(i)]
  }

  lemma ClaimAll(ws: seq<World>, i: nat) returns (ws': seq<World>)
    requires ReleasingRun(ws) && At(ws[|ws| - 1], i, 3)
    requires forall m: nat | m < 3 :: Claim(0, m) !in ws[|ws| - 1].files
    ensures ReleasingRun(ws') && ws <= ws' && |ws'| == |ws| + 6
    ensures var w, w' := ws[|ws| - 1], ws'[|ws'| - 1];
            && At(w', i, 9)
            && w' == World(Claimed(w.files), Owned(w.owner, i), w.launches[i := Launch(Steps(PLAN), 9, true)])
  {
    hide ReleasingRun, Steps;
    var a := ClaimOne(ws, i, 0);
    var b := ClaimOne(a, i, 1);
    ws' := ClaimOne(b, i, 2);
  }

  /** The last action: the output is written and the launch has ended. */
  lemma WriteOutput(ws: seq<World>, i: nat) returns (ws': seq<World>)
    requires ReleasingRun(ws) && At(ws[|ws| - 1], i, 9) && Output(0, 0) !in ws[|ws| - 1].files
    ensures ReleasingRun(ws') && ws <= ws' && |ws'| == |ws| + 1
    ensures var w, w' := ws[|ws| - 1], ws'[|ws|];
            && w'.files == w.files[Output(0, 0) := ""] && w'.owner == w.owner[Output(0, 0) := By(i)]
            && w'.launches == w.launches[i := Launch(Steps(PLAN), 10, true)]
  {
    StepsAt(PLAN, 9);
    hide Steps;
    ws' := GoOn(ws, i);
  }

  /** An ended launch removes one of its claims. */
  lemma Leave(ws: seq<World>, i: nat, m: nat) returns (ws': seq<World>)
    requires ReleasingRun(ws) && i < |ws[|ws| - 1].launches| && Ended(ws[|ws| - 1].launches[i])
    requires Claim(0, m) in ws[|ws| - 1].owner && ws[|ws| - 1].owner[Claim(0, m)] == By(i)
    ensures ReleasingRun(ws') && ws <= ws' && |ws'| == |ws| + 1
    ensures var w, w' := ws[|ws| - 1], ws'[|ws|];
            w' == w.(files := w.files - {Claim(0, m)}, owner := w.owner - {Claim(0, m)})
  {
    var w := ws[|ws| - 1];
    var w' := w.(files := w.files - {Claim(0, m)}, owner := w.owner - {Claim(0, m)});
    hide ReleasingRun;
    assert Unlinks(w, w', i, Claim(0, m));
    ws' := Append(ws, w');
  }

  lemma LeaveAll(ws: seq<World>, i: nat) returns (ws': seq<World>)
    requires ReleasingRun(ws) && i < |ws[|ws| - 1].launches| && Ended(ws[|ws| - 1].launches[i])
    requires HoldsAll(ws[|ws| - 1], i, 0)
    ensures ReleasingRun(ws') && ws <= ws' && ws' != []
    ensures var w, w' := ws[|ws| - 1], ws'[|ws'| - 1];
            var gone := {Claim(0, 0), Claim(0, 1), Claim(0, 2)};
            w' == w.(files := w.files - gone, owner := w.owner - gone)
  {
    hide ReleasingRun;
    var a := Leave(ws, i, 0);
    var b := Leave(a, i, 1);
    ws' := Leave(b, i, 2);
  }

  lemma HoldsAfterClaiming(w: World, was: World, i: nat)
    requires w.files == Claimed(was.files) && w.owner == Owned(was.owner, i)
    ensures HoldsAll(w, i, 0) && (Output(0, 0) in w.files <==> Output(0, 0) in was.files)
    ensures HoldsAll(w.(owner := w.owner[Output(0, 0) := By(i)]), i, 0)
  {
  }

  /** A whole life: every claim taken, the output written, every claim removed. */
  lemma Live(ws: seq<World>, i: nat) returns (ws': seq<World>)
    requires ReleasingRun(ws) && At(ws[|ws| - 1], i, 3) && ws[|ws| - 1].files == map[]
    ensures ReleasingRun(ws') && ws <= ws' && ws' != []
    ensures var w, w' := ws[|ws| - 1], ws'[|ws'| - 1];
            && w'.files == map[Output(0, 0) := ""] && w'.owner == map[Output(0, 0) := By(i)]
            && w'.launches == w.launches[i := Launch(Steps(PLAN), 10, true)]
  {
    ClaimActions(0);
    assert ws[|ws| - 1].owner == map[];
    hide ReleasingRun, Steps, Claimed, Owned;
    var a := ClaimAll(ws, i);
    HoldsAfterClaiming(a[|a| - 1], ws[|ws| - 1], i);
    var b := WriteOutput(a, i);
    OnlyTheOutput(i);
    ws' := LeaveAll(b, i);
  }

  lemma OnlyTheOutput(i: nat)
    ensures var gone := {Claim(0, 0), Claim(0, 1), Claim(0, 2)};
            && Claimed(map[])[Output(0, 0) := ""] - gone == map[Output(0, 0) := ""]
            && Owned(map[], i)[Output(0, 0) := By(i)] - gone == map[Output(0, 0) := By(i)]
  {
  }

  lemma TwoStarted() returns (ws: seq<World>)
    ensures ReleasingRun(ws) && ws[0].files == map[]
    ensures ws[|ws| - 1] == World(map[], map[], [Launch(Steps(PLAN), 0, true), Launch(Steps(PLAN), 0, true)])
  {
    var ws0 := [World(map[], map[], [])];
    hide Steps;
    var ws1 := Start(ws0);
    ws := Start(ws1);
  }

  /**
   Two launches on an empty directory, no action failing: the first holds every claim and
   still finds the name it is about to create already taken.
   */
  lemma ReleasedClaimsCollide() returns (ws: seq<World>)
    ensures ReleasingRun(ws) && ws[0].files == map[]
    ensures var w := ws[|ws| - 1];
            && HoldsAll(w, 0, 0)
            && CanAct(w, 0) && Next(w, 0) == Create(Output(0, 0)) && Output(0, 0) in w.files
            && !After(w, 0, Fine).launches[0].running
  {
    var a := TwoStarted();
    ClaimActions(0);
    StepsAt(PLAN, 9);
    hide ReleasingRun, Steps;
    var b := CheckAll(a, 0);
    var c := CheckAll(b, 1);
    var d := Live(c, 1);
    ws := ClaimAll(d, 0);
  }
}
