/**
 The variant that removes its claims on the way out. Its claims exclude exactly
 while they are held, and an output collides exactly when it was already there
 when the first claim was won: the earlier check that the name is free can be
 older than another launch's whole life.
 */
module ReleasedClaims {
  import opened Markers
  import opened Launches

  /** No nonce; live or offline; any outputs, each at most once. */
  predicate IsReleasing(p: Plan) {
    Distinct(p.writes) && p.lead.Unguarded?
  }

  predicate Ended(l: Launch) {
    !l.running || l.pc == |l.program|
  }

  /** A launch that has ended removes a claim it still holds; it may fail to, and leave it. */
  ghost predicate Unlinks(w: World, w': World, i: nat, key: Key) {
    && i < |w.launches| && Ended(w.launches[i])
    && key.Claim? && key in w.owner && w.owner[key] == By(i)
    && w' == w.(files := w.files - {key}, owner := w.owner - {key})
  }

  ghost predicate Begins(w: World, w': World, p: Plan) {
    IsReleasing(p) && w' == w.(launches := w.launches + [Launch(Steps(p), 0, true)])
  }

  ghost predicate ReleasingStep(w: World, w': World) {
    || (exists p :: Begins(w, w', p))
    || (exists i, luck :: CanAct(w, i) && w' == After(w, i, luck))
    || exists i, key :: Unlinks(w, w', i, key)
  }

  ghost predicate ReleasingInit(w: World) {
    && w.launches == [] && w.owner.Keys == w.files.Keys
    && forall key :: key in w.owner ==> w.owner[key] == Stranger
  }

  ghost predicate ReleasingRun(ws: seq<World>) {
    && ws != [] && ReleasingInit(ws[0])
    && forall t :: 0 <= t < |ws| - 1 ==> ReleasingStep(ws[t], ws[t + 1])
  }

  /** Any files of strangers will do to begin with. */
  lemma AnyDirectoryReleases(files: Files)
    ensures ReleasingRun([World(files, map key | key in files :: Stranger, [])])
  {
    var w := World(files, map key | key in files :: Stranger, []);
    assert ReleasingInit(w);
  }

  /** A launch that has ended, well or not, may remove any claim it holds, and any plan without a nonce may begin. */
  lemma ReleasingGoesOn(ws: seq<World>, i: nat, key: Key, p: Plan)
    requires ReleasingRun(ws)
    ensures var w := ws[|ws| - 1];
            && (i < |w.launches| && (!w.launches[i].running || w.launches[i].pc == |w.launches[i].program|)
                && key.Claim? && key in w.owner && w.owner[key] == By(i) ==>
                  ReleasingRun(ws + [World(w.files - {key}, w.owner - {key}, w.launches)]))
            && (Distinct(p.writes) && p.lead.Unguarded? ==>
                  ReleasingRun(ws + [w.(launches := w.launches + [Launch(Steps(p), 0, true)])]))
  {
    var w := ws[|ws| - 1];
    var without := World(w.files - {key}, w.owner - {key}, w.launches);
    var begun := w.(launches := w.launches + [Launch(Steps(p), 0, true)]);
    if i < |w.launches| && Ended(w.launches[i]) && key.Claim? && key in w.owner && w.owner[key] == By(i) {
      assert Unlinks(w, without, i, key);
      ExtendsReleasing(ws, without);
    }
    if IsReleasing(p) {
      assert Begins(w, begun, p);
      ExtendsReleasing(ws, begun);
    }
  }

  lemma ExtendsReleasing(ws: seq<World>, w: World)
    requires ReleasingRun(ws) && ReleasingStep(ws[|ws| - 1], w)
    ensures ReleasingRun(ws + [w])
  {
    hide ReleasingStep, ReleasingInit;
    var longer := ws + [w];
    forall t | 0 <= t < |longer| - 1 ensures ReleasingStep(longer[t], longer[t + 1]) {
      if t < |ws| - 1 { assert ReleasingStep(ws[t], ws[t + 1]); }
    }
  }

  // ------------------------------------------------------------ what every step keeps

  /** A launch in progress owns whatever it created; an ended one still owns its outputs. */
  ghost predicate Keeps(w: World, i: nat)
    requires i < |w.launches|
  {
    var l := w.launches[i];
    && l.pc <= |l.program| && WellMade(l.program)
    && forall key :: Passed(l, key) && (!Ended(l) || key.Output?) ==> key in w.owner && w.owner[key] == By(i)
  }

  ghost predicate OwnersCreated(w: World) {
    && w.owner.Keys == w.files.Keys
    && forall key :: key in w.owner && w.owner[key].By? ==>
         w.owner[key].id < |w.launches| && Passed(w.launches[w.owner[key].id], key)
  }

  ghost predicate ReleasingInv(w: World) {
    OwnersCreated(w) && forall i :: 0 <= i < |w.launches| ==> Keeps(w, i)
  }

  /** Launches keep their programs, move forward and never start again; outputs stay. */
  ghost predicate Forwards(w: World, w': World) {
    && |w.launches| <= |w'.launches|
    && (forall i :: 0 <= i < |w.launches| ==>
          && w'.launches[i].program == w.launches[i].program
          && w.launches[i].pc <= w'.launches[i].pc
          && (w'.launches[i].running ==> w.launches[i].running))
    && forall key: Key :: key.Output? && key in w.files ==> key in w'.files
  }

  lemma FillsWhatItOwns(w: World, i: nat)
    requires ReleasingInv(w) && CanAct(w, i) && Next(w, i).Fill?
    ensures Next(w, i).key in w.owner && w.owner[Next(w, i).key] == By(i)
  {
    assert Keeps(w, i);
    var l := w.launches[i];
    assert CreatesAt(l.program, l.pc - 1, Next(w, i).key);
    assert Passed(l, Next(w, i).key);
    hide WellMade, Passed;
  }

  /** What one action does to owners and launches. */
  lemma ActEffect(w: World, i: nat, luck: Luck)
    requires ReleasingInv(w) && CanAct(w, i)
    ensures var w' := After(w, i, luck);
            && Forwards(w, w') && w'.owner.Keys == w'.files.Keys
            && |w'.launches| == |w.launches|
            && (forall n :: 0 <= n < |w.launches| && n != i ==> w'.launches[n] == w.launches[n])
            && (forall key :: key in w.owner ==> key in w'.owner && w'.owner[key] == w.owner[key])
            && (forall key :: key in w'.owner && key !in w.owner ==>
                  && w'.owner[key] == By(i) && Next(w, i) == Create(key)
                  && w'.launches[i] == w.launches[i].(pc := w.launches[i].pc + 1))
            && (w'.launches[i].pc > w.launches[i].pc && Next(w, i).Create? ==>
                  Next(w, i).key in w'.owner && w'.owner[Next(w, i).key] == By(i))
  {
    if Next(w, i).Fill? { FillsWhatItOwns(w, i); }
    hide Keeps;
  }

  lemma PassedOneMore(l: Launch, l': Launch, key: Key)
    requires l'.program == l.program && l'.pc <= l.pc + 1 && Passed(l', key)
    ensures Passed(l, key) || (l'.pc == l.pc + 1 && CreatesAt(l.program, l.pc, key))
  {
    var j: nat :| 0 <= j < l'.pc && CreatesAt(l'.program, j, key);
    if j < l.pc { assert CreatesAt(l.program, j, key); }
  }

  lemma PassedOn(l: Launch, l': Launch, key: Key)
    requires l'.program == l.program && l.pc <= l'.pc && Passed(l, key)
    ensures Passed(l', key)
  {
    var j: nat :| 0 <= j < l.pc && CreatesAt(l.program, j, key);
    assert CreatesAt(l'.program, j, key);
  }

  lemma ActStepsOne(w: World, i: nat, luck: Luck)
    requires CanAct(w, i)
    ensures After(w, i, luck).launches[i].program == w.launches[i].program
    ensures w.launches[i].pc <= After(w, i, luck).launches[i].pc <= w.launches[i].pc + 1
  {
  }

  lemma ActKeepsActor(w: World, i: nat, luck: Luck)
    requires ReleasingInv(w) && CanAct(w, i)
    ensures |After(w, i, luck).launches| == |w.launches| && Keeps(After(w, i, luck), i)
  {
    var w' := After(w, i, luck);
    ActEffect(w, i, luck);
    ActStepsOne(w, i, luck);
    assert Keeps(w, i);
    hide After, WellMade, Passed, ReleasingInv;
    var l, l' := w.launches[i], w'.launches[i];
    forall key | Passed(l', key) ensures key in w'.owner && w'.owner[key] == By(i) {
      PassedOneMore(l, l', key);
    }
  }

  lemma ActKeepsReleasing(w: World, i: nat, luck: Luck)
    requires ReleasingInv(w) && CanAct(w, i)
    ensures ReleasingInv(After(w, i, luck)) && Forwards(w, After(w, i, luck))
  {
    var w' := After(w, i, luck);
    ActEffect(w, i, luck);
    ActKeepsActor(w, i, luck);
    ActKeepsOwners(w, i, luck);
    hide After, WellMade, CanAct, Next, Forwards, OwnersCreated, Passed;
    forall n | 0 <= n < |w'.launches| ensures Keeps(w', n) {
      if n != i { assert Keeps(w, n) && w'.launches[n] == w.launches[n]; }
    }
  }

  lemma ActKeepsOwners(w: World, i: nat, luck: Luck)
    requires ReleasingInv(w) && CanAct(w, i)
    ensures OwnersCreated(After(w, i, luck))
  {
    var w' := After(w, i, luck);
    ActEffect(w, i, luck);
    hide After, WellMade, Keeps;
    forall key | key in w'.owner && w'.owner[key].By?
      ensures w'.owner[key].id < |w'.launches| && Passed(w'.launches[w'.owner[key].id], key)
    {
      if key in w.owner {
        PassedOn(w.launches[w.owner[key].id], w'.launches[w.owner[key].id], key);
      } else {
        assert CreatesAt(w'.launches[i].program, w.launches[i].pc, key);
      }
    }
  }

  lemma UnlinkKeepsReleasing(w: World, w': World, i: nat, key: Key)
    requires ReleasingInv(w) && Unlinks(w, w', i, key)
    ensures ReleasingInv(w') && Forwards(w, w')
  {
    hide WellMade, Passed;
    forall n | 0 <= n < |w'.launches| ensures Keeps(w', n) {
      assert Keeps(w, n);
    }
    hide Keeps;
  }

  lemma BeginKeepsReleasing(w: World, w': World, p: Plan)
    requires ReleasingInv(w) && Begins(w, w', p)
    ensures ReleasingInv(w') && Forwards(w, w')
  {
    StepsWellMade(p);
    hide WellMade, Steps;
    forall n | 0 <= n < |w'.launches| ensures Keeps(w', n) {
      if n < |w.launches| { assert Keeps(w, n) && w'.launches[n] == w.launches[n]; }
    }
    hide Keeps, Passed;
  }

  lemma ReleasingStepKeepsInv(w: World, w': World)
    requires ReleasingInv(w) && ReleasingStep(w, w')
    ensures ReleasingInv(w') && Forwards(w, w')
  {
    hide ReleasingInv, Forwards, After, Unlinks, Begins;
    if i, luck :| CanAct(w, i) && w' == After(w, i, luck) {
      ActKeepsReleasing(w, i, luck);
    } else if i, key :| Unlinks(w, w', i, key) {
      UnlinkKeepsReleasing(w, w', i, key);
    } else {
      var p :| Begins(w, w', p);
      BeginKeepsReleasing(w, w', p);
    }
  }

  lemma StepOfRun(ws: seq<World>, t: nat)
    requires ReleasingRun(ws) && t + 1 < |ws|
    ensures ReleasingStep(ws[t], ws[t + 1])
  {
    hide ReleasingStep;
  }

  lemma {:induction false} ReleasingRunInv(ws: seq<World>, t: nat)
    requires ReleasingRun(ws) && t < |ws|
    ensures ReleasingInv(ws[t])
  {
    if t > 0 {
      hide ReleasingRun, ReleasingInv, ReleasingStep, ReleasingInit;
      ReleasingRunInv(ws, t - 1);
      StepOfRun(ws, t - 1);
      ReleasingStepKeepsInv(ws[t - 1], ws[t]);
    }
  }

  // ------------------------------------------------------------ exclusion while held

  /** Between winning the directory's first claim and ending. */
  ghost predicate Holding(w: World, i: nat, dir: nat) {
    i < |w.launches| && !Ended(w.launches[i]) && Passed(w.launches[i], Claim(dir, 0))
  }

  /** Over every run, two launches are never both between winning a first claim and ending. */
  lemma ExclusionWhileHeld(ws: seq<World>, t: nat, i: nat, n: nat, dir: nat)
    requires ReleasingRun(ws) && t < |ws|
    requires Holding(ws[t], i, dir) && Holding(ws[t], n, dir)
    ensures i == n
  {
    ReleasingRunInv(ws, t);
    HoldingOwns(ws[t], i, dir);
    HoldingOwns(ws[t], n, dir);
  }

  lemma HoldingOwns(w: World, i: nat, dir: nat)
    requires ReleasingInv(w) && Holding(w, i, dir)
    ensures Claim(dir, 0) in w.owner && w.owner[Claim(dir, 0)] == By(i)
  {
    assert Keeps(w, i);
    hide WellMade, Passed;
  }

  // ------------------------------------------------------------ when an output collides

  /** While a launch holds the first claim, only it adds outputs to the directory. */
  lemma StepKeepsOutputs(w: World, w': World, i: nat, dir: nat, m: nat)
    requires ReleasingInv(w) && ReleasingStep(w, w') && Holding(w, i, dir)
    requires i < |w'.launches| && !Passed(w'.launches[i], Output(dir, m))
    ensures Output(dir, m) in w'.files <==> Output(dir, m) in w.files
  {
    ReleasingStepKeepsInv(w, w');
    if Output(dir, m) in w'.files && Output(dir, m) !in w.files {
      hide Forwards, Holding, Ended, Passed, Steps;
      var n, luck :| CanAct(w, n) && w' == After(w, n, luck);
      NewOutput(w, n, luck, dir, m);
      HoldingOwns(w, i, dir);
      HoldingOwns(w, n, dir);
      assert false;
    }
  }

  /** A new output's creator is past the first claim, still going, and past the output afterwards. */
  lemma NewOutput(w: World, n: nat, luck: Luck, dir: nat, m: nat)
    requires ReleasingInv(w) && CanAct(w, n)
    requires Output(dir, m) in After(w, n, luck).files && Output(dir, m) !in w.files
    ensures Holding(w, n, dir)
    ensures n < |After(w, n, luck).launches| && Passed(After(w, n, luck).launches[n], Output(dir, m))
  {
    ActEffect(w, n, luck);
    assert Keeps(w, n);
    var l := w.launches[n];
    hide After, WellMade, ReleasingInv;
    assert CreatesAt(l.program, l.pc, Output(dir, m));
    CreatedEarlier(l, l.pc, dir, m);
    assert CreatesAt(After(w, n, luck).launches[n].program, l.pc, Output(dir, m));
  }

  lemma CreatedEarlier(l: Launch, j: nat, dir: nat, m: nat)
    requires WellMade(l.program) && j <= l.pc && CreatesAt(l.program, j, Output(dir, m))
    ensures Passed(l, Claim(dir, 0))
  {
    var first :| 0 <= first <= j && CreatesAt(l.program, first, Claim(dir, 0));
    assert first != j;
  }

  lemma {:induction false} OutputsStand(ws: seq<World>, t: nat, u: nat, i: nat, dir: nat, m: nat)
    requires ReleasingRun(ws) && t <= u < |ws|
    requires i < |ws[t].launches| && Passed(ws[t].launches[i], Claim(dir, 0))
    requires i < |ws[u].launches| && !Ended(ws[u].launches[i]) && !Passed(ws[u].launches[i], Output(dir, m))
    ensures Output(dir, m) in ws[u].files <==> Output(dir, m) in ws[t].files
    decreases u - t
  {
    hide *;
    if t < u {
      OneStepBack(ws, t, u, i, dir, m);
      OutputsStand(ws, t, u - 1, i, dir, m);
    }
  }

  lemma OneStepBack(ws: seq<World>, t: nat, u: nat, i: nat, dir: nat, m: nat)
    requires ReleasingRun(ws) && t < u < |ws|
    requires i < |ws[t].launches| && Passed(ws[t].launches[i], Claim(dir, 0))
    requires i < |ws[u].launches| && !Ended(ws[u].launches[i]) && !Passed(ws[u].launches[i], Output(dir, m))
    ensures i < |ws[u - 1].launches| && !Ended(ws[u - 1].launches[i])
    ensures !Passed(ws[u - 1].launches[i], Output(dir, m))
    ensures Output(dir, m) in ws[u].files <==> Output(dir, m) in ws[u - 1].files
  {
    hide *;
    ReleasingRunInv(ws, u - 1);
    StepOfRun(ws, u - 1);
    EarlierStill(ws, t, u - 1, i, Claim(dir, 0));
    LookBack(ws[u - 1], ws[u], i, dir, m);
    StepKeepsOutputs(ws[u - 1], ws[u], i, dir, m);
  }

  lemma {:induction false} EarlierStill(ws: seq<World>, t: nat, u: nat, i: nat, key: Key)
    requires ReleasingRun(ws) && t <= u < |ws| && i < |ws[t].launches| && Passed(ws[t].launches[i], key)
    ensures i < |ws[u].launches| && Passed(ws[u].launches[i], key)
    decreases u - t
  {
    hide *;
    if t < u {
      EarlierStill(ws, t, u - 1, i, key);
      StillPassedNext(ws, u - 1, i, key);
    }
  }

  lemma StillPassedNext(ws: seq<World>, t: nat, i: nat, key: Key)
    requires ReleasingRun(ws) && t + 1 < |ws| && i < |ws[t].launches| && Passed(ws[t].launches[i], key)
    ensures i < |ws[t + 1].launches| && Passed(ws[t + 1].launches[i], key)
  {
    hide *;
    ReleasingRunInv(ws, t);
    StepOfRun(ws, t);
    StillPassed(ws[t], ws[t + 1], i, key);
  }

  lemma StillPassed(w: World, w': World, i: nat, key: Key)
    requires ReleasingInv(w) && ReleasingStep(w, w') && i < |w.launches| && Passed(w.launches[i], key)
    ensures i < |w'.launches| && Passed(w'.launches[i], key)
  {
    ReleasingStepKeepsInv(w, w');
    hide ReleasingStep, ReleasingInv, Passed;
    PassedOn(w.launches[i], w'.launches[i], key);
  }

  /** What was still open or not yet passed after a step was so before it. */
  lemma LookBack(w: World, w': World, i: nat, dir: nat, m: nat)
    requires ReleasingInv(w) && ReleasingStep(w, w') && i < |w.launches| && i < |w'.launches|
    requires Passed(w.launches[i], Claim(dir, 0))
    requires !Ended(w'.launches[i]) && !Passed(w'.launches[i], Output(dir, m))
    ensures Holding(w, i, dir) && !Ended(w.launches[i]) && !Passed(w.launches[i], Output(dir, m))
  {
    ReleasingStepKeepsInv(w, w');
    assert Keeps(w', i);
    hide ReleasingStep, ReleasingInv, Passed, WellMade;
    if Passed(w.launches[i], Output(dir, m)) {
      PassedOn(w.launches[i], w'.launches[i], Output(dir, m));
    }
  }

  /**
   The exact condition. Take any moment after launch `i` won the first claim; when it later
   comes to create an output, the name is taken, and the launch stops, exactly when the
   output was already there at that moment. Checking the names again after the first claim
   would decide it.
   */
  lemma OutputCollidesIff(ws: seq<World>, t: nat, u: nat, i: nat, dir: nat, m: nat)
    requires ReleasingRun(ws) && t <= u < |ws|
    requires i < |ws[t].launches| && Passed(ws[t].launches[i], Claim(dir, 0))
    requires CanAct(ws[u], i) && Next(ws[u], i) == Create(Output(dir, m))
    ensures Output(dir, m) in ws[u].files <==> Output(dir, m) in ws[t].files
    ensures !After(ws[u], i, Fine).launches[i].running <==> Output(dir, m) in ws[t].files
  {
    ReleasingRunInv(ws, u);
    NotYet(ws[u], i, Output(dir, m));
    hide ReleasingRun, Passed, ReleasingInv;
    OutputsStand(ws, t, u, i, dir, m);
  }

  lemma NotYet(w: World, i: nat, key: Key)
    requires ReleasingInv(w) && CanAct(w, i) && Next(w, i) == Create(key)
    ensures !Passed(w.launches[i], key)
  {
    assert Keeps(w, i);
    assert CreatesAt(w.launches[i].program, w.launches[i].pc, key);
  }
}
