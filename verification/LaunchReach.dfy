/**
 What the launch machine can do: a launch whose names are free, and whose actions work, finishes, with
 every marker and output in place and nothing else touched. Exclusion is not bought by refusing everybody.
 */
module LaunchReach {
  import opened Markers
  import opened Launches

  /** Every name the program checks or creates is free, and it checks nothing it has itself created. */
  ghost predicate Unhindered(program: seq<Action>, files: Files) {
    && (forall j :: 0 <= j < |program| && (program[j].Create? || program[j].CheckFree?) ==> program[j].key !in files)
    && CreatesOnce(program)
    && forall j, n :: 0 <= n < j < |program| && program[j].CheckFree? && program[n].Create? ==>
         program[n].key != program[j].key
  }

  /** The files after the first `k` actions have worked. */
  function Written(files: Files, program: seq<Action>, k: nat): Files
    requires k <= |program|
  {
    if k == 0 then files
    else
      match program[k - 1]
      case Create(key) => Written(files, program, k - 1)[key := ""]
      case Fill(key, bytes) => Written(files, program, k - 1)[key := bytes]
      case _ => Written(files, program, k - 1)
  }

  /** Any files of strangers will do to begin with, unless a later claim stands without its directory's first. */
  lemma AnyDirectoryBegins(files: Files)
    ensures Run([World(files, map key | key in files :: Stranger, [])])
       <==> forall dir: nat, index: nat :: Claim(dir, index) in files ==> Claim(dir, 0) in files
  {
    var w := World(files, map key | key in files :: Stranger, []);
    assert Init(w) <==> forall dir: nat, index: nat :: Claim(dir, index) in files ==> Claim(dir, 0) in files;
  }

  lemma Extends(ws: seq<World>, w: World)
    requires Run(ws) && Step(ws[|ws| - 1], w)
    ensures Run(ws + [w])
  {
    hide Step, Init;
    var longer := ws + [w];
    forall t | 0 <= t < |longer| - 1 ensures Step(longer[t], longer[t + 1]) {
      if t < |ws| - 1 { assert Step(ws[t], ws[t + 1]); }
    }
  }

  /** Any launch that is running may act next, and its action may work or fail leaving anything where it was writing. */
  lemma AnyActionHappens(ws: seq<World>, i: nat, luck: Luck)
    requires Run(ws) && i < |ws[|ws| - 1].launches| && ws[|ws| - 1].launches[i].running
    requires ws[|ws| - 1].launches[i].pc < |ws[|ws| - 1].launches[i].program|
    ensures CanAct(ws[|ws| - 1], i) && Run(ws + [After(ws[|ws| - 1], i, luck)])
  {
    assert CanAct(ws[|ws| - 1], i);
    hide After;
    assert Step(ws[|ws| - 1], After(ws[|ws| - 1], i, luck));
    Extends(ws, After(ws[|ws| - 1], i, luck));
  }

  /** Only what the program fills or creates can be new; fills go to what was just created. */
  lemma {:induction false} WrittenKeys(files: Files, program: seq<Action>, k: nat, key: Key)
    requires k <= |program| && FillsOwn(program)
    ensures key in Written(files, program, k) <==> key in files || exists j :: 0 <= j < k && CreatesAt(program, j, key)
  {
    if k > 0 {
      WrittenKeys(files, program, k - 1, key);
      if program[k - 1].Create? && program[k - 1].key == key { assert CreatesAt(program, k - 1, key); }
      if program[k - 1].Fill? && program[k - 1].key == key { assert CreatesAt(program, k - 2, key); }
      if j :| 0 <= j < k && CreatesAt(program, j, key) { assert j == k - 1 || j < k - 1; }
    }
  }

  /** The next action of an unhindered launch finds its way free. */
  lemma WayIsFree(files: Files, program: seq<Action>, k: nat)
    requires Unhindered(program, files) && FillsOwn(program) && k < |program|
    requires program[k].Create? || program[k].CheckFree?
    ensures program[k].key !in Written(files, program, k)
  {
    var key := program[k].key;
    WrittenKeys(files, program, k, key);
    hide Written, FillsOwn;
    if j :| 0 <= j < k && CreatesAt(program, j, key) {
      CreatedElsewhere(files, program, j, k);
    }
  }

  lemma CreatedElsewhere(files: Files, program: seq<Action>, j: nat, k: nat)
    requires Unhindered(program, files) && j < k < |program| && program[j].Create?
    requires program[k].Create? || program[k].CheckFree?
    ensures program[j].key != program[k].key
  {
    assert CreatesAt(program, j, program[j].key);
    assert program[k].Create? ==> CreatesAt(program, k, program[k].key);
  }

  ghost predicate Reaches(ws: seq<World>, longer: seq<World>, program: seq<Action>, k: nat)
    requires k <= |program|
  {
    && Run(ws) && Run(longer) && ws <= longer
    && var w, w' := ws[|ws| - 1], longer[|longer| - 1];
       && w'.launches == w.launches + [Launch(program, k, true)]
       && w'.files == Written(w.files, program, k)
  }

  /** It begins, and goes on action by action. */
  lemma {:induction false} ActionsWork(ws: seq<World>, program: seq<Action>, k: nat) returns (longer: seq<World>)
    requires Run(ws) && Allowed(program) && Unhindered(program, ws[|ws| - 1].files) && k <= |program|
    ensures Reaches(ws, longer, program, k)
  {
    var w := ws[|ws| - 1];
    AllowedIsWellMade(program);
    if k == 0 {
      var begun := w.(launches := w.launches + [Launch(program, 0, true)]);
      assert Step(w, begun);
      hide Step, Allowed, Unhindered;
      Extends(ws, begun);
      longer := ws + [begun];
    } else {
      var shorter := ActionsWork(ws, program, k - 1);
      longer := OneMore(ws, shorter, program, k);
    }
  }

  lemma OneMore(ws: seq<World>, shorter: seq<World>, program: seq<Action>, k: nat) returns (longer: seq<World>)
    requires 0 < k <= |program| && Reaches(ws, shorter, program, k - 1) && FillsOwn(program)
    requires Unhindered(program, ws[|ws| - 1].files)
    ensures Reaches(ws, longer, program, k)
  {
    var w, u := ws[|ws| - 1], shorter[|shorter| - 1];
    var i := |w.launches|;
    if program[k - 1].Create? || program[k - 1].CheckFree? { WayIsFree(w.files, program, k - 1); }
    assert CanAct(u, i) && Next(u, i) == program[k - 1];
    var next := After(u, i, Fine);
    assert Step(u, next);
    hide Step, Unhindered, FillsOwn, Run;
    Extends(shorter, next);
    longer := shorter + [next];
    assert w.launches + [Launch(program, k, true)] == u.launches[i := Launch(program, k, true)];
  }

  // ------------------------------------------------------------ the two protocols

  /** No marker, claim or output of the plan's is there yet. */
  ghost predicate AllFree(p: Plan, files: Files) {
    && (p.lead.Guarded? ==> Consumed(p.lead.prereg, p.lead.nonce) !in files)
    && forall index: nat :: index < OUTPUTS ==> Claim(p.dir, index) !in files && Output(p.dir, index) !in files
  }

  lemma PlanCheck(p: Plan, j: nat)
    requires j < |Steps(p)| && Steps(p)[j].CheckFree?
    ensures Base(p) <= j < Base(p) + 3 && Steps(p)[j].key == Output(p.dir, j - Base(p))
  {
    StepsAt(p, j);
    hide Steps;
  }

  lemma PlanUnhindered(p: Plan, files: Files)
    requires Distinct(p.writes) && AllFree(p, files)
    ensures Unhindered(Steps(p), files)
  {
    StepsWellMade(p);
    hide Steps, CreatesAt;
    var program := Steps(p);
    forall j | 0 <= j < |program| && (program[j].Create? || program[j].CheckFree?) ensures program[j].key !in files {
      if program[j].Create? { PlanCreate(p, j); } else { PlanCheck(p, j); }
    }
    forall j, n | 0 <= n < j < |program| && program[j].CheckFree? && program[n].Create?
      ensures program[n].key != program[j].key
    {
      PlanCheck(p, j);
      PlanCreate(p, n);
    }
  }

  lemma PlanCreate(p: Plan, j: nat)
    requires Distinct(p.writes) && j < |Steps(p)| && Steps(p)[j].Create?
    ensures var key := Steps(p)[j].key;
            || (j == 0 && p.lead.Guarded? && key == Consumed(p.lead.prereg, p.lead.nonce))
            || (exists index: nat :: index < OUTPUTS && key == Claim(p.dir, index))
            || (j >= Base(p) + 3 && exists index: nat :: index < OUTPUTS && key == Output(p.dir, index))
  {
    assert CreatesAt(Steps(p), j, Steps(p)[j].key);
    StepsCreate(p, j, Steps(p)[j].key);
    StepsAt(p, j);
    hide Steps;
  }

  /**
   A launch of a plan whose names are all free can finish: nonce and claims on disk with their bytes,
   its outputs created.
   */
  lemma FreeLaunchFinishes(ws: seq<World>, p: Plan) returns (longer: seq<World>)
    requires Run(ws) && Distinct(p.writes) && (if p.live then p.lead.Guarded? else p.lead.Unguarded?)
    requires AllFree(p, ws[|ws| - 1].files)
    ensures Run(longer) && ws <= longer
    ensures var w, w' := ws[|ws| - 1], longer[|longer| - 1];
            && w'.launches == w.launches + [Launch(Steps(p), |Steps(p)|, true)]
            && (p.lead.Guarded? ==>
                  && Consumed(p.lead.prereg, p.lead.nonce) in w'.files
                  && w'.files[Consumed(p.lead.prereg, p.lead.nonce)] == PREREGISTRATION_CONSUMED_BYTES)
            && (forall index: nat :: index < OUTPUTS ==>
                  Claim(p.dir, index) in w'.files && w'.files[Claim(p.dir, index)] == RESERVATION_BYTES)
            && (forall index: nat :: index < OUTPUTS ==> (Output(p.dir, index) in w'.files <==> index in p.writes))
  {
    var w := ws[|ws| - 1];
    PlanUnhindered(p, w.files);
    PlanAllowed(p);
    hide Steps, Unhindered, Allowed, Step, Run, Inv, LaunchInv, Written, AllFree, WellMade;
    longer := ActionsWork(ws, Steps(p), |Steps(p)|);
    var w' := longer[|longer| - 1];
    RunInv(longer, |longer| - 1);
    LaunchHolds(w', |w.launches|);
    FinishedFills(w', |w.launches|, p);
    FinishedOutputs(w.files, p);
  }

  lemma PlanAllowed(p: Plan)
    requires IsSonnet(p)
    ensures Allowed(Steps(p))
  {
    hide Steps;
  }

  lemma FinishedOutputs(files: Files, p: Plan)
    requires Distinct(p.writes) && AllFree(p, files)
    ensures forall index: nat :: index < OUTPUTS ==>
              (Output(p.dir, index) in Written(files, Steps(p), |Steps(p)|) <==> index in p.writes)
  {
    StepsWellMade(p);
    hide Steps, Written, FillsOwn;
    forall index: nat | index < OUTPUTS
      ensures Output(p.dir, index) in Written(files, Steps(p), |Steps(p)|) <==> index in p.writes
    {
      WrittenKeys(files, Steps(p), |Steps(p)|, Output(p.dir, index));
      PlanWrites(p, index);
    }
  }

  /** An output is created exactly when it is among the plan's writes. */
  lemma PlanWrites(p: Plan, index: nat)
    ensures (exists j :: 0 <= j < |Steps(p)| && CreatesAt(Steps(p), j, Output(p.dir, index))) <==> index in p.writes
  {
    if j :| 0 <= j < |Steps(p)| && CreatesAt(Steps(p), j, Output(p.dir, index)) {
      StepsCreate(p, j, Output(p.dir, index));
    }
    if k :| 0 <= k < |p.writes| && p.writes[k] == index {
      assert |Steps(p)| == Tail(p) + |p.writes|;
      StepsAt(p, Tail(p) + k);
      assert CreatesAt(Steps(p), Tail(p) + k, Output(p.dir, index));
    }
    hide Steps;
  }

  /** Every marker of a finished launch holds its bytes. */
  lemma FinishedFills(w: World, i: nat, p: Plan)
    requires i < |w.launches| && LaunchInv(w, i)
    requires w.launches[i].program == Steps(p) && w.launches[i].pc == |Steps(p)|
    ensures p.lead.Guarded? ==>
              && Consumed(p.lead.prereg, p.lead.nonce) in w.files
              && w.files[Consumed(p.lead.prereg, p.lead.nonce)] == PREREGISTRATION_CONSUMED_BYTES
    ensures forall index: nat :: index < OUTPUTS ==>
              Claim(p.dir, index) in w.files && w.files[Claim(p.dir, index)] == RESERVATION_BYTES
  {
    assert |Steps(p)| == Tail(p) + |p.writes|;
    if p.lead.Guarded? {
      StepsAt(p, 1);
      assert Steps(p)[1] == Fill(Consumed(p.lead.prereg, p.lead.nonce), PREREGISTRATION_CONSUMED_BYTES);
    }
    hide WellMade;
    forall index: nat | index < OUTPUTS
      ensures Claim(p.dir, index) in w.files && w.files[Claim(p.dir, index)] == RESERVATION_BYTES
    {
      ClaimFillAt(p, index);
    }
  }

  /** An episode whose authority directory is unused can finish: receipt on disk, credential read. */
  lemma FreeEpisodeFinishes(ws: seq<World>, dir: nat, receipt: string) returns (longer: seq<World>)
    requires Run(ws) && EpisodeConsumed(dir) !in ws[|ws| - 1].files
    ensures Run(longer) && ws <= longer
    ensures var w, w' := ws[|ws| - 1], longer[|longer| - 1];
            && w'.launches == w.launches + [Launch(Episode(dir, receipt), |Episode(dir, receipt)|, true)]
            && ReadCredential in Episode(dir, receipt)
            && w'.files == w.files[EpisodeConsumed(dir) := receipt]
  {
    var w := ws[|ws| - 1];
    var program := Episode(dir, receipt);
    assert program[2] == ReadCredential && |program| == 3;
    assert Unhindered(program, w.files) by {
      EpisodeWellMade(dir, receipt);
    }
    assert Allowed(program);
    hide Unhindered, Allowed, Run;
    longer := ActionsWork(ws, program, 3);
    assert Written(w.files, program, 1) == w.files[EpisodeConsumed(dir) := ""];
    assert Written(w.files, program, 2) == w.files[EpisodeConsumed(dir) := receipt];
    assert Written(w.files, program, 3) == Written(w.files, program, 2);
  }
}
