/**
 Any number of launches, started at any time, racing over shared directories. A
 launch runs a fixed list of actions; any action may fail, and a failed launch
 stops where it is. Nothing is ever removed.
 */
module Launches {
  import opened Markers

  datatype Action =
    | Create(key: Key)
    | Fill(key: Key, bytes: string)
    | CheckFree(key: Key)
    | ReadCredential

  datatype Launch = Launch(program: seq<Action>, pc: nat, running: bool)

  /** Who created a file: somebody before the run began, or a launch. */
  datatype Owner = Stranger | By(id: nat)

  datatype World = World(files: Files, owner: map<Key, Owner>, launches: seq<Launch>)

  /** An action works as it should, or fails and leaves this content where it was writing. */
  datatype Luck = Fine | Fails(content: string)

  const OUTPUTS: nat := 3

  // ------------------------------------------------------------ the two protocols

  /** What guards the start: nothing, or the one-shot nonce of a preregistration. */
  datatype Lead = Unguarded | Guarded(prereg: nat, nonce: nat)

  /** One launch: its guard, its output directory, whether it reads the credential and what it writes. */
  datatype Plan = Plan(lead: Lead, dir: nat, live: bool, writes: seq<nat>)

  function Opening(lead: Lead): seq<Action> {
    match lead
    case Unguarded => []
    case Guarded(prereg, nonce) =>
      [Create(Consumed(prereg, nonce)), Fill(Consumed(prereg, nonce), PREREGISTRATION_CONSUMED_BYTES)]
  }

  /** Every output name checked, then every name claimed. */
  function Reservation(dir: nat): seq<Action> {
    [CheckFree(Output(dir, 0)), CheckFree(Output(dir, 1)), CheckFree(Output(dir, 2)),
     Create(Claim(dir, 0)), Fill(Claim(dir, 0), RESERVATION_BYTES),
     Create(Claim(dir, 1)), Fill(Claim(dir, 1), RESERVATION_BYTES),
     Create(Claim(dir, 2)), Fill(Claim(dir, 2), RESERVATION_BYTES)]
  }

  function Credential(live: bool): seq<Action> {
    if live then [ReadCredential] else []
  }

  function Outputs(dir: nat, writes: seq<nat>): seq<Action> {
    seq(|writes|, k requires 0 <= k < |writes| => Create(Output(dir, writes[k])))
  }

  function Steps(p: Plan): seq<Action> {
    Opening(p.lead) + Reservation(p.dir) + Credential(p.live) + Outputs(p.dir, p.writes)
  }

  /** Where the reservation of a plan starts, where it is complete, and where the outputs start. */
  function Base(p: Plan): nat {
    if p.lead.Guarded? then 2 else 0
  }

  function Reserved(p: Plan): nat {
    Base(p) + 9
  }

  function Tail(p: Plan): nat {
    Reserved(p) + if p.live then 1 else 0
  }

  predicate Distinct(writes: seq<nat>) {
    && (forall k :: 0 <= k < |writes| ==> writes[k] < OUTPUTS)
    && forall k, n :: 0 <= k < n < |writes| ==> writes[k] != writes[n]
  }

  function Episode(dir: nat, receipt: string): seq<Action> {
    [Create(EpisodeConsumed(dir)), Fill(EpisodeConsumed(dir), receipt), ReadCredential]
  }

  /** The live cell consumes a nonce; the offline preflight has neither nonce nor credential. */
  predicate IsSonnet(p: Plan) {
    Distinct(p.writes) && (p.live <==> p.lead.Guarded?)
  }

  ghost predicate Allowed(program: seq<Action>) {
    || (exists p :: IsSonnet(p) && program == Steps(p))
    || exists dir, receipt :: program == Episode(dir, receipt)
  }

  // ------------------------------------------------------------ steps

  predicate CanAct(w: World, i: nat) {
    i < |w.launches| && w.launches[i].running && w.launches[i].pc < |w.launches[i].program|
  }

  function Next(w: World, i: nat): Action
    requires CanAct(w, i)
  {
    w.launches[i].program[w.launches[i].pc]
  }

  function Stopped(w: World, i: nat): World
    requires CanAct(w, i)
  {
    w.(launches := w.launches[i := w.launches[i].(running := false)])
  }

  function Advanced(w: World, i: nat): World
    requires CanAct(w, i)
  {
    w.(launches := w.launches[i := w.launches[i].(pc := w.launches[i].pc + 1)])
  }

  function After(w: World, i: nat, luck: Luck): World
    requires CanAct(w, i)
  {
    match (luck, Next(w, i))
    case (Fails(content), Fill(key, _)) => Stopped(w, i).(files := w.files[key := content])
    case (Fails(_), _) => Stopped(w, i)
    case (Fine, Create(key)) =>
      if key in w.files then Stopped(w, i)
      else Advanced(w, i).(files := w.files[key := ""], owner := w.owner[key := By(i)])
    case (Fine, Fill(key, bytes)) => Advanced(w, i).(files := w.files[key := bytes])
    case (Fine, CheckFree(key)) => if key in w.files then Stopped(w, i) else Advanced(w, i)
    case (Fine, ReadCredential) => Advanced(w, i)
  }

  ghost predicate Step(w: World, w': World) {
    || (exists program :: Allowed(program) && w' == w.(launches := w.launches + [Launch(program, 0, true)]))
    || exists i, luck :: CanAct(w, i) && w' == After(w, i, luck)
  }

  /** Before the first launch: files of strangers, and no later claim without the first. */
  ghost predicate Init(w: World) {
    && w.launches == []
    && w.owner.Keys == w.files.Keys
    && (forall k :: k in w.owner ==> w.owner[k] == Stranger)
    && forall dir: nat, index: nat :: Claim(dir, index) in w.files ==> Claim(dir, 0) in w.files
  }

  ghost predicate Run(ws: seq<World>) {
    && ws != [] && Init(ws[0])
    && forall t :: 0 <= t < |ws| - 1 ==> Step(ws[t], ws[t + 1])
  }

  // ------------------------------------------------------------ shapes of programs

  /** Position `j` of the program creates `key`. */
  predicate CreatesAt(program: seq<Action>, j: nat, key: Key) {
    j < |program| && program[j] == Create(key)
  }

  /** The launch is past the action that creates `key`. */
  ghost predicate Passed(l: Launch, key: Key) {
    exists j :: 0 <= j < l.pc && CreatesAt(l.program, j, key)
  }

  /** A claim or an output of a directory comes no earlier than the directory's first claim. */
  ghost predicate FirstClaimFirst(program: seq<Action>) {
    forall j: nat, dir: nat, index: nat ::
      CreatesAt(program, j, Claim(dir, index)) || CreatesAt(program, j, Output(dir, index)) ==>
      exists first :: 0 <= first <= j && CreatesAt(program, first, Claim(dir, 0))
  }

  ghost predicate CreatesOnce(program: seq<Action>) {
    forall j, n, key :: CreatesAt(program, j, key) && CreatesAt(program, n, key) ==> j == n
  }

  ghost predicate FillsOwn(program: seq<Action>) {
    forall j :: 0 <= j < |program| && program[j].Fill? ==> j > 0 && CreatesAt(program, j - 1, program[j].key)
  }

  /** Every output it creates it has first seen free. */
  ghost predicate ChecksOutputs(program: seq<Action>) {
    forall j: nat, dir: nat, index: nat :: CreatesAt(program, j, Output(dir, index)) ==>
      exists c :: 0 <= c < j && program[c] == CheckFree(Output(dir, index))
  }

  ghost predicate WellMade(program: seq<Action>) {
    FirstClaimFirst(program) && CreatesOnce(program) && FillsOwn(program) && ChecksOutputs(program)
  }

  lemma StepsAt(p: Plan, j: nat)
    requires j < |Steps(p)|
    ensures |Steps(p)| == Tail(p) + |p.writes|
    ensures j < Base(p) ==> Steps(p)[j] == Opening(p.lead)[j]
    ensures Base(p) <= j < Reserved(p) ==> Steps(p)[j] == Reservation(p.dir)[j - Base(p)]
    ensures Reserved(p) <= j < Tail(p) ==> Steps(p)[j] == ReadCredential
    ensures Tail(p) <= j ==> Steps(p)[j] == Create(Output(p.dir, p.writes[j - Tail(p)]))
  {
  }

  /** Where a plan creates a key. */
  lemma StepsCreate(p: Plan, j: nat, key: Key)
    requires CreatesAt(Steps(p), j, key)
    ensures j < Tail(p) + |p.writes|
    ensures j < Base(p) ==> j == 0 && p.lead.Guarded? && key == Consumed(p.lead.prereg, p.lead.nonce)
    ensures Base(p) <= j < Reserved(p) ==>
              var k := j - Base(p);
              (k == 3 || k == 5 || k == 7) && key == Claim(p.dir, (k - 3) / 2)
    ensures Reserved(p) <= j ==> Tail(p) <= j && key == Output(p.dir, p.writes[j - Tail(p)])
  {
    StepsAt(p, j);
    hide Steps;
  }

  lemma StepsFill(p: Plan, j: nat)
    requires j < |Steps(p)| && Steps(p)[j].Fill?
    ensures j > 0 && CreatesAt(Steps(p), j - 1, Steps(p)[j].key)
  {
    StepsAt(p, j);
    if j > 0 { StepsAt(p, j - 1); }
    hide Steps;
  }

  lemma StepsCreateOnce(p: Plan)
    requires Distinct(p.writes)
    ensures CreatesOnce(Steps(p))
  {
    hide Steps, CreatesAt;
    forall j, n, key | CreatesAt(Steps(p), j, key) && CreatesAt(Steps(p), n, key) ensures j == n {
      StepsCreate(p, j, key);
      StepsCreate(p, n, key);
    }
  }

  /** The plan's first claim is its fourth step of reserving. */
  lemma FirstClaimAt(p: Plan)
    ensures CreatesAt(Steps(p), Base(p) + 3, Claim(p.dir, 0))
  {
    StepsAt(p, Base(p) + 3);
    hide Steps;
  }

  lemma StepsClaimFirst(p: Plan)
    ensures FirstClaimFirst(Steps(p))
  {
    FirstClaimAt(p);
    hide Steps, CreatesAt;
    forall j: nat, d: nat, index: nat
      | CreatesAt(Steps(p), j, Claim(d, index)) || CreatesAt(Steps(p), j, Output(d, index))
      ensures exists first :: 0 <= first <= j && CreatesAt(Steps(p), first, Claim(d, 0))
    {
      if CreatesAt(Steps(p), j, Claim(d, index)) {
        StepsCreate(p, j, Claim(d, index));
      } else {
        StepsCreate(p, j, Output(d, index));
      }
    }
  }

  lemma CheckedAt(p: Plan, index: nat)
    requires index < OUTPUTS
    ensures Base(p) + index < |Steps(p)| && Steps(p)[Base(p) + index] == CheckFree(Output(p.dir, index))
  {
    StepsAt(p, Base(p) + index);
    hide Steps;
  }

  lemma StepsCheck(p: Plan)
    requires Distinct(p.writes)
    ensures ChecksOutputs(Steps(p))
  {
    hide Steps;
    forall j: nat, d: nat, index: nat | CreatesAt(Steps(p), j, Output(d, index))
      ensures exists c :: 0 <= c < j && Steps(p)[c] == CheckFree(Output(d, index))
    {
      StepsCreate(p, j, Output(d, index));
      CheckedAt(p, index);
    }
  }

  lemma StepsWellMade(p: Plan)
    requires Distinct(p.writes)
    ensures WellMade(Steps(p))
  {
    hide Steps, CreatesAt, FirstClaimFirst, CreatesOnce, ChecksOutputs;
    StepsClaimFirst(p);
    StepsCreateOnce(p);
    StepsCheck(p);
    forall j | 0 <= j < |Steps(p)| && Steps(p)[j].Fill? ensures j > 0 && CreatesAt(Steps(p), j - 1, Steps(p)[j].key) {
      StepsFill(p, j);
    }
  }

  lemma EpisodeCreates(dir: nat, receipt: string, j: nat, key: Key)
    requires CreatesAt(Episode(dir, receipt), j, key)
    ensures j == 0 && key == EpisodeConsumed(dir)
  {
  }

  lemma EpisodeWellMade(dir: nat, receipt: string)
    ensures WellMade(Episode(dir, receipt))
  {
    var p := Episode(dir, receipt);
    assert FillsOwn(p);
    forall j, key | CreatesAt(p, j, key) ensures j == 0 && key == EpisodeConsumed(dir) {
      EpisodeCreates(dir, receipt, j, key);
    }
    hide CreatesAt, FillsOwn, Episode;
  }

  lemma AllowedIsWellMade(program: seq<Action>)
    requires Allowed(program)
    ensures WellMade(program)
  {
    hide WellMade, Steps, Episode;
    if p :| IsSonnet(p) && program == Steps(p) {
      StepsWellMade(p);
    } else {
      var dir, receipt :| program == Episode(dir, receipt);
      EpisodeWellMade(dir, receipt);
    }
  }

  // ------------------------------------------------------------ what every step keeps

  /** What launch `i` has passed, it owns, filled and saw free. */
  ghost predicate LaunchInv(w: World, i: nat)
    requires i < |w.launches|
  {
    var l := w.launches[i];
    && l.pc <= |l.program| && WellMade(l.program)
    && (forall j, key :: 0 <= j < l.pc && CreatesAt(l.program, j, key) ==> key in w.owner && w.owner[key] == By(i))
    && (forall j :: 0 <= j < l.pc && l.program[j].Fill? ==>
          l.program[j].key in w.files && w.files[l.program[j].key] == l.program[j].bytes)
    && (forall j :: 0 <= j < l.pc && l.program[j].CheckFree? ==>
          l.program[j].key in w.owner ==> w.owner[l.program[j].key] != Stranger)
  }

  ghost predicate OwnerInv(w: World) {
    && w.owner.Keys == w.files.Keys
    && (forall key :: key in w.owner && w.owner[key].By? ==>
          w.owner[key].id < |w.launches| && Passed(w.launches[w.owner[key].id], key))
    && forall dir: nat, index: nat :: Claim(dir, index) in w.owner && w.owner[Claim(dir, index)] == Stranger ==>
          Claim(dir, 0) in w.owner && w.owner[Claim(dir, 0)] == Stranger
  }

  ghost predicate Inv(w: World) {
    OwnerInv(w) && forall i :: 0 <= i < |w.launches| ==> LaunchInv(w, i)
  }

  /** Files and their owners stay, launches keep their programs and only move forward. */
  ghost predicate Grows(w: World, w': World) {
    && w.files.Keys <= w'.files.Keys
    && (forall key :: key in w.owner ==> key in w'.owner && w'.owner[key] == w.owner[key])
    && |w.launches| <= |w'.launches|
    && forall i :: 0 <= i < |w.launches| ==>
         w'.launches[i].program == w.launches[i].program && w.launches[i].pc <= w'.launches[i].pc
  }

  lemma AfterGrows(w: World, i: nat, luck: Luck)
    requires Inv(w) && CanAct(w, i)
    ensures Grows(w, After(w, i, luck))
    ensures After(w, i, luck).owner.Keys == After(w, i, luck).files.Keys
  {
    hide LaunchInv;
    if Next(w, i).Fill? {
      OwnsWhatItFills(w, i);
    }
  }

  /** A launch about to fill a file owns it. */
  lemma OwnsWhatItFills(w: World, i: nat)
    requires Inv(w) && CanAct(w, i) && Next(w, i).Fill?
    ensures Next(w, i).key in w.owner && w.owner[Next(w, i).key] == By(i)
  {
    assert LaunchInv(w, i);
    var l := w.launches[i];
    assert CreatesAt(l.program, l.pc - 1, l.program[l.pc].key);
  }

  /** What a launch has filled it has created, and owns. */
  lemma FilledIsOwned(w: World, i: nat, j: nat)
    requires i < |w.launches| && LaunchInv(w, i) && j < w.launches[i].pc && w.launches[i].program[j].Fill?
    ensures j > 0 && CreatesAt(w.launches[i].program, j - 1, w.launches[i].program[j].key)
    ensures w.launches[i].program[j].key in w.owner && w.owner[w.launches[i].program[j].key] == By(i)
  {
  }

  /** An action rewrites a file only when it fills it; it fills only what it owns. */
  lemma ContentKept(w: World, i: nat, luck: Luck, key: Key)
    requires Inv(w) && CanAct(w, i) && key in w.files
    requires Next(w, i).Fill? ==> Next(w, i).key != key
    ensures key in After(w, i, luck).files && After(w, i, luck).files[key] == w.files[key]
  {
    hide LaunchInv, OwnerInv;
  }

  lemma ActKeepsOthers(w: World, i: nat, luck: Luck, n: nat)
    requires Inv(w) && CanAct(w, i) && n < |w.launches| && n != i
    ensures LaunchInv(After(w, i, luck), n)
  {
    OthersSame(w, i, luck, n);
    LaunchHolds(w, n);
    AfterGrows(w, i, luck);
    hide After, WellMade, Inv, CanAct, Next;
    OthersFilled(w, i, luck, n);
    OthersChecked(w, i, luck, n);
  }

  lemma OthersSame(w: World, i: nat, luck: Luck, n: nat)
    requires CanAct(w, i) && n < |w.launches| && n != i
    ensures n < |After(w, i, luck).launches| && After(w, i, luck).launches[n] == w.launches[n]
  {
  }

  lemma LaunchHolds(w: World, n: nat)
    requires Inv(w) && n < |w.launches|
    ensures LaunchInv(w, n)
  {
    hide LaunchInv, OwnerInv;
  }

  lemma OthersFilled(w: World, i: nat, luck: Luck, n: nat)
    requires Inv(w) && CanAct(w, i) && n < |w.launches| && n != i
    requires w.launches[n].pc <= |w.launches[n].program|
    ensures forall j :: 0 <= j < w.launches[n].pc && w.launches[n].program[j].Fill? ==>
              w.launches[n].program[j].key in After(w, i, luck).files
              && After(w, i, luck).files[w.launches[n].program[j].key] == w.launches[n].program[j].bytes
  {
    assert LaunchInv(w, n);
    hide After, WellMade;
    forall j | 0 <= j < w.launches[n].pc && w.launches[n].program[j].Fill?
      ensures w.launches[n].program[j].key in After(w, i, luck).files
           && After(w, i, luck).files[w.launches[n].program[j].key] == w.launches[n].program[j].bytes
    {
      FilledIsOwned(w, n, j);
      if Next(w, i).Fill? { OwnsWhatItFills(w, i); }
      ContentKept(w, i, luck, w.launches[n].program[j].key);
    }
  }

  lemma OthersChecked(w: World, i: nat, luck: Luck, n: nat)
    requires Inv(w) && CanAct(w, i) && n < |w.launches| && n != i
    requires w.launches[n].pc <= |w.launches[n].program|
    ensures forall j :: 0 <= j < w.launches[n].pc && w.launches[n].program[j].CheckFree? ==>
              w.launches[n].program[j].key in After(w, i, luck).owner ==>
                After(w, i, luck).owner[w.launches[n].program[j].key] != Stranger
  {
    assert LaunchInv(w, n);
    hide WellMade;
  }

  lemma ActKeepsOwn(w: World, i: nat, luck: Luck)
    requires Inv(w) && CanAct(w, i)
    ensures LaunchInv(After(w, i, luck), i)
  {
    LaunchHolds(w, i);
    OwnSteps(w, i, luck);
    AfterGrows(w, i, luck);
    OwnCreated(w, i, luck);
    OwnFilled(w, i, luck);
    OwnChecked(w, i, luck);
    hide WellMade, Inv, OwnerInv, After, CanAct, Next, CreatesAt, Grows;
  }

  /** What a launch created by this action, or before, it owns. */
  lemma OwnCreated(w: World, i: nat, luck: Luck)
    requires Inv(w) && CanAct(w, i) && i < |After(w, i, luck).launches|
    ensures var w' := After(w, i, luck);
            forall j, key :: 0 <= j < w'.launches[i].pc && CreatesAt(w.launches[i].program, j, key) ==>
              key in w'.owner && w'.owner[key] == By(i)
  {
    LaunchHolds(w, i);
    AfterGrows(w, i, luck);
    var w' := After(w, i, luck);
    forall j, key | 0 <= j < w'.launches[i].pc && CreatesAt(w.launches[i].program, j, key)
      ensures key in w'.owner && w'.owner[key] == By(i)
    {
      if j < w.launches[i].pc {
        hide After, WellMade, Inv, CanAct, Next;
      } else {
        hide LaunchInv, WellMade, Inv, Grows;
      }
    }
  }

  /** What a launch filled by this action, or before, holds its bytes. */
  lemma OwnFilled(w: World, i: nat, luck: Luck)
    requires Inv(w) && CanAct(w, i) && i < |After(w, i, luck).launches|
    requires After(w, i, luck).launches[i].pc <= |w.launches[i].program|
    ensures var w', program := After(w, i, luck), w.launches[i].program;
            forall j :: 0 <= j < w'.launches[i].pc && program[j].Fill? ==>
              program[j].key in w'.files && w'.files[program[j].key] == program[j].bytes
  {
    LaunchHolds(w, i);
    var w', program := After(w, i, luck), w.launches[i].program;
    forall j | 0 <= j < w'.launches[i].pc && program[j].Fill?
      ensures program[j].key in w'.files && w'.files[program[j].key] == program[j].bytes
    {
      if j < w.launches[i].pc {
        if Next(w, i).Fill? { FillsDiffer(w, i); }
        ContentKept(w, i, luck, program[j].key);
        hide After, WellMade, Inv, CanAct;
      } else {
        hide LaunchInv, WellMade, Inv;
      }
    }
  }

  /** What a launch saw free by this action, or before, is no stranger's. */
  lemma OwnChecked(w: World, i: nat, luck: Luck)
    requires Inv(w) && CanAct(w, i) && i < |After(w, i, luck).launches|
    requires After(w, i, luck).launches[i].pc <= |w.launches[i].program|
    ensures var w', program := After(w, i, luck), w.launches[i].program;
            forall j :: 0 <= j < w'.launches[i].pc && program[j].CheckFree? && program[j].key in w'.owner ==>
              w'.owner[program[j].key] != Stranger
  {
    LaunchHolds(w, i);
    assert w.owner.Keys == w.files.Keys;
    hide WellMade, Inv;
  }

  lemma OwnSteps(w: World, i: nat, luck: Luck)
    requires CanAct(w, i)
    ensures i < |After(w, i, luck).launches| && After(w, i, luck).launches[i].program == w.launches[i].program
    ensures w.launches[i].pc <= After(w, i, luck).launches[i].pc <= w.launches[i].pc + 1
  {
  }

  lemma SameFill(program: seq<Action>, j: nat, n: nat)
    requires FillsOwn(program) && CreatesOnce(program) && j < |program| && n < |program|
    requires program[j].Fill? && program[n].Fill? && program[j].key == program[n].key
    ensures j == n
  {
    assert CreatesAt(program, j - 1, program[j].key) && CreatesAt(program, n - 1, program[j].key);
  }

  lemma EarlierFillsDiffer(program: seq<Action>, n: nat)
    requires FillsOwn(program) && CreatesOnce(program) && n < |program| && program[n].Fill?
    ensures forall j :: 0 <= j < n && program[j].Fill? ==> program[j].key != program[n].key
  {
    hide FillsOwn, CreatesOnce;
    forall j: nat | j < n && program[j].Fill? && program[j].key == program[n].key ensures false {
      SameFill(program, j, n);
    }
  }

  lemma FillsDiffer(w: World, i: nat)
    requires Inv(w) && CanAct(w, i) && Next(w, i).Fill?
    requires w.launches[i].pc <= |w.launches[i].program|
    ensures forall j :: 0 <= j < w.launches[i].pc && w.launches[i].program[j].Fill? ==>
              w.launches[i].program[j].key != Next(w, i).key
  {
    assert LaunchInv(w, i);
    EarlierFillsDiffer(w.launches[i].program, w.launches[i].pc);
  }

  lemma PassedStays(w: World, w': World, i: nat, key: Key)
    requires Grows(w, w') && i < |w.launches| && Passed(w.launches[i], key)
    ensures Passed(w'.launches[i], key)
  {
    var j :| 0 <= j < w.launches[i].pc && CreatesAt(w.launches[i].program, j, key);
    assert CreatesAt(w'.launches[i].program, j, key);
  }

  /** A stranger's file was there before, and still is a stranger's. */
  lemma StrangersStay(w: World, i: nat, luck: Luck)
    requires OwnerInv(w) && CanAct(w, i)
    ensures var owner := After(w, i, luck).owner;
            forall dir: nat, index: nat :: Claim(dir, index) in owner && owner[Claim(dir, index)] == Stranger ==>
              Claim(dir, 0) in owner && owner[Claim(dir, 0)] == Stranger
  {
    hide Passed;
  }

  lemma OwnersPassed(w: World, i: nat, luck: Luck, key: Key)
    requires Inv(w) && CanAct(w, i) && key in After(w, i, luck).owner && After(w, i, luck).owner[key].By?
    ensures After(w, i, luck).owner[key].id < |After(w, i, luck).launches|
    ensures Passed(After(w, i, luck).launches[After(w, i, luck).owner[key].id], key)
  {
    AfterGrows(w, i, luck);
    if key !in w.owner {
      CreatedPasses(w, i, luck, key);
    } else {
      hide After, LaunchInv, Passed;
      PassedStays(w, After(w, i, luck), w.owner[key].id, key);
    }
  }

  lemma ActKeepsOwners(w: World, i: nat, luck: Luck)
    requires Inv(w) && CanAct(w, i)
    ensures OwnerInv(After(w, i, luck))
  {
    AfterGrows(w, i, luck);
    StrangersStay(w, i, luck);
    hide LaunchInv, Grows, Passed, After;
    var w' := After(w, i, luck);
    forall key | key in w'.owner && w'.owner[key].By?
      ensures w'.owner[key].id < |w'.launches| && Passed(w'.launches[w'.owner[key].id], key)
    {
      OwnersPassed(w, i, luck, key);
    }
  }

  lemma CreatedPasses(w: World, i: nat, luck: Luck, key: Key)
    requires CanAct(w, i) && key !in w.owner && key in After(w, i, luck).owner
    ensures After(w, i, luck).owner[key] == By(i)
    ensures i < |After(w, i, luck).launches| && Passed(After(w, i, luck).launches[i], key)
  {
    assert CreatesAt(w.launches[i].program, w.launches[i].pc, key);
  }

  lemma ActKeepsInv(w: World, i: nat, luck: Luck)
    requires Inv(w) && CanAct(w, i)
    ensures Inv(After(w, i, luck))
  {
    ActKeepsOwners(w, i, luck);
    ActKeepsOwn(w, i, luck);
    var w' := After(w, i, luck);
    assert |w'.launches| == |w.launches|;
    hide After, OwnerInv, LaunchInv;
    forall n | 0 <= n < |w'.launches| ensures LaunchInv(w', n) {
      if n != i { ActKeepsOthers(w, i, luck, n); }
    }
  }

  lemma BeginKeepsInv(w: World, program: seq<Action>)
    requires Inv(w) && Allowed(program)
    ensures Inv(w.(launches := w.launches + [Launch(program, 0, true)]))
    ensures Grows(w, w.(launches := w.launches + [Launch(program, 0, true)]))
  {
    AllowedIsWellMade(program);
    var w' := w.(launches := w.launches + [Launch(program, 0, true)]);
    hide WellMade, Allowed;
    assert Grows(w, w');
    forall n | 0 <= n < |w'.launches| ensures LaunchInv(w', n) {
      if n < |w.launches| { assert LaunchInv(w, n) && w'.launches[n] == w.launches[n]; }
    }
    forall key | key in w'.owner && w'.owner[key].By?
      ensures w'.owner[key].id < |w'.launches| && Passed(w'.launches[w'.owner[key].id], key)
    {
      PassedStays(w, w', w.owner[key].id, key);
    }
  }

  lemma StepKeepsInv(w: World, w': World)
    requires Inv(w) && Step(w, w')
    ensures Inv(w') && Grows(w, w')
  {
    hide Inv, Grows, After, Allowed;
    if i, luck :| CanAct(w, i) && w' == After(w, i, luck) {
      ActKeepsInv(w, i, luck);
      AfterGrows(w, i, luck);
    } else {
      var program :| Allowed(program) && w' == w.(launches := w.launches + [Launch(program, 0, true)]);
      BeginKeepsInv(w, program);
    }
  }

  lemma GrowsChain(a: World, b: World, c: World)
    requires Grows(a, b) && Grows(b, c)
    ensures Grows(a, c)
  {
  }

  lemma {:induction false} RunInv(ws: seq<World>, t: nat)
    requires Run(ws) && t < |ws|
    ensures Inv(ws[t])
  {
    if t > 0 {
      RunInv(ws, t - 1);
      assert Step(ws[t - 1], ws[t - 1 + 1]);
      hide Step, Inv;
      StepKeepsInv(ws[t - 1], ws[t]);
    }
  }

  lemma {:induction false} RunGrows(ws: seq<World>, t: nat, u: nat)
    requires Run(ws) && t <= u < |ws|
    ensures Grows(ws[t], ws[u])
    decreases u - t
  {
    if t < u {
      RunGrows(ws, t, u - 1);
      RunInv(ws, u - 1);
      assert Step(ws[u - 1], ws[u - 1 + 1]);
      hide Step, Inv, Grows, Run;
      StepKeepsInv(ws[u - 1], ws[u]);
      GrowsChain(ws[t], ws[u - 1], ws[u]);
    }
  }

  // ------------------------------------------------------------ at most one

  /** Over a whole run only one launch ever gets past the creation of a given name. */
  lemma OnlyOnePasses(ws: seq<World>, t: nat, u: nat, i: nat, n: nat, key: Key)
    requires Run(ws) && t < |ws| && u < |ws|
    requires i < |ws[t].launches| && Passed(ws[t].launches[i], key)
    requires n < |ws[u].launches| && Passed(ws[u].launches[n], key)
    ensures i == n
  {
    hide Run, Passed, Grows, Inv;
    var last := |ws| - 1;
    assert |ws| > 0;
    RunGrows(ws, t, last);
    RunGrows(ws, u, last);
    RunInv(ws, last);
    PassedOwns(ws[t], ws[last], i, key);
    PassedOwns(ws[u], ws[last], n, key);
  }

  lemma PassedOwns(w: World, w': World, i: nat, key: Key)
    requires Grows(w, w') && Inv(w') && i < |w.launches| && Passed(w.launches[i], key)
    ensures key in w'.owner && w'.owner[key] == By(i)
  {
    PassedStays(w, w', i, key);
    assert LaunchInv(w', i);
    hide WellMade;
  }

  /** A launch of this plan that has every name reserved. */
  predicate Holds(l: Launch, p: Plan) {
    l.program == Steps(p) && l.pc >= Reserved(p)
  }

  lemma HolderPassed(l: Launch, p: Plan)
    requires Holds(l, p)
    ensures Passed(l, Claim(p.dir, 0))
    ensures p.lead.Guarded? ==> Passed(l, Consumed(p.lead.prereg, p.lead.nonce))
  {
    FirstClaimAt(p);
    if p.lead.Guarded? {
      StepsAt(p, 0);
      assert CreatesAt(l.program, 0, Consumed(p.lead.prereg, p.lead.nonce));
    }
    hide Steps;
  }

  /** Over a whole run at most one launch per nonce reaches the credential read. */
  lemma OneCredentialPerNonce(ws: seq<World>, t: nat, u: nat, i: nat, n: nat, p: Plan, q: Plan)
    requires Run(ws) && t < |ws| && u < |ws|
    requires i < |ws[t].launches| && Holds(ws[t].launches[i], p)
    requires n < |ws[u].launches| && Holds(ws[u].launches[n], q)
    requires p.lead.Guarded? && q.lead == p.lead
    ensures i == n
  {
    hide Run, Passed, Holds;
    HolderPassed(ws[t].launches[i], p);
    HolderPassed(ws[u].launches[n], q);
    OnlyOnePasses(ws, t, u, i, n, Consumed(p.lead.prereg, p.lead.nonce));
  }

  /** Over a whole run at most one launch per output directory, live or offline, holds its reservation. */
  lemma OneReservationPerDirectory(ws: seq<World>, t: nat, u: nat, i: nat, n: nat, p: Plan, q: Plan)
    requires Run(ws) && t < |ws| && u < |ws|
    requires i < |ws[t].launches| && Holds(ws[t].launches[i], p)
    requires n < |ws[u].launches| && Holds(ws[u].launches[n], q)
    requires p.dir == q.dir
    ensures i == n
  {
    hide Run, Passed, Holds;
    HolderPassed(ws[t].launches[i], p);
    HolderPassed(ws[u].launches[n], q);
    OnlyOnePasses(ws, t, u, i, n, Claim(p.dir, 0));
  }

  /** Over a whole run at most one launch per authority directory reads the episode credential. */
  lemma OneEpisodePerAuthority(ws: seq<World>, t: nat, u: nat, i: nat, n: nat, dir: nat, r: string, r': string)
    requires Run(ws) && t < |ws| && u < |ws|
    requires i < |ws[t].launches| && ws[t].launches[i].program == Episode(dir, r) && ws[t].launches[i].pc >= 2
    requires n < |ws[u].launches| && ws[u].launches[n].program == Episode(dir, r') && ws[u].launches[n].pc >= 2
    ensures i == n
  {
    assert CreatesAt(ws[t].launches[i].program, 0, EpisodeConsumed(dir));
    assert CreatesAt(ws[u].launches[n].program, 0, EpisodeConsumed(dir));
    assert Passed(ws[t].launches[i], EpisodeConsumed(dir)) && Passed(ws[u].launches[n], EpisodeConsumed(dir));
    hide Run, Passed, CreatesAt;
    OnlyOnePasses(ws, t, u, i, n, EpisodeConsumed(dir));
  }

  /** Whoever holds a reservation has every marker in place, holding exactly its bytes. */
  lemma MarkersAreComplete(ws: seq<World>, t: nat, i: nat, p: Plan)
    requires Run(ws) && t < |ws| && i < |ws[t].launches| && Holds(ws[t].launches[i], p)
    ensures var files := ws[t].files;
            && (p.lead.Guarded? ==>
                  var key := Consumed(p.lead.prereg, p.lead.nonce);
                  key in files && files[key] == PREREGISTRATION_CONSUMED_BYTES)
            && forall m: nat :: m < OUTPUTS ==> Claim(p.dir, m) in files && files[Claim(p.dir, m)] == RESERVATION_BYTES
  {
    RunInv(ws, t);
    if p.lead.Guarded? {
      StepsAt(p, 1);
      FilledHolds(ws[t], i, 1);
    }
    forall m: nat | m < OUTPUTS
      ensures Claim(p.dir, m) in ws[t].files && ws[t].files[Claim(p.dir, m)] == RESERVATION_BYTES
    {
      ClaimFilled(ws[t], i, p, m);
    }
  }

  lemma ClaimFilled(w: World, i: nat, p: Plan, m: nat)
    requires Inv(w) && i < |w.launches| && Holds(w.launches[i], p) && m < OUTPUTS
    ensures Claim(p.dir, m) in w.files && w.files[Claim(p.dir, m)] == RESERVATION_BYTES
  {
    ClaimFillAt(p, m);
    hide Steps, Inv, Opening, Reservation, Credential, Outputs;
    FilledHolds(w, i, Base(p) + 4 + 2 * m);
  }

  lemma ClaimFillAt(p: Plan, m: nat)
    requires m < OUTPUTS
    ensures Base(p) + 4 + 2 * m < Reserved(p) <= |Steps(p)|
    ensures Steps(p)[Base(p) + 4 + 2 * m] == Fill(Claim(p.dir, m), RESERVATION_BYTES)
  {
    StepsAt(p, Base(p) + 4 + 2 * m);
    hide Steps;
  }

  lemma FilledHolds(w: World, i: nat, j: nat)
    requires Inv(w) && i < |w.launches| && j < w.launches[i].pc
    requires j < |w.launches[i].program| && w.launches[i].program[j].Fill?
    ensures w.launches[i].program[j].key in w.files
    ensures w.files[w.launches[i].program[j].key] == w.launches[i].program[j].bytes
  {
    assert LaunchInv(w, i);
    hide WellMade;
  }

  // ------------------------------------------------------------ the winner of the first claim

  lemma PassedEarlier(l: Launch, key: Key, dir: nat, index: nat)
    requires FirstClaimFirst(l.program) && Passed(l, key)
    requires key == Claim(dir, index) || key == Output(dir, index)
    ensures Passed(l, Claim(dir, 0))
  {
    var j: nat :| 0 <= j < l.pc && CreatesAt(l.program, j, key);
    hide CreatesAt;
    assert exists first :: 0 <= first <= j && CreatesAt(l.program, first, Claim(dir, 0));
  }

  /** Whoever created a claim or an output of a directory created its first claim. */
  lemma CreatorOwnsFirst(w: World, key: Key, dir: nat, index: nat)
    requires Inv(w) && (key == Claim(dir, index) || key == Output(dir, index))
    requires key in w.owner && w.owner[key].By?
    ensures Claim(dir, 0) in w.owner && w.owner[Claim(dir, 0)] == w.owner[key]
  {
    hide Passed, CreatesAt, FirstClaimFirst, CreatesOnce, FillsOwn, ChecksOutputs;
    var o := w.owner[key].id;
    assert Passed(w.launches[o], key) && LaunchInv(w, o);
    PassedEarlier(w.launches[o], key, dir, index);
    hide Inv, LaunchInv;
    PassedOwns(w, w, o, Claim(dir, 0));
  }

  lemma NextNotYetPassed(w: World, i: nat, key: Key)
    requires Inv(w) && CanAct(w, i) && Next(w, i) == Create(key)
    ensures !Passed(w.launches[i], key)
  {
    assert LaunchInv(w, i);
    assert CreatesAt(w.launches[i].program, w.launches[i].pc, key);
  }

  /** The names still to be created by the owner of the first claim are free. */
  lemma NextNameIsFree(w: World, i: nat, key: Key, dir: nat, index: nat)
    requires Inv(w) && CanAct(w, i) && Next(w, i) == Create(key)
    requires key == Claim(dir, index) || key == Output(dir, index)
    requires Claim(dir, 0) in w.owner && w.owner[Claim(dir, 0)] == By(i)
    ensures key !in w.files
  {
    if key in w.files {
      NextNotYetPassed(w, i, key);
      if w.owner[key].By? {
        CreatorOwnsFirst(w, key, dir, index);
      } else {
        assert key == Output(dir, index);
        CheckedNotStranger(w, i, dir, index);
      }
    }
  }

  lemma CheckedNotStranger(w: World, i: nat, dir: nat, index: nat)
    requires Inv(w) && CanAct(w, i) && Next(w, i) == Create(Output(dir, index))
    requires Output(dir, index) in w.owner
    ensures w.owner[Output(dir, index)] != Stranger
  {
    assert LaunchInv(w, i);
    assert CreatesAt(w.launches[i].program, w.launches[i].pc, Output(dir, index));
  }

  /** Once past the first claim, a launch whose next action works is never refused. */
  lemma HolderGoesOn(w: World, i: nat, p: Plan)
    requires Inv(w) && CanAct(w, i) && w.launches[i].program == Steps(p)
    requires w.launches[i].pc > Base(p) + 3
    ensures After(w, i, Fine).launches[i] == w.launches[i].(pc := w.launches[i].pc + 1)
  {
    var pc := w.launches[i].pc;
    StepsAt(p, pc);
    HolderOwns(w, i, p);
    if Next(w, i).Create? {
      assert CreatesAt(w.launches[i].program, pc, Next(w, i).key);
      StepsCreate(p, pc, Next(w, i).key);
      hide Inv, Steps;
      NextNameIsFree(w, i, Next(w, i).key, p.dir,
                     if pc < Reserved(p) then (pc - Base(p) - 3) / 2 else p.writes[pc - Tail(p)]);
    }
  }

  lemma HolderOwns(w: World, i: nat, p: Plan)
    requires Inv(w) && i < |w.launches| && w.launches[i].program == Steps(p)
    requires w.launches[i].pc > Base(p) + 3
    ensures Claim(p.dir, 0) in w.owner && w.owner[Claim(p.dir, 0)] == By(i)
  {
    assert LaunchInv(w, i);
    FirstClaimAt(p);
    hide WellMade, Steps;
  }

  /** Step `v` of the run is launch `i` failing. */
  ghost predicate FailsAt(ws: seq<World>, v: nat, i: nat)
    requires v + 1 < |ws|
  {
    exists content :: CanAct(ws[v], i) && ws[v + 1] == After(ws[v], i, Fails(content))
  }

  /**
   The launch that wins the first claim wins every claim and collides on no output: if it is
   ever found stopped, one of its own actions failed on the way.
   */
  lemma {:induction false} WinnerStopsOnlyByFailing(ws: seq<World>, t: nat, u: nat, i: nat,
                                                    p: Plan)
    requires Run(ws) && t <= u < |ws| && i < |ws[t].launches|
    requires ws[t].launches[i].program == Steps(p)
    requires ws[t].launches[i].running && ws[t].launches[i].pc > Base(p) + 3
    ensures i < |ws[u].launches|
    ensures !ws[u].launches[i].running ==> exists v :: t <= v < u && FailsAt(ws, v, i)
    decreases u - t
  {
    hide *;
    if t < u {
      WinnerStopsOnlyByFailing(ws, t, u - 1, i, p);
      WinnerLastStep(ws, t, u, i, p);
    }
  }

  lemma WinnerLastStep(ws: seq<World>, t: nat, u: nat, i: nat, p: Plan)
    requires Run(ws) && t < u < |ws| && i < |ws[t].launches|
    requires ws[t].launches[i].program == Steps(p)
    requires ws[t].launches[i].running && ws[t].launches[i].pc > Base(p) + 3
    ensures i < |ws[u - 1].launches| && i < |ws[u].launches|
    ensures ws[u - 1].launches[i].running && !ws[u].launches[i].running ==> FailsAt(ws, u - 1, i)
  {
    hide *;
    RunInv(ws, u - 1);
    RunGrowsAt(ws, t, u - 1, i);
    RunGrowsAt(ws, t, u, i);
    StepAt(ws, u - 1);
    if ws[u - 1].launches[i].running && !ws[u].launches[i].running {
      WinnerStep(ws[u - 1], ws[u], i, p);
      FailsNow(ws, u - 1, i);
    }
  }

  lemma StepAt(ws: seq<World>, t: nat)
    requires Run(ws) && t + 1 < |ws|
    ensures Step(ws[t], ws[t + 1])
  {
    hide Step;
  }

  lemma RunGrowsAt(ws: seq<World>, t: nat, u: nat, i: nat)
    requires Run(ws) && t <= u < |ws| && i < |ws[t].launches|
    ensures i < |ws[u].launches| && ws[u].launches[i].program == ws[t].launches[i].program
    ensures ws[t].launches[i].pc <= ws[u].launches[i].pc
  {
    RunGrows(ws, t, u);
  }

  ghost predicate FailedBetween(w: World, w': World, i: nat) {
    exists content :: CanAct(w, i) && w' == After(w, i, Fails(content))
  }

  lemma WinnerStep(w: World, w': World, i: nat, p: Plan)
    requires Inv(w) && Step(w, w') && i < |w.launches|
    requires w.launches[i].program == Steps(p)
    requires w.launches[i].running && w.launches[i].pc > Base(p) + 3
    ensures i < |w'.launches| && (w'.launches[i].running || FailedBetween(w, w', i))
  {
    hide Inv, Steps, Allowed, Next;
    if n, luck :| CanAct(w, n) && w' == After(w, n, luck) {
      if n == i && luck.Fine? {
        HolderGoesOn(w, i, p);
      }
    }
  }

  lemma FailsNow(ws: seq<World>, v: nat, i: nat)
    requires v + 1 < |ws| && FailedBetween(ws[v], ws[v + 1], i)
    ensures FailsAt(ws, v, i)
  {
    hide After, CanAct;
  }

  // ------------------------------------------------------------ the machine and the marker file

  /** A marker taken through the write and read loops is a create step and a fill step here. */
  lemma TakingIsTwoSteps(w: World, i: nat, after: Files, key: Key, bytes: string, t: Taking)
    requires CanAct(w, i) && Next(w, i) == Create(key)
    requires w.launches[i].pc + 1 < |w.launches[i].program|
    requires w.launches[i].program[w.launches[i].pc + 1] == Fill(key, bytes)
    requires Takes(w.files, after, key, bytes, t)
    ensures t.NameTaken? ==> After(w, i, Fine).files == after && !After(w, i, Fine).launches[i].running
    ensures t.NotCreated? ==> After(w, i, Fails("")).files == after
    ensures t.Held? ==> CanAct(After(w, i, Fine), i) && After(After(w, i, Fine), i, Fine).files == after
    ensures t.Spoiled? ==> (CanAct(After(w, i, Fine), i) &&
              exists content :: After(After(w, i, Fine), i, Fails(content)).files == after)
  {
    if t.Spoiled? {
      assert After(After(w, i, Fine), i, Fails(after[key])).files == after;
    }
  }
}
