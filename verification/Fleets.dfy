/**
 New guards on distinct cells over one budget, opened new or resumed: any guard
 may authorise, send, poll, settle, forfeit or cancel at any moment, and any call
 may be refused or fail inside its append.
 */
module Fleets {
  import opened Wrappers
  import opened Ledger
  import opened CellSums
  import opened Journal
  import opened Controller
  import opened Guards

  datatype Fleet = Fleet(mem: Memory, file: seq<byte>, guards: seq<Guard>)

  /** What a cell may do next; a missing count in `Resolve` forfeits. */
  datatype Act =
    | Authorize(ib: int)
    | Send(payload: Payload)
    | Poll(endpoint: string, request: Digest)
    | Resolve(input: Option<int>, output: Option<int>)
    | GiveBack

  predicate OverCeiling(g: Guard, ib: int) {
    g.tokenCap.Some? && g.reservedTokens + ib + g.maxOutput > g.tokenCap.value
  }

  /** The budget call behind an act, or none when the guard refuses on its own. */
  function CallOf(g: Guard, act: Act): Option<Call> {
    match act
    case Authorize(ib) =>
      if g.ticket.Some? || OverCeiling(g, ib) then None
      else Some(DoReserve(g.cell, ib, g.maxOutput, g.inRate, g.outRate, g.policy))
    case Send(payload) => Some(DoDispatch(g.cell, payload))
    case Poll(endpoint, request) => Some(DoRawRpc(g.cell, endpoint, request))
    case Resolve(input, output) => if g.ticket.None? then None else Some(DoSettle(g.ticket.value.id, input, output))
    case GiveBack => if g.ticket.None? then None else Some(DoCancel(g.ticket.value.id))
  }

  /** The guard after its own call went through. */
  function Followed(g: Guard, e: Event, rows: seq<Row>): Guard {
    if e.Genesis? || Find(rows, e.id) == |rows| then g else Follow(g, e, rows)
  }

  ghost predicate Answers(c: Codec, a: Authority, s: Fleet, s': Fleet, k: nat, call: Call, done: Outcome)
    requires k < |s.guards|
  {
    && Answered(c, a, s.mem, s.file, call, s'.mem, s'.file, done)
    && s'.guards == if done.Done? && Request(a, s.mem, call).Success?
                    then s.guards[k := Followed(s.guards[k], Request(a, s.mem, call).value, s'.mem.rows)]
                    else s.guards
  }

  ghost predicate Acts(c: Codec, a: Authority, s: Fleet, s': Fleet, k: nat, act: Act, done: Outcome) {
    && k < |s.guards|
    && match CallOf(s.guards[k], act)
       case None => s' == s
       case Some(call) => Answers(c, a, s, s', k, call, done)
  }

  ghost predicate New(g: Guard) {
    && g.ticket.None? && g.measured == 0 && g.forfeited == 0
    && g.outstanding == 0 && g.reserved == 0 && g.reservedTokens == 0
  }

  /** Memory in step with its journal, and new guards on cells that have no rows yet. */
  ghost predicate FleetInit(c: Codec, a: Authority, s: Fleet) {
    && InStep(c, a, s.mem, s.file)
    && DistinctCells(s.guards)
    && (forall k :: 0 <= k < |s.guards| ==> New(s.guards[k]))
    && forall i :: 0 <= i < |s.mem.rows| ==> !Owns(s.guards, s.mem.rows[i].cell)
  }

  ghost predicate FleetStep(c: Codec, a: Authority, s: Fleet, s': Fleet) {
    exists k: nat, act: Act, done: Outcome :: Acts(c, a, s, s', k, act, done)
  }

  ghost predicate FleetRun(c: Codec, a: Authority, ss: seq<Fleet>) {
    && ss != [] && FleetInit(c, a, ss[0])
    && forall t :: 0 <= t < |ss| - 1 ==> FleetStep(c, a, ss[t], ss[t + 1])
  }

  ghost predicate FleetInv(c: Codec, a: Authority, s: Fleet) {
    InStep(c, a, s.mem, s.file) && FleetTied(s.guards, s.mem.rows)
  }

  /** What rows of cells without a guard have resolved to. */
  ghost function OthersAmount(s: Fleet): nat {
    Sum(s.mem.rows, Elsewhere(s.guards, ResolvedAmount))
  }

  // ------------------------------------------------------------ every reachable state

  lemma InitHolds(c: Codec, a: Authority, s: Fleet)
    requires FleetInit(c, a, s)
    ensures FleetInv(c, a, s)
  {
    hide InStep, Tied;
    forall k | 0 <= k < |s.guards| ensures Tied(s.guards[k], s.mem.rows) {
      forall i | 0 <= i < |s.mem.rows| ensures s.mem.rows[i].cell != s.guards[k].cell {
        assert !Owns(s.guards, s.mem.rows[i].cell);
      }
      NewIsTied(s.guards[k], s.mem.rows);
    }
  }

  lemma NewIsTied(g: Guard, rows: seq<Row>)
    requires New(g) && forall i :: 0 <= i < |rows| ==> rows[i].cell != g.cell
    ensures Tied(g, rows)
  {
    SumZero(rows, Of(g.cell, SettledAmount));
    SumZero(rows, Of(g.cell, UnknownAmount));
    SumZero(rows, Of(g.cell, InitialAmount));
    SumZero(rows, Of(g.cell, LiveTokens));
  }

  /** A new journal is one place such guards can start from. */
  lemma NewJournalStarts(c: Codec, a: Authority, s: Fleet)
    requires Sound(c) && a.genesis.Genesis?
    requires s.mem == Memory([], 1, Some(c.sha(GenesisLine(c, a))), false, false) && s.file == GenesisLine(c, a)
    requires DistinctCells(s.guards) && forall k :: 0 <= k < |s.guards| ==> New(s.guards[k])
    ensures FleetInit(c, a, s)
  {
    GenesisWrite(c, a, |s.file|);
    assert s.file[..|s.file|] == s.file;
    assert Exposure([]) == 0;
  }

  /** So is any journal in step with memory, with new guards on cells that have no rows in it. */
  lemma FreeCellsStart(c: Codec, a: Authority, s: Fleet)
    requires InStep(c, a, s.mem, s.file) && forall k :: 0 <= k < |s.guards| ==> New(s.guards[k])
    ensures FleetRun(c, a, [s])
       <==> && (forall j, k :: 0 <= j < k < |s.guards| ==> s.guards[j].cell != s.guards[k].cell)
            && forall i, k :: 0 <= i < |s.mem.rows| && 0 <= k < |s.guards| ==> s.mem.rows[i].cell != s.guards[k].cell
  {
    hide InStep;
    var rows, gs := s.mem.rows, s.guards;
    if forall i, k :: 0 <= i < |rows| && 0 <= k < |gs| ==> rows[i].cell != gs[k].cell {
      forall i | 0 <= i < |rows| ensures !Owns(gs, rows[i].cell) {
      }
    }
    if forall i :: 0 <= i < |rows| ==> !Owns(gs, rows[i].cell) {
      forall i, k | 0 <= i < |rows| && 0 <= k < |gs| ensures rows[i].cell != gs[k].cell {
        assert !Owns(gs, rows[i].cell);
      }
    }
  }

  /** The event behind a guard's call is its own cell's, at its own terms. */
  lemma OwnEvent(c: Codec, a: Authority, m: Memory, b: seq<byte>, g: Guard, act: Act,
                 m': Memory, b': seq<byte>)
    requires InStep(c, a, m, b) && Tied(g, m.rows) && CallOf(g, act).Some?
    requires Answered(c, a, m, b, CallOf(g, act).value, m', b', Done)
    ensures Request(a, m, CallOf(g, act).value).Success?
    ensures var e := Request(a, m, CallOf(g, act).value).value;
            && EventOf(a.lim, m.rows, e, g.cell)
            && m'.rows == Reduce(a.lim, m.rows, e).value
            && (e.Reserve? ==> e.inRate == g.inRate && e.outRate == g.outRate && e.ob == g.maxOutput)
  {
    MemoryValid(c, a, m, b);
    DoneMeansReduced(c, a, m, b, CallOf(g, act).value, m', b');
    var e := Request(a, m, CallOf(g, act).value).value;
    EventCell(a.lim, m.rows, e);
    hide InStep, Valid, Matching, Reduce, Fired;
    if !act.Authorize? {
      CalledRow(a, m, g, act);
    }
  }

  /** A guard's call other than an authorisation names a row of its cell. */
  lemma CalledRow(a: Authority, m: Memory, g: Guard, act: Act)
    requires Tied(g, m.rows) && DistinctIds(m.rows) && CallOf(g, act).Some?
    requires Request(a, m, CallOf(g, act).value).Success? && !act.Authorize?
    ensures var e := Request(a, m, CallOf(g, act).value).value;
            !e.Genesis? && !e.Reserve? && Find(m.rows, e.id) < |m.rows| && m.rows[Find(m.rows, e.id)].cell == g.cell
  {
    if act.Send? {
      FindUnique(m.rows, Matching(m.rows, g.cell, Reserved)[0]);
    } else if act.Poll? {
      FindUnique(m.rows, Matching(m.rows, g.cell, Sent)[0]);
    }
    hide SameTerms, TotalsTied, Matching;
  }

  lemma StepKeepsFleet(c: Codec, a: Authority, s: Fleet, s': Fleet)
    requires Sound(c) && FleetInv(c, a, s) && FleetStep(c, a, s, s')
    ensures FleetInv(c, a, s') && OthersAmount(s') == OthersAmount(s)
  {
    hide FleetInv, Answers, CallOf, OthersAmount;
    var k: nat, act: Act, done: Outcome :| Acts(c, a, s, s', k, act, done);
    if CallOf(s.guards[k], act).Some? {
      AnswerKeepsFleet(c, a, s, s', k, act, done);
    }
  }

  lemma AnswerKeepsFleet(c: Codec, a: Authority, s: Fleet, s': Fleet, k: nat, act: Act, done: Outcome)
    requires Sound(c) && FleetInv(c, a, s) && k < |s.guards| && CallOf(s.guards[k], act).Some?
    requires Answers(c, a, s, s', k, CallOf(s.guards[k], act).value, done)
    ensures FleetInv(c, a, s') && OthersAmount(s') == OthersAmount(s)
  {
    var g, call := s.guards[k], CallOf(s.guards[k], act).value;
    AnsweredStaysInStep(c, a, s.mem, s.file, call, s'.mem, s'.file, done);
    hide InStep, CallOf, Followed;
    if done.Done? {
      OwnEvent(c, a, s.mem, s.file, g, act, s'.mem, s'.file);
      hide Answered, Tied, Request, Elsewhere, Sum;
      FleetMoves(a.lim, s.guards, s.mem.rows, Request(a, s.mem, call).value, k);
    } else {
      NotDoneKeepsRows(c, a, s.mem, s.file, call, s'.mem, s'.file, done);
    }
  }

  /** One event of a guard's cell: every guard tied as before, and other cells' amounts unmoved. */
  lemma FleetMoves(lim: Limits, gs: seq<Guard>, rows: seq<Row>, e: Event, k: nat)
    requires k < |gs| && EventOf(lim, rows, e, gs[k].cell) && FleetTied(gs, rows)
    requires e.Reserve? ==> e.inRate == gs[k].inRate && e.outRate == gs[k].outRate && e.ob == gs[k].maxOutput
    ensures var next := Reduce(lim, rows, e).value;
            var gs' := gs[k := Followed(gs[k], e, next)];
            && FleetTied(gs', next)
            && Sum(next, Elsewhere(gs', ResolvedAmount)) == Sum(rows, Elsewhere(gs, ResolvedAmount))
  {
    var next := Reduce(lim, rows, e).value;
    FleetFollows(lim, gs, rows, e, k);
    ElsewhereStands(lim, gs, rows, e, k, ResolvedAmount);
    hide Reduce, Valid, Tied, Elsewhere, Sum, Find;
    SameCellsElsewhere(gs, gs[k := Followed(gs[k], e, next)], next, ResolvedAmount);
  }

  lemma AnsweredStaysInStep(c: Codec, a: Authority, m: Memory, b: seq<byte>, call: Call,
                            m': Memory, b': seq<byte>, done: Outcome)
    requires Sound(c) && InStep(c, a, m, b) && Answered(c, a, m, b, call, m', b', done)
    ensures InStep(c, a, m', b')
  {
    hide InStep, Fired, Sound;
    if Request(a, m, call).Success? {
      FiredStaysInStep(c, a, m, b, Request(a, m, call).value, m', b', done);
    }
  }

  /** In every state of every run the guards' totals mean what they say, and other cells' amounts stand still. */
  lemma {:induction false} RunTied(c: Codec, a: Authority, ss: seq<Fleet>, t: nat)
    requires Sound(c) && FleetRun(c, a, ss) && t < |ss|
    ensures FleetInv(c, a, ss[t]) && OthersAmount(ss[t]) == OthersAmount(ss[0])
  {
    hide FleetInv, FleetInit, FleetStep, OthersAmount;
    if t == 0 {
      InitHolds(c, a, ss[0]);
    } else {
      RunTied(c, a, ss, t - 1);
      assert FleetStep(c, a, ss[t - 1], ss[t - 1 + 1]);
      hide FleetRun;
      StepKeepsFleet(c, a, ss[t - 1], ss[t]);
    }
  }

  /**
   In every state of every run the guards' totals, what other cells had resolved at the start,
   and the open bounds make up the shared exposure, which is within the cap.
   */
  lemma RunConserves(c: Codec, a: Authority, ss: seq<Fleet>, t: nat)
    requires Sound(c) && FleetRun(c, a, ss) && t < |ss|
    ensures Resolved(ss[t].guards) + OthersAmount(ss[0]) + Sum(ss[t].mem.rows, OpenAmount) == Exposure(ss[t].mem.rows)
    ensures a.lim.cap.Some? ==> Exposure(ss[t].mem.rows) <= a.lim.cap.value
  {
    RunTied(c, a, ss, t);
    MemoryValid(c, a, ss[t].mem, ss[t].file);
    hide FleetRun, InStep, FleetTied, Elsewhere;
    GuardsAddUpToExposure(ss[t].guards, ss[t].mem.rows);
  }

  /** In no state of any run does the derived ceiling refuse one of a cell's first hundred authorisations. */
  lemma RunNeverMeetsCeiling(c: Codec, a: Authority, ss: seq<Fleet>, t: nat, k: nat, ib: int)
    requires Sound(c) && FleetRun(c, a, ss) && t < |ss| && k < |ss[t].guards|
    requires var g := ss[t].guards[k];
             && g.inRate > 0 && g.outRate > 0 && a.lim.cap.Some?
             && g.tokenCap == Some(TokenCeiling(a.lim.cap.value, g.inRate, g.outRate))
             && Sum(ss[t].mem.rows, Of(g.cell, One)) < MAX_DECISIONS
    requires var g, m := ss[t].guards[k], ss[t].mem;
             var call := DoReserve(g.cell, ib, g.maxOutput, g.inRate, g.outRate, g.policy);
             Reduce(a.lim, m.rows, Request(a, m, call).value).Success?
    ensures !OverCeiling(ss[t].guards[k], ib)
    ensures CallOf(ss[t].guards[k], Authorize(ib)).Some?
  {
    RunTied(c, a, ss, t);
    var g, m := ss[t].guards[k], ss[t].mem;
    MemoryValid(c, a, m, ss[t].file);
    var e := Request(a, m, DoReserve(g.cell, ib, g.maxOutput, g.inRate, g.outRate, g.policy)).value;
    assert Tied(g, m.rows);
    hide FleetRun, InStep, Valid, TotalsTied, SameTerms;
    CeilingNeverRefuses(a.lim, g, m.rows, e);
    AdmittedIsIdle(a.lim, m.rows, e);
  }

  /** Calls a guard may make: at its own terms under its ceiling, on its own cell, on its own ticket. */
  predicate MayCall(g: Guard, call: Call) {
    match call
    case DoReserve(cell, ib, ob, inRate, outRate, policy) =>
      && cell == g.cell && ob == g.maxOutput && inRate == g.inRate && outRate == g.outRate && policy == g.policy
      && g.ticket == None && (g.tokenCap.Some? ==> g.reservedTokens + ib + g.maxOutput <= g.tokenCap.value)
    case DoDispatch(cell, _) => cell == g.cell
    case DoRawRpc(cell, _, _) => cell == g.cell
    case DoSettle(id, _, _) => g.ticket.Some? && id == g.ticket.value.id
    case DoCancel(id) => g.ticket.Some? && id == g.ticket.value.id
    case DoForfeit(_) => false
  }

  function ActOf(call: Call): Act
    requires !call.DoForfeit?
  {
    match call
    case DoReserve(_, ib, _, _, _, _) => Authorize(ib)
    case DoDispatch(_, payload) => Send(payload)
    case DoRawRpc(_, endpoint, request) => Poll(endpoint, request)
    case DoSettle(_, input, output) => Resolve(input, output)
    case DoCancel(_) => GiveBack
  }

  /** Whatever such a call may come to, some run has it come to that, with every other guard as it was. */
  lemma CallsExtendRuns(c: Codec, a: Authority, ss: seq<Fleet>, k: nat, call: Call, mem: Memory, b: seq<byte>,
                        done: Outcome) returns (s': Fleet)
    requires FleetRun(c, a, ss) && k < |ss[|ss| - 1].guards| && MayCall(ss[|ss| - 1].guards[k], call)
    requires Answered(c, a, ss[|ss| - 1].mem, ss[|ss| - 1].file, call, mem, b, done)
    ensures FleetRun(c, a, ss + [s']) && s'.mem == mem && s'.file == b
    ensures |s'.guards| == |ss[|ss| - 1].guards|
    ensures forall n :: 0 <= n < |s'.guards| && n != k ==> s'.guards[n] == ss[|ss| - 1].guards[n]
  {
    var s := ss[|ss| - 1];
    assert CallOf(s.guards[k], ActOf(call)) == Some(call);
    hide FleetInit, Answered, CallOf, Followed, Request;
    s' := Fleet(mem, b, if done.Done? && Request(a, s.mem, call).Success?
                        then s.guards[k := Followed(s.guards[k], Request(a, s.mem, call).value, mem.rows)]
                        else s.guards);
    assert Acts(c, a, s, s', k, ActOf(call), done);
    hide Acts;
    var longer := ss + [s'];
    forall t | 0 <= t < |longer| - 1 ensures FleetStep(c, a, longer[t], longer[t + 1]) {
      if t < |ss| - 1 { assert FleetStep(c, a, ss[t], ss[t + 1]); }
    }
  }

  lemma AdmittedIsIdle(lim: Limits, rows: seq<Row>, e: Event)
    requires e.Reserve? && Reduce(lim, rows, e).Success?
    ensures !Busy(rows, e.cell)
  {
  }
}
