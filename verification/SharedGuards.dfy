/** The guard object of one cell, over the budget it shares with the others. */
module SharedGuards {
  import opened Wrappers
  import opened Ledger
  import opened CellSums
  import opened Journal
  import opened Controller
  import opened Budgets
  import opened Guards

  datatype GuardDenial =
    | CellPending
    | TokenCeilingExhausted
    | NotCurrentReservation
    | CancelBoundMismatch
    | ReservationBreached
    | FromBudget(why: Denial)

  /** What a guard's answer says about the budget call under it. */
  function BudgetOutcome<T>(r: Result<T, GuardDenial>): Outcome {
    match r
    case Success(_) => Done
    case Failure(FromBudget(why)) => NotDone(why)
    case Failure(_) => NotDone(Frozen)
  }

  /** The shared rows moved by one event of this cell. */
  ghost predicate MovedBy(lim: Limits, rows: seq<Row>, e: Event, cell: Cell, next: seq<Row>) {
    EventOf(lim, rows, e, cell) && next == Reduce(lim, rows, e).value
  }

  /** The event a settlement settles by: the usage, or a forfeit when a count is missing. */
  function SettlementEvent(id: Id, input: Option<int>, output: Option<int>): Event {
    if input.None? || output.None? then Forfeit(id) else Settle(id, input.value, output.value)
  }

  /** An open controller would refuse this usage as over the admitted bounds. */
  predicate OverBounds(lim: Limits, m: Memory, id: Id, input: Option<int>, output: Option<int>) {
    && input.Some? && output.Some? && !m.broken && !m.closed
    && Reduce(lim, m.rows, Ledger.Settle(id, input.value, output.value)) == Failure(UsageExceedsBounds)
  }

  /** An event fired for this guard's cell: followed when it succeeded, nothing moved when it did not. */
  lemma GuardFires(c: Codec, a: Authority, m: Memory, b: seq<byte>, e: Event,
                   m': Memory, b': seq<byte>, done: Outcome, g: Guard)
    requires InStep(c, a, m, b) && Fired(c, a, m, b, e, m', b', done) && Tied(g, m.rows)
    requires if e.Reserve?
             then e.cell == g.cell && e.inRate == g.inRate && e.outRate == g.outRate && e.ob == g.maxOutput
             else g.ticket.Some? && !e.Genesis? && e.id == g.ticket.value.id
    ensures done.Done? ==>
              && MovedBy(a.lim, m.rows, e, g.cell, m'.rows)
              && Tied(Follow(g, e, m'.rows), m'.rows)
    ensures done.NotDone? ==> m'.rows == m.rows
  {
    if done.Done? {
      EventCell(a.lim, m.rows, e);
      OwnCellKeepsTied(a.lim, g, m.rows, e);
    }
  }

  /** What an accepted reservation's row says. */
  lemma ReservedRow(lim: Limits, rows: seq<Row>, e: Event, cell: Cell, next: seq<Row>)
    requires MovedBy(lim, rows, e, cell, next) && e.Reserve?
    ensures Find(next, e.id) < |next|
    ensures var r := next[Find(next, e.id)];
            && r.id == e.id && r.initialIb == e.ib && r.ob == e.ob
            && r.bound == e.ib * e.inRate + e.ob * e.outRate
  {
    ReservedTerms(lim, rows, e);
  }

  function UsagePrice(inRate: nat, outRate: nat, input: int, output: int): int {
    input * inRate + output * outRate
  }

  /** A settled row of a guard's cell holds the price of its usage at the guard's rates. */
  lemma SettlementPrice(lim: Limits, g: Guard, rows: seq<Row>, e: Event, next: seq<Row>)
    requires MovedBy(lim, rows, e, g.cell, next) && e.Settle? && Tied(g, rows)
    ensures Find(next, e.id) < |next| && next[Find(next, e.id)].state.Settled?
    ensures next[Find(next, e.id)].state.actual == UsagePrice(g.inRate, g.outRate, e.input, e.output)
  {
    SettledRow(lim, rows, e);
    hide Reduce, Valid, TotalsTied, TicketTied, Find;
    var r := rows[Find(rows, e.id)];
    assert r.inRate == g.inRate && r.outRate == g.outRate;
  }

  /** An accepted settlement leaves its row settled at its own rates. */
  lemma SettledRow(lim: Limits, rows: seq<Row>, e: Event)
    requires Valid(lim, rows) && e.Settle? && Reduce(lim, rows, e).Success?
    ensures var i, next := Find(rows, e.id), Reduce(lim, rows, e).value;
            && Find(next, e.id) == i < |rows| == |next| && next[i].cell == rows[i].cell
            && next[i].state.Settled?
            && next[i].state.actual == UsagePrice(rows[i].inRate, rows[i].outRate, e.input, e.output)
  {
    hide Valid, Reduce, Change, UsagePrice, Price;
    EventRow(lim, rows, e);
    ChangeInPlace(lim, rows, e, Reduce(lim, rows, e).value);
    SettledChange(rows[Find(rows, e.id)], e);
  }

  lemma SettledChange(r: Row, e: Event)
    requires e.Settle? && Change(r, e).Success?
    ensures Change(r, e).value ==
              r.(state := Settled(Price(r.inRate, r.outRate, e.input, e.output)))
    ensures Change(r, e).value.state.actual == UsagePrice(r.inRate, r.outRate, e.input, e.output)
  {
    PriceIsLinear(r.inRate, r.outRate, e.input, e.output);
  }

  /** A settlement is refused for its usage exactly when an open controller finds it over the bounds; nothing moves. */
  lemma SettlementAnswer(c: Codec, a: Authority, m: Memory, b: seq<byte>,
                         id: Id, input: Option<int>, output: Option<int>,
                         m': Memory, b': seq<byte>, done: Outcome)
    requires InStep(c, a, m, b) && Answered(c, a, m, b, DoSettle(id, input, output), m', b', done)
    ensures OverBounds(a.lim, m, id, input, output) <==> done == NotDone(Denied(UsageExceedsBounds))
    ensures done == NotDone(Denied(UsageExceedsBounds)) ==> m' == m && b' == b
    ensures done != NotDone(Denied(OverSettlement))
  {
    MemoryValid(c, a, m, b);
    hide InStep, Valid;
    if input.Some? && output.Some? {
      ReleaseNeverMeetsCap(a.lim, m.rows, Ledger.Settle(id, input.value, output.value));
    } else {
      ReleaseNeverMeetsCap(a.lim, m.rows, Forfeit(id));
      ForfeitHasNoBounds(a.lim, m.rows, id);
    }
    hide Reduce;
  }

  lemma ForfeitHasNoBounds(lim: Limits, rows: seq<Row>, id: Id)
    ensures Reduce(lim, rows, Forfeit(id)) != Failure(UsageExceedsBounds)
  {
  }

  /** Settling without usage is forfeiting. */
  lemma ForfeitIsSettle(c: Codec, a: Authority, m: Memory, b: seq<byte>, id: Id,
                        m': Memory, b': seq<byte>, done: Outcome)
    ensures Answered(c, a, m, b, DoSettle(id, None, None), m', b', done)
       <==> Answered(c, a, m, b, DoForfeit(id), m', b', done)
  {
    hide Fired;
  }

  /** What a cancellation gives back. */
  lemma FollowsCancel(lim: Limits, g: Guard, rows: seq<Row>, e: Event, next: seq<Row>)
    requires MovedBy(lim, rows, e, g.cell, next) && e.Cancel? && Tied(g, rows)
    requires g.ticket.Some? && e.id == g.ticket.value.id
    ensures Find(next, e.id) < |next|
    ensures Follow(g, e, next) == g.(ticket := None, outstanding := 0,
                                     reservedTokens := g.reservedTokens - (g.ticket.value.bound + g.maxOutput))
  {
    RowEffect(lim, rows, e);
    EventRow(lim, rows, e);
  }

  /** What a reservation of the guard's cell leaves: the follow of its event, or nothing moved. */
  lemma GuardReserves(c: Codec, a: Authority, m: Memory, b: seq<byte>, ib: int,
                      m': Memory, b': seq<byte>, done: Outcome, g: Guard)
    requires InStep(c, a, m, b) && Tied(g, m.rows)
    requires Answered(c, a, m, b, DoReserve(g.cell, ib, g.maxOutput, g.inRate, g.outRate, g.policy), m', b', done)
    ensures var e := Ledger.Reserve(History.Ident(a.ns, m.pos), g.cell, ib, g.maxOutput, g.inRate, g.outRate, g.policy);
            && (done.Done? ==>
                  && MovedBy(a.lim, m.rows, e, g.cell, m'.rows)
                  && Tied(Follow(g, e, m'.rows), m'.rows)
                  && Find(m'.rows, e.id) < |m'.rows|
                  && var r := m'.rows[Find(m'.rows, e.id)];
                     && r.id == e.id && r.initialIb == ib && r.ob == g.maxOutput
                     && r.bound == ib * g.inRate + g.maxOutput * g.outRate)
            && (done.NotDone? ==> m'.rows == m.rows)
  {
    var e := Ledger.Reserve(History.Ident(a.ns, m.pos), g.cell, ib, g.maxOutput, g.inRate, g.outRate, g.policy);
    hide InStep, Fired, Tied, MovedBy, Follow;
    GuardFires(c, a, m, b, e, m', b', done, g);
    if done.Done? {
      ReservedRow(a.lim, m.rows, e, g.cell, m'.rows);
    }
  }

  lemma GuardCancels(c: Codec, a: Authority, m: Memory, b: seq<byte>, id: Id,
                     m': Memory, b': seq<byte>, done: Outcome, g: Guard)
    requires InStep(c, a, m, b) && Answered(c, a, m, b, DoCancel(id), m', b', done)
    requires Tied(g, m.rows) && g.ticket.Some? && g.ticket.value.id == id
    ensures done.Done? ==>
              && MovedBy(a.lim, m.rows, Cancel(id, CANCEL_PROOF), g.cell, m'.rows)
              && Tied(g.(ticket := None, outstanding := 0,
                         reservedTokens := g.reservedTokens - (g.ticket.value.bound + g.maxOutput)), m'.rows)
    ensures done.NotDone? ==> m'.rows == m.rows
  {
    var e := Cancel(id, CANCEL_PROOF);
    GuardFires(c, a, m, b, e, m', b', done, g);
    if done.Done? {
      FollowsCancel(a.lim, g, m.rows, e, m'.rows);
    }
  }

  lemma GuardSettles(c: Codec, a: Authority, m: Memory, b: seq<byte>, id: Id, input: Option<int>, output: Option<int>,
                     m': Memory, b': seq<byte>, done: Outcome, g: Guard)
    requires InStep(c, a, m, b) && Answered(c, a, m, b, DoSettle(id, input, output), m', b', done)
    requires Tied(g, m.rows) && g.ticket.Some? && g.ticket.value.id == id
    ensures var e := SettlementEvent(id, input, output);
            && (done.Done? ==>
                  && MovedBy(a.lim, m.rows, e, g.cell, m'.rows)
                  && Find(m'.rows, id) < |m'.rows|
                  && Tied(Follow(g, e, m'.rows), m'.rows))
            && (done.NotDone? ==> m'.rows == m.rows)
  {
    GuardFires(c, a, m, b, SettlementEvent(id, input, output), m', b', done, g);
  }

  class SharedGuard {
    const budget: Budget
    const cell: Cell
    const inRate: nat
    const outRate: nat
    const policy: Digest
    const maxOutput: int
    const tokenCap: Option<int>
    var ticket: Option<Ticket>
    var measured: nat
    var forfeited: nat
    var outstanding: nat
    var reserved: nat
    var reservedTokens: int

    ghost function State(): Guard
      reads this
    {
      Guard(cell, inRate, outRate, policy, maxOutput, tokenCap,
            ticket, measured, forfeited, outstanding, reserved, reservedTokens)
    }

    /** The budget is in step with its journal and this guard's totals mean what they say. */
    ghost predicate Ready()
      reads this, budget, budget.file
    {
      budget.Ready() && Tied(State(), budget.records)
    }

    constructor (budget: Budget, cell: Cell, inRate: nat, outRate: nat, policy: Digest,
                 maxOutput: int, tokenCap: Option<int>)
      ensures this.budget == budget
      ensures State() == Guard(cell, inRate, outRate, policy, maxOutput, tokenCap, None, 0, 0, 0, 0, 0)
      ensures budget.Ready() && (forall i :: 0 <= i < |budget.records| ==> budget.records[i].cell != cell) ==> Ready()
    {
      this.budget, this.cell, this.inRate, this.outRate := budget, cell, inRate, outRate;
      this.policy, this.maxOutput, this.tokenCap := policy, maxOutput, tokenCap;
      ticket, measured, forfeited, outstanding, reserved, reservedTokens := None, 0, 0, 0, 0, 0;
      new;
      if forall i :: 0 <= i < |budget.records| ==> budget.records[i].cell != cell {
        SumZero(budget.records, Of(cell, SettledAmount));
        SumZero(budget.records, Of(cell, UnknownAmount));
        SumZero(budget.records, Of(cell, InitialAmount));
        SumZero(budget.records, Of(cell, LiveTokens));
      }
    }

    method Authorize(ib: int) returns (r: Result<nat, GuardDenial>)
      requires Ready()
      modifies this, budget, budget.file
      ensures Ready()
      ensures budget.file.Explains(old(budget.file.faults), BudgetOutcome(r))
      ensures budget.Steady(old(budget.Mem()), old(budget.file.faults))
      ensures r == Failure(CellPending) <==> old(ticket).Some?
      ensures r == Failure(TokenCeilingExhausted) <==>
                old(ticket).None? && tokenCap.Some? && old(reservedTokens) + ib + maxOutput > tokenCap.value
      ensures old(ticket).None? && (tokenCap.Some? ==> old(reservedTokens) + ib + maxOutput <= tokenCap.value) ==>
                && (r.Failure? ==> r.error.FromBudget?)
                && Answered(budget.codec, budget.authority, old(budget.Mem()), old(budget.file.bytes),
                            DoReserve(cell, ib, maxOutput, inRate, outRate, policy),
                            budget.Mem(), budget.file.bytes, BudgetOutcome(r))
      ensures r == Failure(CellPending) || r == Failure(TokenCeilingExhausted) ==>
                budget.Mem() == old(budget.Mem()) && budget.file.bytes == old(budget.file.bytes)
      ensures r.Failure? ==> State() == old(State()) && budget.records == old(budget.records)
      ensures r.Success? ==>
                && ticket.Some? && r.value == ticket.value.amount == ib * inRate + maxOutput * outRate
                && measured == old(measured) && forfeited == old(forfeited) && outstanding == r.value
                && reserved == old(reserved) + r.value
                && reservedTokens == old(reservedTokens) + ib + maxOutput
                && MovedBy(budget.authority.lim, old(budget.records),
                           Ledger.Reserve(ticket.value.id, cell, ib, maxOutput, inRate, outRate, policy),
                           cell, budget.records)
    {
      hide InStep, Sound, Answered, Tied, MovedBy;
      if ticket.Some? {
        return Failure(CellPending);
      }
      if tokenCap.Some? && reservedTokens + (ib + maxOutput) > tokenCap.value {
        return Failure(TokenCeilingExhausted);
      }
      ghost var g := State();
      var answer := budget.Reserve(cell, ib, maxOutput, inRate, outRate, policy);
      ghost var e := Ledger.Reserve(History.Ident(budget.authority.ns, old(budget.pos)),
                                    cell, ib, maxOutput, inRate, outRate, policy);
      GuardReserves(budget.codec, budget.authority, old(budget.Mem()), old(budget.file.bytes), ib,
                    budget.Mem(), budget.file.bytes, if answer.Success? then Done else NotDone(answer.error), g);
      if answer.Failure? {
        return Failure(FromBudget(answer.error));
      }
      var amount := budget.records[Find(budget.records, answer.value)].bound;
      ticket := Some(Ticket(answer.value, amount, ib));
      outstanding := amount;
      reserved := reserved + amount;
      reservedTokens := reservedTokens + ib + maxOutput;
      assert State() == Follow(g, e, budget.records);
      r := Success(amount);
    }

    /** One event of the current ticket's row, and what it leaves this guard to account for. */
    method SettleWith(input: Option<int>, output: Option<int>) returns (r: Result<Option<nat>, Denial>)
      requires Ready() && ticket.Some?
      modifies this, budget, budget.file
      ensures Ready()
      ensures budget.file.Explains(old(budget.file.faults), if r.Success? then Done else NotDone(r.error))
      ensures budget.Steady(old(budget.Mem()), old(budget.file.faults))
      ensures r.Failure? ==>
                && State() == old(State()) && budget.records == old(budget.records)
                && Answered(budget.codec, budget.authority, old(budget.Mem()), old(budget.file.bytes),
                            DoSettle(old(ticket).value.id, input, output),
                            budget.Mem(), budget.file.bytes, NotDone(r.error))
      ensures r.Success? ==>
                var e := SettlementEvent(old(ticket).value.id, input, output);
                && MovedBy(budget.authority.lim, old(budget.records), e, cell, budget.records)
                && State() == Follow(old(State()), e, budget.records)
                && ticket == None
                && (e.Forfeit? ==> r.value == None)
                && (e.Settle? ==> r.value.Some? && r.value.value == UsagePrice(inRate, outRate, e.input, e.output))
                && (e.Settle? ==> measured == old(measured) + r.value.value)
                && Answered(budget.codec, budget.authority, old(budget.Mem()), old(budget.file.bytes),
                            DoSettle(old(ticket).value.id, input, output), budget.Mem(), budget.file.bytes, Done)
    {
      hide InStep, Sound, Answered, Tied, MovedBy, UsagePrice;
      var id := ticket.value.id;
      ghost var g := State();
      ghost var e := SettlementEvent(id, input, output);
      var answer := budget.Settle(id, input, output);
      ghost var done: Outcome := if answer.Success? then Done else NotDone(answer.error);
      GuardSettles(budget.codec, budget.authority, old(budget.Mem()), old(budget.file.bytes), id, input, output,
                   budget.Mem(), budget.file.bytes, done, g);
      if answer.Failure? {
        return Failure(answer.error);
      }
      if answer.value.None? {
        forfeited := forfeited + budget.records[Find(budget.records, id)].bound;
      } else {
        SettlementPrice(budget.authority.lim, g, old(budget.records), e, budget.records);
        measured := measured + answer.value.value;
      }
      outstanding := 0;
      ticket := None;
      assert State() == Follow(g, e, budget.records);
      r := answer;
    }

    /**
     Settles at the reported usage. Usage over the admitted bounds is refused by
     the budget; the guard then forfeits the whole wire bound and reports the breach.
     */
    method Settle(handle: Id, input: Option<int>, output: Option<int>) returns (r: Result<Option<nat>, GuardDenial>)
      requires Ready()
      modifies this, budget, budget.file
      ensures Ready()
      ensures budget.file.Explains(old(budget.file.faults),
                                   if r == Failure(ReservationBreached) then Done else BudgetOutcome(r))
      ensures budget.Steady(old(budget.Mem()), old(budget.file.faults))
      ensures r == Failure(NotCurrentReservation) <==> old(ticket).None? || old(ticket).value.id != handle
      ensures r.Success? ==>
                var e := SettlementEvent(handle, input, output);
                && MovedBy(budget.authority.lim, old(budget.records), e, cell, budget.records)
                && State() == Follow(old(State()), e, budget.records)
                && (r.value.Some? <==> e.Settle?)
                && (e.Settle? ==> r.value.value == UsagePrice(inRate, outRate, e.input, e.output)
                                  && measured == old(measured) + r.value.value)
      ensures r == Failure(ReservationBreached) ==>
                && input.Some? && output.Some?
                && Reduce(budget.authority.lim, old(budget.records), Ledger.Settle(handle, input.value, output.value))
                     == Failure(UsageExceedsBounds)
                && MovedBy(budget.authority.lim, old(budget.records), Forfeit(handle), cell, budget.records)
                && State() == Follow(old(State()), Forfeit(handle), budget.records)
      ensures r.Failure? && r != Failure(ReservationBreached) ==>
                State() == old(State()) && budget.records == old(budget.records)
      ensures old(ticket).Some? && old(ticket).value.id == handle ==>
                && (r.Failure? ==> r.error.FromBudget? || r.error.ReservationBreached?)
                && Answered(budget.codec, budget.authority, old(budget.Mem()), old(budget.file.bytes),
                            if OverBounds(budget.authority.lim, old(budget.Mem()), handle, input, output)
                            then DoForfeit(handle) else DoSettle(handle, input, output),
                            budget.Mem(), budget.file.bytes,
                            if r == Failure(ReservationBreached) then Done else BudgetOutcome(r))
                && (OverBounds(budget.authority.lim, old(budget.Mem()), handle, input, output) ==> r.Failure?)
    {
      hide InStep, Sound, Answered, Tied, MovedBy, Follow, Reduce, UsagePrice;
      if ticket.None? || ticket.value.id != handle {
        return Failure(NotCurrentReservation);
      }
      var answer := SettleWith(input, output);
      SettlementAnswer(budget.codec, budget.authority, old(budget.Mem()), old(budget.file.bytes), handle, input, output,
                       budget.Mem(), budget.file.bytes, if answer.Success? then Done else NotDone(answer.error));
      if answer.Success? {
        return Success(answer.value);
      }
      if answer.error == Denied(UsageExceedsBounds) || answer.error == Denied(OverSettlement) {
        var forfeit := SettleWith(None, None);
        ForfeitIsSettle(budget.codec, budget.authority, old(budget.Mem()), old(budget.file.bytes), handle,
                        budget.Mem(), budget.file.bytes,
                        if forfeit.Success? then Done else NotDone(forfeit.error));
        if forfeit.Failure? {
          return Failure(FromBudget(forfeit.error));
        }
        return Failure(ReservationBreached);
      }
      r := Failure(FromBudget(answer.error));
    }

    method Cancel(handle: Id, ib: int) returns (r: Result<(), GuardDenial>)
      requires Ready()
      modifies this, budget, budget.file
      ensures Ready()
      ensures budget.file.Explains(old(budget.file.faults), BudgetOutcome(r))
      ensures budget.Steady(old(budget.Mem()), old(budget.file.faults))
      ensures r == Failure(NotCurrentReservation) <==> old(ticket).None? || old(ticket).value.id != handle
      ensures r == Failure(CancelBoundMismatch) <==>
                old(ticket).Some? && old(ticket).value.id == handle && old(ticket).value.bound != ib
      ensures old(ticket).Some? && old(ticket).value.id == handle && old(ticket).value.bound == ib ==>
                && (r.Failure? ==> r.error.FromBudget?)
                && Answered(budget.codec, budget.authority, old(budget.Mem()), old(budget.file.bytes),
                            DoCancel(handle), budget.Mem(), budget.file.bytes, BudgetOutcome(r))
      ensures r.Success? ==>
                && old(ticket).Some? && old(ticket).value.id == handle && old(ticket).value.bound == ib
                && MovedBy(budget.authority.lim, old(budget.records), Ledger.Cancel(handle, CANCEL_PROOF),
                           cell, budget.records)
                && State() == old(State()).(ticket := None, outstanding := 0,
                                            reservedTokens := old(reservedTokens) - (ib + maxOutput))
      ensures r.Failure? ==> State() == old(State()) && budget.records == old(budget.records)
    {
      hide InStep, Sound, Answered, Tied, MovedBy;
      if ticket.None? || ticket.value.id != handle {
        return Failure(NotCurrentReservation);
      }
      if ib != ticket.value.bound {
        return Failure(CancelBoundMismatch);
      }
      ghost var g := State();
      var done := budget.Cancel(handle);
      GuardCancels(budget.codec, budget.authority, old(budget.Mem()), old(budget.file.bytes), handle,
                   budget.Mem(), budget.file.bytes, done, g);
      if done.NotDone? {
        return Failure(FromBudget(done.why));
      }
      outstanding := 0;
      ticket := None;
      reservedTokens := reservedTokens - (ib + maxOutput);
      r := Success(());
    }
  }
}
