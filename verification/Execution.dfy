/** One provider attempt from authorisation to settlement, through a cell's guard and its transport. */
module Execution {
  import opened Wrappers
  import opened Ledger
  import opened Journal
  import opened Controller
  import opened Guards
  import opened SharedGuards
  import opened Transport
  import opened Acceptance
  import opened Progress

  /** Calls that move a row along without the guard: dispatch and raw RPC. */
  predicate OnTheWire(call: Call) {
    call.DoDispatch? || call.DoRawRpc?
  }

  /** A dispatch or raw RPC, of any cell and however it ends, leaves every guard tied as it is. */
  lemma WireKeepsTied(c: Codec, a: Authority, m: Memory, b: seq<byte>, call: Call,
                      m': Memory, b': seq<byte>, done: Outcome, g: Guard)
    requires InStep(c, a, m, b) && OnTheWire(call) && Answered(c, a, m, b, call, m', b', done)
    requires Tied(g, m.rows)
    ensures Tied(g, m'.rows)
  {
    MemoryValid(c, a, m, b);
    if done.Done? {
      hide InStep, Answered, OnTheWire, Request, Valid, Tied, Reduce;
      DoneMeansReduced(c, a, m, b, call, m', b');
      WireEvent(a, m, call);
      var e := Request(a, m, call).value;
      EventCell(a.lim, m.rows, e);
      if m'.rows[Find(m'.rows, e.id)].cell == g.cell {
        OwnCellKeepsTied(a.lim, g, m.rows, e);
      } else {
        OtherCellKeepsTied(a.lim, g, m.rows, e);
      }
    } else {
      NotDoneKeepsRows(c, a, m, b, call, m', b', done);
    }
  }

  /** What goes over the wire is journalled as a dispatch or a raw RPC. */
  lemma WireEvent(a: Authority, m: Memory, call: Call)
    requires OnTheWire(call) && Request(a, m, call).Success?
    ensures Request(a, m, call).value.Dispatch? || Request(a, m, call).value.RawRpc?
  {
    hide Matching;
  }

  /** How one attempt ends: refused, never sent, settled at its usage, forfeited, or left open by a failing journal. */
  datatype Attempt =
    | NotAdmitted(why: GuardDenial)
    | NeverSent(denial: Denial)
    | Measured(actual: nat)
    | Forfeited
    | Unresolved(why: GuardDenial)

  /** What an attempt is admitted for, and forfeits when nothing usable comes back. */
  function FullBound(guard: SharedGuard, payload: Payload): int {
    UsagePrice(guard.inRate, guard.outRate, payload.inputBound, guard.maxOutput)
  }

  /** The row named `id` is in this state, at these token bounds and this full bound. */
  predicate RowIs(rows: seq<Row>, id: Id, cell: Cell, state: State, ib: int, ob: int, bound: int) {
    var i := Find(rows, id);
    && i < |rows| && rows[i].cell == cell && rows[i].state == state
    && rows[i].ib == ib && rows[i].ob == ob && rows[i].bound == bound
  }

  lemma AuthorizedRow(lim: Limits, rows: seq<Row>, e: Event, cell: Cell, next: seq<Row>)
    requires MovedBy(lim, rows, e, cell, next) && e.Reserve?
    ensures RowIs(next, e.id, cell, Reserved, e.ib, e.ob, UsagePrice(e.inRate, e.outRate, e.ib, e.ob))
  {
    EventRow(lim, rows, e);
    PriceIsLinear(e.inRate, e.outRate, e.ib, e.ob);
    hide Valid;
  }

  /** An authorised attempt has its row, reserved at the payload's input bound and at its full bound. */
  lemma Admitted(guard: SharedGuard, payload: Payload, id: Id, rows: seq<Row>, next: seq<Row>)
    requires MovedBy(guard.budget.authority.lim, rows,
                     Ledger.Reserve(id, guard.cell, payload.inputBound, guard.maxOutput,
                                    guard.inRate, guard.outRate, guard.policy),
                     guard.cell, next)
    ensures RowIs(next, id, guard.cell, Reserved, payload.inputBound, guard.maxOutput, FullBound(guard, payload))
  {
    hide MovedBy, RowIs, UsagePrice;
    AuthorizedRow(guard.budget.authority.lim, rows,
                  Ledger.Reserve(id, guard.cell, payload.inputBound, guard.maxOutput,
                                 guard.inRate, guard.outRate, guard.policy),
                  guard.cell, next);
  }

  lemma OnlyMatch(rows: seq<Row>, cell: Cell, state: State, i: nat)
    requires |Matching(rows, cell, state)| == 1
    requires i < |rows| && rows[i].cell == cell && rows[i].state == state
    ensures Matching(rows, cell, state)[0] == i
  {
    assert i in Matching(rows, cell, state);
  }

  /** A dispatch of the cell, at the bound its row was admitted for, leaves that row sent at the same bound. */
  lemma DispatchedRow(c: Codec, a: Authority, m: Memory, b: seq<byte>, cell: Cell, payload: Payload,
                      m': Memory, b': seq<byte>, id: Id, ob: int, bound: int)
    requires InStep(c, a, m, b) && Answered(c, a, m, b, DoDispatch(cell, payload), m', b', Done)
    requires RowIs(m.rows, id, cell, Reserved, payload.inputBound, ob, bound)
    ensures RowIs(m'.rows, id, cell, Sent, payload.inputBound, ob, bound)
  {
    MemoryValid(c, a, m, b);
    var e, i := DispatchFired(c, a, m, b, cell, payload, m', b');
    hide InStep, Answered, Fired, Valid, Reduce;
    OnlyMatch(m.rows, cell, Reserved, Find(m.rows, id));
    hide Matching;
    SentAtBound(a.lim, m.rows, e, m'.rows);
  }

  /** A dispatch at the row's own input bound changes only its state. */
  lemma SentAtBound(lim: Limits, rows: seq<Row>, e: Event, next: seq<Row>)
    requires Valid(lim, rows) && e.Dispatch? && Reduce(lim, rows, e) == Success(next)
    requires Find(rows, e.id) < |rows| && e.ib == rows[Find(rows, e.id)].ib
    ensures Find(next, e.id) == Find(rows, e.id) < |next|
    ensures next[Find(next, e.id)] == rows[Find(rows, e.id)].(state := Sent)
  {
    EventRow(lim, rows, e);
    assert RowValid(rows[Find(rows, e.id)]);
    ChangeInPlace(lim, rows, e, next);
    SentRow(rows[Find(rows, e.id)], e);
    hide Valid, Reduce, RowValid, Change;
  }

  lemma SentRow(r: Row, e: Event)
    requires RowValid(r) && e.Dispatch? && e.ib == r.ib && Change(r, e).Success?
    ensures Change(r, e).value == r.(state := Sent)
  {
  }

  /** What a settlement or forfeit of the guard's ticket does to its totals. */
  lemma ForfeitTotals(lim: Limits, rows: seq<Row>, g: Guard, e: Event, next: seq<Row>,
                      state: State, ib: int, ob: int, bound: int)
    requires e.Forfeit? && MovedBy(lim, rows, e, g.cell, next) && RowIs(rows, e.id, g.cell, state, ib, ob, bound)
    ensures Find(next, e.id) < |next|
    ensures Follow(g, e, next) == g.(ticket := None, outstanding := 0, forfeited := g.forfeited + bound)
  {
    EventRow(lim, rows, e);
    hide Valid;
  }

  lemma SettleTotals(lim: Limits, rows: seq<Row>, g: Guard, e: Event, next: seq<Row>)
    requires e.Settle? && MovedBy(lim, rows, e, g.cell, next)
    ensures Find(next, e.id) < |next|
    ensures Follow(g, e, next).ticket == None && Follow(g, e, next).forfeited == g.forfeited
  {
    EventRow(lim, rows, e);
    hide Valid;
  }

  /** The budget takes no further event. */
  predicate Stuck(m: Memory) {
    m.broken || m.closed
  }

  /** A call that asked for an event and failed met a refusal of the reducer, or a stuck journal. */
  lemma RefusedOrStuck(c: Codec, a: Authority, m: Memory, b: seq<byte>, call: Call,
                       m': Memory, b': seq<byte>, why: Denial)
    requires Answered(c, a, m, b, call, m', b', NotDone(why)) && Request(a, m, call).Success?
    ensures Stuck(m') || (Reduce(a.lim, m.rows, Request(a, m, call).value).Failure? && !m.broken && !m.closed)
  {
    hide Request, Reduce;
  }

  /** Forfeiting an open row fails only with the journal. */
  lemma ForfeitFails(c: Codec, a: Authority, m: Memory, b: seq<byte>, id: Id, m': Memory, b': seq<byte>, why: Denial)
    requires InStep(c, a, m, b) && Answered(c, a, m, b, DoForfeit(id), m', b', NotDone(why))
    requires Find(m.rows, id) < |m.rows| && Open(m.rows[Find(m.rows, id)])
    ensures Stuck(m')
  {
    MemoryValid(c, a, m, b);
    hide InStep, Valid, Answered, Stuck, Reduce;
    OpenRowForfeits(a.lim, m.rows, Find(m.rows, id));
    RefusedOrStuck(c, a, m, b, DoForfeit(id), m', b', why);
  }

  /** Counts a provider can have used. */
  predicate Counts(input: Option<int>, output: Option<int>) {
    input.Some? && output.Some? ==> input.value >= 0 && output.value >= 0
  }

  /** Settling a sent row at counts not found over its bounds, or without counts, fails only with the journal. */
  lemma SettleFails(c: Codec, a: Authority, m: Memory, b: seq<byte>, id: Id, input: Option<int>, output: Option<int>,
                    m': Memory, b': seq<byte>, why: Denial)
    requires InStep(c, a, m, b) && Answered(c, a, m, b, DoSettle(id, input, output), m', b', NotDone(why))
    requires Find(m.rows, id) < |m.rows| && m.rows[Find(m.rows, id)].state == Sent
    requires Counts(input, output) && !OverBounds(a.lim, m, id, input, output)
    ensures Stuck(m')
  {
    MemoryValid(c, a, m, b);
    var i := Find(m.rows, id);
    hide InStep, Valid, Answered, Stuck, Reduce, Open;
    RefusedOrStuck(c, a, m, b, DoSettle(id, input, output), m', b', why);
    if input.Some? && output.Some? {
      SettleAcceptedIff(a.lim, m.rows, i, Ledger.Settle(id, input.value, output.value));
    } else {
      ForfeitAcceptedIff(a.lim, m.rows, i, Ledger.Forfeit(id));
    }
  }

  lemma SentIsOpen(r: Row)
    requires r.state == Sent || r.state == Reserved
    ensures Open(r)
  {
  }

  /** What came back is a usage within the bounds the attempt was admitted for. */
  predicate Within(ib: int, ob: int, input: Option<int>, output: Option<int>) {
    input.Some? && output.Some? && 0 <= input.value <= ib && 0 <= output.value <= ob
  }

  /** A sent row takes a settlement within its bounds. */
  lemma WithinSettles(c: Codec, a: Authority, m: Memory, b: seq<byte>, id: Id, input: Option<int>, output: Option<int>,
                      cell: Cell, ib: int, ob: int, bound: int)
    requires InStep(c, a, m, b) && RowIs(m.rows, id, cell, Sent, ib, ob, bound) && Within(ib, ob, input, output)
    ensures Reduce(a.lim, m.rows, Ledger.Settle(id, input.value, output.value)).Success? && Counts(input, output)
  {
    MemoryValid(c, a, m, b);
    hide InStep, Valid, Reduce;
    SettleAcceptedIff(a.lim, m.rows, Find(m.rows, id), Ledger.Settle(id, input.value, output.value));
  }

  /**
   Nothing of the program's own stands in the way of the attempt: no ticket, room under the ceiling and
   the cap, a fresh identifier, a budget that takes events, and a body at the guard's output limit.
   */
  ghost predicate Clear(guard: SharedGuard, payload: Payload)
    reads guard, guard.budget
  {
    var m, a := guard.budget.Mem(), guard.budget.authority;
    && !Stuck(m) && guard.ticket.None?
    && (guard.tokenCap.Some? ==> guard.reservedTokens + payload.inputBound + guard.maxOutput <= guard.tokenCap.value)
    && guard.maxOutput >= 1 && payload.output == Some(guard.maxOutput)
    && Idle(m.rows, History.Ident(a.ns, m.pos), guard.cell)
    && !OverCap(a.lim, m.rows, 0, Price(guard.inRate, guard.outRate, payload.inputBound, guard.maxOutput))
  }

  lemma ClearIsAdmitted(c: Codec, a: Authority, m: Memory, b: seq<byte>, cell: Cell, ib: nat, ob: int,
                        inRate: nat, outRate: nat, policy: Digest, m': Memory, b': seq<byte>, done: Outcome)
    requires InStep(c, a, m, b) && !Stuck(m) && ob >= 1 && Idle(m.rows, History.Ident(a.ns, m.pos), cell)
    requires !OverCap(a.lim, m.rows, 0, Price(inRate, outRate, ib, ob))
    requires Answered(c, a, m, b, DoReserve(cell, ib, ob, inRate, outRate, policy), m', b', done)
    ensures done.Done? || done == NotDone(JournalWriteFailed)
  {
    hide InStep, Answered, Idle, Price, OverCap;
    ReservationComesTo(c, a, m, b, cell, ib, ob, inRate, outRate, policy, m', b', done);
  }

  /** A reserved row dispatched at its own bounds is never refused for the cap. */
  lemma ClearGoesOut(c: Codec, a: Authority, m: Memory, b: seq<byte>, id: Id, cell: Cell, payload: Payload,
                     ob: int, bound: int, m': Memory, b': seq<byte>, done: Outcome)
    requires InStep(c, a, m, b) && !Stuck(m) && payload.output == Some(ob)
    requires RowIs(m.rows, id, cell, Reserved, payload.inputBound, ob, bound)
    requires Answered(c, a, m, b, DoDispatch(cell, payload), m', b', done)
    ensures done.Done? || done == NotDone(JournalWriteFailed)
  {
    MemoryValid(c, a, m, b);
    var i := Find(m.rows, id);
    assert RowValid(m.rows[i]);
    hide InStep, Answered, Price, Exposure, DistinctIds, OneOpenPerCell;
    DispatchComesTo(c, a, m, b, cell, payload, i, m', b', done);
  }

  /** A guard's forfeit of an open row that failed has met a failing journal. */
  lemma ForfeitedOrStuck(c: Codec, a: Authority, m: Memory, b: seq<byte>, id: Id, r: Result<Option<nat>, GuardDenial>,
                         m': Memory, b': seq<byte>, cell: Cell, ib: int, ob: int, bound: int)
    requires InStep(c, a, m, b) && r.Failure? && r.error.FromBudget?
    requires Answered(c, a, m, b,
                      if OverBounds(a.lim, m, id, None, None) then DoForfeit(id) else DoSettle(id, None, None),
                      m', b', BudgetOutcome(r))
    requires RowIs(m.rows, id, cell, Reserved, ib, ob, bound)
    ensures Stuck(m')
  {
    SentIsOpen(m.rows[Find(m.rows, id)]);
    ForfeitIsSettle(c, a, m, b, id, m', b', BudgetOutcome(r));
    hide InStep, Answered, Stuck, Open, Reduce;
    ForfeitFails(c, a, m, b, id, m', b', r.error.why);
  }

  /** A guard's settlement of a sent row that neither settled nor breached has met a failing journal. */
  lemma SettledOrStuck(c: Codec, a: Authority, m: Memory, b: seq<byte>, id: Id, input: Option<int>, output: Option<int>,
                       r: Result<Option<nat>, GuardDenial>, m': Memory, b': seq<byte>,
                       cell: Cell, ib: int, ob: int, bound: int)
    requires InStep(c, a, m, b) && r.Failure? && r.error.FromBudget? && Counts(input, output)
    requires Answered(c, a, m, b,
                      if OverBounds(a.lim, m, id, input, output) then DoForfeit(id) else DoSettle(id, input, output),
                      m', b', BudgetOutcome(r))
    requires RowIs(m.rows, id, cell, Sent, ib, ob, bound)
    ensures Stuck(m')
  {
    SentIsOpen(m.rows[Find(m.rows, id)]);
    hide InStep, Answered, Stuck, OverBounds, Counts, Open;
    if OverBounds(a.lim, m, id, input, output) {
      ForfeitFails(c, a, m, b, id, m', b', r.error.why);
    } else {
      SettleFails(c, a, m, b, id, input, output, m', b', r.error.why);
    }
  }

  /** Forfeits an attempt whose row is reserved: the whole bound it was admitted for, unless the journal fails. */
  method GiveUp(guard: SharedGuard, handle: Id, ghost ib: int, ghost bound: int)
    requires guard.Ready() && guard.ticket.Some? && guard.ticket.value.id == handle
    requires RowIs(guard.budget.records, handle, guard.cell, Reserved, ib, guard.maxOutput, bound)
    modifies guard, guard.budget, guard.budget.file
    ensures guard.Ready() && guard.budget.Steady(old(guard.budget.Mem()), old(guard.budget.file.faults))
    ensures guard.measured == old(guard.measured)
    ensures !Stuck(guard.budget.Mem()) ==> guard.ticket == None && guard.forfeited == old(guard.forfeited) + bound
  {
    hide InStep, Sound, Answered, Tied, MovedBy, UsagePrice, Follow, OverBounds;
    hide Open, Stuck, RowIs, Reduce, Find, Valid;
    ghost var c, a, m, b := guard.budget.codec, guard.budget.authority, guard.budget.Mem(), guard.budget.file.bytes;
    ghost var g := guard.State();
    var forfeit := guard.Settle(handle, None, None);
    if forfeit.Success? {
      ForfeitTotals(a.lim, m.rows, g, Ledger.Forfeit(handle), guard.budget.records,
                    Reserved, ib, guard.maxOutput, bound);
    } else {
      ForfeitedOrStuck(c, a, m, b, handle, forfeit, guard.budget.Mem(), guard.budget.file.bytes,
                       guard.cell, ib, guard.maxOutput, bound);
    }
  }

  /** Settles an attempt whose row is sent at the usage that came back. */
  method Account(guard: SharedGuard, handle: Id, input: Option<int>, output: Option<int>,
                 ghost ib: int, ghost bound: int)
      returns (r: Attempt)
    requires guard.Ready() && guard.ticket.Some? && guard.ticket.value.id == handle
    requires RowIs(guard.budget.records, handle, guard.cell, Sent, ib, guard.maxOutput, bound)
    modifies guard, guard.budget, guard.budget.file
    ensures guard.Ready() && guard.budget.Steady(old(guard.budget.Mem()), old(guard.budget.file.faults))
    ensures r.Measured? || r.Forfeited? || r.Unresolved?
    ensures r.Measured? ==>
              && input.Some? && output.Some?
              && r.actual == UsagePrice(guard.inRate, guard.outRate, input.value, output.value)
              && guard.ticket == None
              && guard.measured == old(guard.measured) + r.actual && guard.forfeited == old(guard.forfeited)
    ensures r.Forfeited? ==>
              && guard.ticket == None && guard.measured == old(guard.measured)
              && guard.forfeited == old(guard.forfeited) + bound
    ensures r.Unresolved? ==>
              && (Stuck(guard.budget.Mem()) || !Counts(input, output))
              && guard.ticket.Some? && guard.measured == old(guard.measured) && guard.forfeited == old(guard.forfeited)
    ensures Within(ib, guard.maxOutput, input, output) ==> r.Measured? || Stuck(guard.budget.Mem())
  {
    hide InStep, Sound, Answered, Tied, MovedBy, UsagePrice, Follow, OverBounds;
    hide Open, Counts, Stuck, RowIs, Reduce, Find, Valid;
    ghost var c, a, m, b := guard.budget.codec, guard.budget.authority, guard.budget.Mem(), guard.budget.file.bytes;
    ghost var g := guard.State();
    if Within(ib, guard.maxOutput, input, output) {
      WithinSettles(c, a, m, b, handle, input, output, guard.cell, ib, guard.maxOutput, bound);
    }
    var settled := guard.Settle(handle, input, output);
    if settled.Success? && input.Some? && output.Some? {
      SettleTotals(a.lim, m.rows, g, SettlementEvent(handle, input, output), guard.budget.records);
    } else if settled.Success? || settled.error.ReservationBreached? {
      ForfeitTotals(a.lim, m.rows, g, Ledger.Forfeit(handle), guard.budget.records, Sent, ib, guard.maxOutput, bound);
    } else if Counts(input, output) {
      SettledOrStuck(c, a, m, b, handle, input, output, settled, guard.budget.Mem(), guard.budget.file.bytes,
                     guard.cell, ib, guard.maxOutput, bound);
    }
    r := match settled
      case Success(Some(actual)) => Measured(actual)
      case Success(None) => Forfeited
      case Failure(ReservationBreached) => Forfeited
      case Failure(why) => Unresolved(why);
  }

  /**
   Authorise at the payload's input bound, dispatch through the transport, settle at the usage
   that came back. A dispatch that fails forfeits the reservation: whether anything was billed
   is not something a client can know.
   */
  method Run(guard: SharedGuard, transport: DispatchTransport, payload: Payload,
             input: Option<int>, output: Option<int>) returns (r: Attempt)
    requires guard.Ready() && transport.budget == guard.budget && transport.cell == guard.cell
    modifies guard, transport, guard.budget, guard.budget.file
    ensures guard.Ready()
    ensures r.NotAdmitted? ==> guard.State() == old(guard.State()) && guard.budget.records == old(guard.budget.records)
    ensures transport.sent == old(transport.sent) + if r.NotAdmitted? || r.NeverSent? then [] else [payload]
    ensures r.Measured? ==>
              && input.Some? && output.Some?
              && r.actual == UsagePrice(guard.inRate, guard.outRate, input.value, output.value)
              && guard.ticket == None
              && guard.measured == old(guard.measured) + r.actual && guard.forfeited == old(guard.forfeited)
    ensures r.Forfeited? || (r.NeverSent? && !Stuck(guard.budget.Mem())) ==>
              && guard.ticket == None && guard.measured == old(guard.measured)
              && guard.forfeited == old(guard.forfeited) + FullBound(guard, payload)
    ensures r.Unresolved? ==>
              && (Stuck(guard.budget.Mem()) || !Counts(input, output))
              && guard.ticket.Some? && guard.measured == old(guard.measured) && guard.forfeited == old(guard.forfeited)
    ensures r.NeverSent? ==> guard.measured == old(guard.measured)
    ensures Within(payload.inputBound, guard.maxOutput, input, output) ==>
              r.Measured? || r.NotAdmitted? || r.NeverSent? || Stuck(guard.budget.Mem())
    ensures guard.budget.Steady(old(guard.budget.Mem()), old(guard.budget.file.faults))
    ensures old(Clear(guard, payload)) && guard.budget.file.faults == old(guard.budget.file.faults) ==>
              !r.NotAdmitted? && !r.NeverSent?
  {
    hide InStep, Sound, Answered, Tied, MovedBy, UsagePrice, Follow, OverBounds, AnsweredFor, Durable;
    hide Counts, RowIs, FullBound, Reduce, Find, Valid, Within, Idle, OverCap, Price;
    ghost var c, a := guard.budget.codec, guard.budget.authority;
    ghost var full := FullBound(guard, payload);
    ghost var clear := Clear(guard, payload);
    var admitted := guard.Authorize(payload.inputBound);
    if clear {
      ClearIsAdmitted(c, a, old(guard.budget.Mem()), old(guard.budget.file.bytes), guard.cell, payload.inputBound,
                      guard.maxOutput, guard.inRate, guard.outRate, guard.policy,
                      guard.budget.Mem(), guard.budget.file.bytes, BudgetOutcome(admitted));
    }
    if admitted.Failure? {
      return NotAdmitted(admitted.error);
    }
    var handle := guard.ticket.value.id;
    Admitted(guard, payload, handle, old(guard.budget.records), guard.budget.records);
    ghost var m, b := guard.budget.Mem(), guard.budget.file.bytes;
    var done := transport.HandleRequest(payload);
    WireKeepsTied(c, a, m, b, DoDispatch(guard.cell, payload),
                  guard.budget.Mem(), guard.budget.file.bytes, done, guard.State());
    if clear && !Stuck(m) {
      ClearGoesOut(c, a, m, b, handle, guard.cell, payload, guard.maxOutput, full,
                   guard.budget.Mem(), guard.budget.file.bytes, done);
    }
    if done.NotDone? {
      NotDoneKeepsRows(c, a, m, b, DoDispatch(guard.cell, payload),
                       guard.budget.Mem(), guard.budget.file.bytes, done);
      GiveUp(guard, handle, payload.inputBound, full);
      return NeverSent(done.why);
    }
    DispatchedRow(c, a, m, b, guard.cell, payload,
                  guard.budget.Mem(), guard.budget.file.bytes, handle, guard.maxOutput, full);
    r := Account(guard, handle, input, output, payload.inputBound, full);
  }
}
