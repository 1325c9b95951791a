/**
 The per-cell guards over one shared budget. A guard keeps its own running
 totals; `Tied` says what those totals mean in terms of the shared rows.
 */
module Guards {
  import opened Wrappers
  import opened Ledger
  import opened CellSums

  /** The current admission: its row, the amount returned for it, and the input bound it was asked for. */
  datatype Ticket = Ticket(id: Id, amount: nat, bound: int)

  /** A guard's fixed terms and running totals. */
  datatype Guard = Guard(
    cell: Cell,
    inRate: nat,
    outRate: nat,
    policy: Digest,
    maxOutput: int,
    tokenCap: Option<int>,
    ticket: Option<Ticket>,
    measured: nat,
    forfeited: nat,
    outstanding: nat,
    reserved: nat,
    reservedTokens: int)

  // ------------------------------------------------------------ what a guard's totals mean

  ghost predicate SameTerms(g: Guard, rows: seq<Row>) {
    forall i :: 0 <= i < |rows| && rows[i].cell == g.cell ==>
      rows[i].inRate == g.inRate && rows[i].outRate == g.outRate && rows[i].ob == g.maxOutput
  }

  ghost predicate TotalsTied(g: Guard, rows: seq<Row>) {
    && g.measured == Sum(rows, Of(g.cell, SettledAmount))
    && g.forfeited == Sum(rows, Of(g.cell, UnknownAmount))
    && g.reserved == Sum(rows, Of(g.cell, InitialAmount))
    && g.reservedTokens == Sum(rows, Of(g.cell, LiveTokens))
  }

  /** The ticket is there exactly when the cell has an open row, and is that row's. */
  ghost predicate TicketTied(g: Guard, rows: seq<Row>) {
    && (g.ticket.Some? <==> Busy(rows, g.cell))
    && (g.ticket.None? ==> g.outstanding == 0)
    && (g.ticket.Some? ==>
          var i := Find(rows, g.ticket.value.id);
          && i < |rows| && rows[i].cell == g.cell && Open(rows[i])
          && rows[i].initialBound == g.ticket.value.amount == g.outstanding
          && rows[i].initialIb == g.ticket.value.bound)
  }

  ghost predicate Tied(g: Guard, rows: seq<Row>) {
    SameTerms(g, rows) && TotalsTied(g, rows) && TicketTied(g, rows)
  }

  // ------------------------------------------------------------ how a guard follows its cell's events

  /** The guard after an event of its own cell was accepted. */
  function Follow(g: Guard, e: Event, next: seq<Row>): Guard
    requires !e.Genesis? && Find(next, e.id) < |next|
  {
    var r := next[Find(next, e.id)];
    match e
    case Reserve(_, _, _, _, _, _, _) =>
      g.(ticket := Some(Ticket(r.id, r.bound, r.initialIb)), outstanding := r.bound,
         reserved := g.reserved + r.bound, reservedTokens := g.reservedTokens + r.initialIb + r.ob)
    case Settle(_, _, _) =>
      g.(ticket := None, outstanding := 0, measured := g.measured + SettledAmount(r))
    case Forfeit(_) =>
      g.(ticket := None, outstanding := 0, forfeited := g.forfeited + r.bound)
    case Cancel(_, _) =>
      g.(ticket := None, outstanding := 0, reservedTokens := g.reservedTokens - (r.initialIb + r.ob))
    case _ => g
  }

  /** Which row an accepted event ends up in, and what the step did to the table. */
  lemma EventRow(lim: Limits, rows: seq<Row>, e: Event)
    requires Valid(lim, rows) && Reduce(lim, rows, e).Success?
    ensures !e.Genesis?
    ensures var next := Reduce(lim, rows, e).value;
            var i := Find(next, e.id);
            && i < |next|
            && (if e.Reserve? then i == |rows| && next == rows + [next[i]]
                else i == Find(rows, e.id) < |rows| && next == rows[i := next[i]])
  {
    var next := Reduce(lim, rows, e).value;
    StepKeepsValid(lim, rows, e);
    assert DistinctIds(next);
    EventPlace(lim, rows, e);
    hide Reduce, Valid;
    FindUnique(next, if e.Reserve? then |rows| else Find(rows, e.id));
  }

  lemma EventPlace(lim: Limits, rows: seq<Row>, e: Event)
    requires Reduce(lim, rows, e).Success?
    ensures !e.Genesis?
    ensures var i, next := if e.Reserve? then |rows| else Find(rows, e.id), Reduce(lim, rows, e).value;
            && i < |next| && next[i].id == e.id
            && (if e.Reserve? then next == rows + [next[i]] else i < |rows| && next == rows[i := next[i]])
  {
    hide Price, Exposure;
  }

  lemma EventCell(lim: Limits, rows: seq<Row>, e: Event)
    requires Valid(lim, rows) && Reduce(lim, rows, e).Success?
    ensures !e.Genesis?
    ensures var next := Reduce(lim, rows, e).value;
            var i := Find(next, e.id);
            i < |next| && (e.Reserve? ==> next[i].cell == e.cell) &&
            (!e.Reserve? ==> Find(rows, e.id) < |rows| && next[i].cell == rows[Find(rows, e.id)].cell)
  {
    EventRow(lim, rows, e);
  }

  /** A cell sum changes by what the one changed row changes by. */
  lemma SumFollows(lim: Limits, rows: seq<Row>, e: Event, f: Row -> nat)
    requires Valid(lim, rows) && Reduce(lim, rows, e).Success?
    ensures !e.Genesis?
    ensures var next := Reduce(lim, rows, e).value;
            var i := Find(next, e.id);
            && i < |next|
            && (!e.Reserve? ==> i < |rows|)
            && Sum(next, f) + (if e.Reserve? then 0 else f(rows[i])) == Sum(rows, f) + f(next[i])
  {
    EventRow(lim, rows, e);
    var next := Reduce(lim, rows, e).value;
    var i := Find(next, e.id);
    if e.Reserve? {
      SumAppend(rows, next[i], f);
    } else {
      SumUpdate(rows, i, next[i], f);
    }
  }

  lemma OtherCellKeepsTotals(lim: Limits, g: Guard, rows: seq<Row>, e: Event)
    requires Valid(lim, rows) && Reduce(lim, rows, e).Success? && TotalsTied(g, rows)
    requires !e.Genesis? && Find(Reduce(lim, rows, e).value, e.id) < |Reduce(lim, rows, e).value|
    requires Reduce(lim, rows, e).value[Find(Reduce(lim, rows, e).value, e.id)].cell != g.cell
    ensures TotalsTied(g, Reduce(lim, rows, e).value)
  {
    hide Valid, Reduce, Of;
    RowEffect(lim, rows, e);
    SumFollows(lim, rows, e, Of(g.cell, SettledAmount));
    SumFollows(lim, rows, e, Of(g.cell, UnknownAmount));
    SumFollows(lim, rows, e, Of(g.cell, InitialAmount));
    SumFollows(lim, rows, e, Of(g.cell, LiveTokens));
    var next := Reduce(lim, rows, e).value;
    var i := Find(next, e.id);
    OfAmounts(g.cell, next[i]);
    if !e.Reserve? {
      OfAmounts(g.cell, rows[i]);
    }
  }

  /** Events of other cells leave a guard tied as it is. */
  lemma OtherCellKeepsTied(lim: Limits, g: Guard, rows: seq<Row>, e: Event)
    requires Valid(lim, rows) && Reduce(lim, rows, e).Success? && Tied(g, rows)
    requires !e.Genesis? && Find(Reduce(lim, rows, e).value, e.id) < |Reduce(lim, rows, e).value|
    requires Reduce(lim, rows, e).value[Find(Reduce(lim, rows, e).value, e.id)].cell != g.cell
    ensures Tied(g, Reduce(lim, rows, e).value)
  {
    var next := Reduce(lim, rows, e).value;
    var i := Find(next, e.id);
    EventRow(lim, rows, e);
    EventCell(lim, rows, e);
    StepKeepsValid(lim, rows, e);
    OtherCellKeepsTotals(lim, g, rows, e);
    hide Reduce, RowValid, Capped, TotalsTied, OneOpenPerCell;
    if e.Reserve? {
      assert next == rows + [next[i]];
    } else {
      assert next == rows[i := next[i]];
    }
    OthersKept(g, rows, next, i);
  }

  /** A table that differs only in a row of another cell keeps this guard's terms and ticket. */
  lemma OthersKept(g: Guard, rows: seq<Row>, next: seq<Row>, i: nat)
    requires SameTerms(g, rows) && TicketTied(g, rows) && DistinctIds(next)
    requires i < |next| && next[i].cell != g.cell
    requires || (i == |rows| && next == rows + [next[i]])
             || (i < |rows| && rows[i].cell != g.cell && next == rows[i := next[i]])
    ensures SameTerms(g, next) && TicketTied(g, next)
  {
    assert forall k :: 0 <= k < |rows| && rows[k].cell == g.cell ==> next[k] == rows[k];
    if g.ticket.Some? {
      FindUnique(next, Find(rows, g.ticket.value.id));
    }
    assert Busy(next, g.cell) <==> Busy(rows, g.cell);
  }

  /** What each kind of event does to the amounts a row counts for. */
  lemma RowEffect(lim: Limits, rows: seq<Row>, e: Event)
    requires Valid(lim, rows) && Reduce(lim, rows, e).Success?
    ensures !e.Genesis?
    ensures var next := Reduce(lim, rows, e).value;
            var i := Find(next, e.id);
            && i < |next|
            && var r' := next[i];
               if e.Reserve? then
                 && r'.state == Reserved && r'.initialBound == r'.bound
               else
                 && i < |rows| && Open(rows[i]) && SameAttempt(rows[i], r')
                 && match e
                    case Settle(_, _, _) => r'.state.Settled?
                    case Forfeit(_) => r'.state == Unknown
                    case Cancel(_, _) => r'.state == Cancelled
                    case _ => r'.state == Sent
  {
    EventRow(lim, rows, e);
  }

  lemma OwnCellKeepsTotals(lim: Limits, g: Guard, rows: seq<Row>, e: Event)
    requires Valid(lim, rows) && Reduce(lim, rows, e).Success? && Tied(g, rows)
    requires !e.Genesis? && Find(Reduce(lim, rows, e).value, e.id) < |Reduce(lim, rows, e).value|
    requires Reduce(lim, rows, e).value[Find(Reduce(lim, rows, e).value, e.id)].cell == g.cell
    ensures TotalsTied(Follow(g, e, Reduce(lim, rows, e).value), Reduce(lim, rows, e).value)
  {
    hide Valid, Reduce, SameTerms, TicketTied, Of;
    RowEffect(lim, rows, e);
    var next := Reduce(lim, rows, e).value;
    var i := Find(next, e.id);
    OfAmounts(g.cell, next[i]);
    if !e.Reserve? {
      OfAmounts(g.cell, rows[i]);
    }
    SumFollows(lim, rows, e, Of(g.cell, SettledAmount));
    SumFollows(lim, rows, e, Of(g.cell, UnknownAmount));
    SumFollows(lim, rows, e, Of(g.cell, InitialAmount));
    SumFollows(lim, rows, e, Of(g.cell, LiveTokens));
  }

  lemma OwnCellKeepsTicket(lim: Limits, g: Guard, rows: seq<Row>, e: Event)
    requires Valid(lim, rows) && Reduce(lim, rows, e).Success? && Tied(g, rows)
    requires !e.Genesis? && Find(Reduce(lim, rows, e).value, e.id) < |Reduce(lim, rows, e).value|
    requires Reduce(lim, rows, e).value[Find(Reduce(lim, rows, e).value, e.id)].cell == g.cell
    ensures TicketTied(Follow(g, e, Reduce(lim, rows, e).value), Reduce(lim, rows, e).value)
  {
    var next := Reduce(lim, rows, e).value;
    var i := Find(next, e.id);
    EventRow(lim, rows, e);
    RowEffect(lim, rows, e);
    EventCell(lim, rows, e);
    StepKeepsValid(lim, rows, e);
    assert OneOpenPerCell(rows) && OneOpenPerCell(next);
    hide Reduce, Valid, TotalsTied, SameTerms;
    if e.Reserve? {
      assert Open(next[i]);
    } else {
      assert Open(rows[i]);
      assert Busy(rows, g.cell);
      var t := Find(rows, g.ticket.value.id);
      assert t == i;
      forall k | 0 <= k < |next| && k != i && next[k].cell == g.cell ensures !Open(next[k]) {
        assert next[k] == rows[k];
      }
    }
  }

  /** A reserved row carries its event's terms. */
  lemma ReservedTerms(lim: Limits, rows: seq<Row>, e: Event)
    requires Valid(lim, rows) && Reduce(lim, rows, e).Success? && e.Reserve?
    ensures var next := Reduce(lim, rows, e).value;
            var i := Find(next, e.id);
            && i < |next|
            && var r := next[i];
               && r.id == e.id && r.cell == e.cell && r.initialIb == e.ib && r.ob == e.ob
               && r.inRate == e.inRate && r.outRate == e.outRate
               && r.bound == e.ib * e.inRate + e.ob * e.outRate
  {
    EventRow(lim, rows, e);
    PriceIsLinear(e.inRate, e.outRate, e.ib, e.ob);
  }

  /** The guard follows every event of its own cell. */
  lemma OwnCellKeepsTied(lim: Limits, g: Guard, rows: seq<Row>, e: Event)
    requires Valid(lim, rows) && Reduce(lim, rows, e).Success? && Tied(g, rows)
    requires !e.Genesis? && Find(Reduce(lim, rows, e).value, e.id) < |Reduce(lim, rows, e).value|
    requires Reduce(lim, rows, e).value[Find(Reduce(lim, rows, e).value, e.id)].cell == g.cell
    requires e.Reserve? ==> e.inRate == g.inRate && e.outRate == g.outRate && e.ob == g.maxOutput
    ensures Tied(Follow(g, e, Reduce(lim, rows, e).value), Reduce(lim, rows, e).value)
  {
    var next := Reduce(lim, rows, e).value;
    EventRow(lim, rows, e);
    RowEffect(lim, rows, e);
    if e.Reserve? {
      ReservedTerms(lim, rows, e);
    }
    OwnCellKeepsTotals(lim, g, rows, e);
    OwnCellKeepsTicket(lim, g, rows, e);
    hide Reduce, Valid, TotalsTied, TicketTied;
    forall k | 0 <= k < |next| && next[k].cell == g.cell
      ensures next[k].inRate == g.inRate && next[k].outRate == g.outRate && next[k].ob == g.maxOutput
    {
      if k < |rows| {
        StepKeepsTerms(lim, rows, e, k);
      }
    }
  }

  lemma StepKeepsTerms(lim: Limits, rows: seq<Row>, e: Event, k: nat)
    requires Valid(lim, rows) && Reduce(lim, rows, e).Success? && k < |rows|
    ensures k < |Reduce(lim, rows, e).value| && SameAttempt(rows[k], Reduce(lim, rows, e).value[k])
  {
    StepChangesOneRow(lim, rows, e);
  }

  // ------------------------------------------------------------ the fleet

  ghost predicate DistinctCells(gs: seq<Guard>) {
    forall i, j :: 0 <= i < j < |gs| ==> gs[i].cell != gs[j].cell
  }

  predicate Owns(gs: seq<Guard>, cell: Cell) {
    exists k :: 0 <= k < |gs| && gs[k].cell == cell
  }

  /** Guards on distinct cells, each tied; the rows of other cells are no one's here. */
  ghost predicate FleetTied(gs: seq<Guard>, rows: seq<Row>) {
    DistinctCells(gs) && forall k :: 0 <= k < |gs| ==> Tied(gs[k], rows)
  }

  /** The event is cell `cell`'s: it reserves for it or moves one of its rows. */
  ghost predicate EventOf(lim: Limits, rows: seq<Row>, e: Event, cell: Cell) {
    && Valid(lim, rows) && Reduce(lim, rows, e).Success? && !e.Genesis?
    && var next := Reduce(lim, rows, e).value;
       Find(next, e.id) < |next| && next[Find(next, e.id)].cell == cell
  }

  lemma GuardFollows(lim: Limits, gs: seq<Guard>, rows: seq<Row>, e: Event, k: nat, j: nat)
    requires k < |gs| && j < |gs| && EventOf(lim, rows, e, gs[k].cell)
    requires DistinctCells(gs) && Tied(gs[j], rows)
    requires e.Reserve? ==> e.inRate == gs[k].inRate && e.outRate == gs[k].outRate && e.ob == gs[k].maxOutput
    ensures var next := Reduce(lim, rows, e).value;
            Tied(if j == k then Follow(gs[j], e, next) else gs[j], next)
  {
    if j == k {
      OwnCellKeepsTied(lim, gs[j], rows, e);
    } else {
      OtherCellKeepsTied(lim, gs[j], rows, e);
    }
  }

  /** Guards follow one accepted event: the one whose cell it is, and no other. */
  lemma FleetFollows(lim: Limits, gs: seq<Guard>, rows: seq<Row>, e: Event, k: nat)
    requires k < |gs| && EventOf(lim, rows, e, gs[k].cell) && FleetTied(gs, rows)
    requires e.Reserve? ==> e.inRate == gs[k].inRate && e.outRate == gs[k].outRate && e.ob == gs[k].maxOutput
    ensures FleetTied(gs[k := Follow(gs[k], e, Reduce(lim, rows, e).value)], Reduce(lim, rows, e).value)
  {
    var next := Reduce(lim, rows, e).value;
    var gs' := gs[k := Follow(gs[k], e, next)];
    forall j | 0 <= j < |gs'| ensures Tied(gs'[j], next) {
      GuardFollows(lim, gs, rows, e, k, j);
    }
  }

  function Resolved(gs: seq<Guard>): nat {
    if gs == [] then 0
    else Resolved(gs[..|gs| - 1]) + gs[|gs| - 1].measured + gs[|gs| - 1].forfeited
  }

  /** Settled and unknown amounts of the cells of `gs`, row by row. */
  function ResolvedAmount(r: Row): nat {
    SettledAmount(r) + UnknownAmount(r)
  }

  function AmongCells(gs: seq<Guard>, f: Row -> nat): Row -> nat {
    (r: Row) => if Owns(gs, r.cell) then f(r) else 0
  }

  lemma OfResolved(cell: Cell, r: Row)
    ensures Of(cell, ResolvedAmount)(r) == Of(cell, SettledAmount)(r) + Of(cell, UnknownAmount)(r)
  {
    var known: Row -> nat, unknown: Row -> nat, both: Row -> nat := SettledAmount, UnknownAmount, ResolvedAmount;
    assert both(r) == known(r) + unknown(r);
  }

  lemma {:induction false} GuardsResolve(gs: seq<Guard>, rows: seq<Row>)
    requires DistinctCells(gs)
    requires forall k :: 0 <= k < |gs| ==> TotalsTied(gs[k], rows)
    ensures Resolved(gs) == Sum(rows, AmongCells(gs, ResolvedAmount))
  {
    if gs == [] {
      SumZero(rows, AmongCells(gs, ResolvedAmount));
    } else {
      var front, g := gs[..|gs| - 1], gs[|gs| - 1];
      GuardsResolve(front, rows);
      forall i | 0 <= i < |rows|
        ensures Of(g.cell, ResolvedAmount)(rows[i])
             == Of(g.cell, SettledAmount)(rows[i]) + Of(g.cell, UnknownAmount)(rows[i])
      {
        OfResolved(g.cell, rows[i]);
      }
      SumSplits(rows, Of(g.cell, ResolvedAmount), Of(g.cell, SettledAmount), Of(g.cell, UnknownAmount));
      forall i | 0 <= i < |rows|
        ensures AmongCells(gs, ResolvedAmount)(rows[i])
             == AmongCells(front, ResolvedAmount)(rows[i]) + Of(g.cell, ResolvedAmount)(rows[i])
      {
        OneOwner(gs, rows[i].cell);
      }
      SumSplits(rows, AmongCells(gs, ResolvedAmount), AmongCells(front, ResolvedAmount), Of(g.cell, ResolvedAmount));
    }
  }

  /** A cell is the last guard's or one of the others', never both. */
  lemma OneOwner(gs: seq<Guard>, cell: Cell)
    requires DistinctCells(gs) && gs != []
    ensures var front := gs[..|gs| - 1];
            && (Owns(gs, cell) <==> Owns(front, cell) || gs[|gs| - 1].cell == cell)
            && !(Owns(front, cell) && gs[|gs| - 1].cell == cell)
  {
    var front := gs[..|gs| - 1];
    if k :| 0 <= k < |gs| && gs[k].cell == cell {
      if k < |front| { assert front[k].cell == cell; }
    }
    if k :| 0 <= k < |front| && front[k].cell == cell {
      assert gs[k].cell == cell;
    }
  }

  /** `f` on the rows of cells none of these guards has. */
  function Elsewhere(gs: seq<Guard>, f: Row -> nat): Row -> nat {
    (r: Row) => if Owns(gs, r.cell) then 0 else f(r)
  }

  /**
   Conservation: what the guards call spent and forfeited, what cells without a guard resolved,
   and all open bounds make up the shared exposure.
   */
  lemma GuardsAddUpToExposure(gs: seq<Guard>, rows: seq<Row>)
    requires FleetTied(gs, rows)
    ensures Resolved(gs) + Sum(rows, Elsewhere(gs, ResolvedAmount)) + Sum(rows, OpenAmount) == Exposure(rows)
  {
    GuardsResolve(gs, rows);
    SumSplits(rows, ResolvedAmount, AmongCells(gs, ResolvedAmount), Elsewhere(gs, ResolvedAmount));
    SumSplits(rows, Liability, ResolvedAmount, OpenAmount);
  }

  /** An event of one guard's cell leaves the sums over other cells as they are. */
  lemma ElsewhereStands(lim: Limits, gs: seq<Guard>, rows: seq<Row>, e: Event, k: nat, f: Row -> nat)
    requires k < |gs| && EventOf(lim, rows, e, gs[k].cell)
    ensures Sum(Reduce(lim, rows, e).value, Elsewhere(gs, f)) == Sum(rows, Elsewhere(gs, f))
  {
    SumFollows(lim, rows, e, Elsewhere(gs, f));
    EventCell(lim, rows, e);
    EventRow(lim, rows, e);
    hide Reduce, Valid;
    assert Owns(gs, gs[k].cell);
  }

  /** Only which cells the guards have matters to those sums. */
  lemma SameCellsElsewhere(gs: seq<Guard>, gs': seq<Guard>, rows: seq<Row>, f: Row -> nat)
    requires |gs'| == |gs| && forall k :: 0 <= k < |gs| ==> gs'[k].cell == gs[k].cell
    ensures Sum(rows, Elsewhere(gs', f)) == Sum(rows, Elsewhere(gs, f))
  {
    forall i | 0 <= i < |rows| ensures Elsewhere(gs', f)(rows[i]) == Elsewhere(gs, f)(rows[i]) {
      SameCellsOwn(gs, gs', rows[i].cell);
    }
    SumAgrees(rows, Elsewhere(gs', f), Elsewhere(gs, f));
  }

  lemma SameCellsOwn(gs: seq<Guard>, gs': seq<Guard>, cell: Cell)
    requires |gs'| == |gs| && forall k :: 0 <= k < |gs| ==> gs'[k].cell == gs[k].cell
    ensures Owns(gs', cell) <==> Owns(gs, cell)
  {
    if k :| 0 <= k < |gs| && gs[k].cell == cell { assert gs'[k].cell == cell; }
    if k :| 0 <= k < |gs'| && gs'[k].cell == cell { assert gs[k].cell == cell; }
  }

  // ------------------------------------------------------------ the derived token ceiling

  const MAX_DECISIONS: nat := 100

  /** Tokens that MAX_DECISIONS reservations of the whole cap could buy at the cheaper rate, rounded up. */
  function TokenCeiling(cap: nat, inRate: nat, outRate: nat): nat
    requires inRate > 0 && outRate > 0
  {
    var rate := if inRate < outRate then inRate else outRate;
    RoundUp(MAX_DECISIONS * cap, rate)
  }

  /** `total` divided by `rate`, rounded up. */
  function RoundUp(total: nat, rate: nat): nat
    requires rate > 0
  {
    (total + rate - 1) / rate
  }

  /** Rounding up gives the least multiple of the rate that covers the total. */
  lemma RoundUpIsLeast(total: nat, rate: nat, tokens: nat)
    requires rate > 0
    ensures RoundUp(total, rate) <= tokens <==> total <= tokens * rate
  {
    var q := RoundUp(total, rate);
    assert total <= q * rate < total + rate;
    if q <= tokens {
      ProductMonotone(q, tokens, rate);
    } else {
      ProductMonotone(tokens, q - 1, rate);
      Distribute(q - 1, 1, rate);
    }
  }

  /** The derived ceiling is the least number of tokens that cost a hundred caps at either rate. */
  lemma CeilingIsLeast(cap: nat, inRate: nat, outRate: nat, tokens: nat)
    requires inRate > 0 && outRate > 0
    ensures TokenCeiling(cap, inRate, outRate) <= tokens
       <==> 100 * cap <= tokens * inRate && 100 * cap <= tokens * outRate
  {
    var rate := if inRate < outRate then inRate else outRate;
    RoundUpIsLeast(MAX_DECISIONS * cap, rate, tokens);
    hide RoundUp;
    ProductMonotone(rate, inRate, tokens);
    ProductMonotone(rate, outRate, tokens);
  }

  lemma ProductMonotone(x: nat, y: nat, z: nat)
    requires x <= y
    ensures x * z <= y * z && z * x <= z * y
  {
    assert y * z == x * z + (y - x) * z;
  }

  lemma Distribute(x: nat, y: nat, z: nat)
    ensures (x + y) * z == x * z + y * z
  {
  }

  lemma TokensWithinCap(inRate: nat, outRate: nat, input: nat, output: nat, rate: nat, cap: nat)
    requires rate <= inRate && rate <= outRate
    requires Price(inRate, outRate, input, output) <= cap
    ensures (input + output) * rate <= cap
  {
    PriceIsLinear(inRate, outRate, input, output);
    ProductMonotone(rate, inRate, input);
    ProductMonotone(rate, outRate, output);
    Distribute(input, output, rate);
  }

  lemma RowTokensFit(r: Row, rate: nat, cap: nat)
    requires RowValid(r) && r.initialBound <= cap && rate <= r.inRate && rate <= r.outRate
    ensures LiveTokens(r) * rate <= cap
  {
    TokensWithinCap(r.inRate, r.outRate, r.initialIb, r.ob, rate, cap);
  }

  /** A cell's live tokens, priced at the cheaper rate, fit one cap per row of the cell. */
  lemma CellTokensFit(rows: seq<Row>, cell: Cell, rate: nat, cap: nat)
    requires forall i :: 0 <= i < |rows| && rows[i].cell == cell ==> LiveTokens(rows[i]) * rate <= cap
    ensures Sum(rows, Of(cell, LiveTokens)) * rate <= Sum(rows, Of(cell, One)) * cap
  {
    hide Times, Of;
    var tokens, caps := Times(Of(cell, LiveTokens), rate), Times(Of(cell, One), cap);
    forall i | 0 <= i < |rows| ensures tokens(rows[i]) <= caps(rows[i]) {
      OfTimes(cell, rows[i], rate);
      OfTimes(cell, rows[i], cap);
    }
    SumDominated(rows, tokens, caps);
    SumTimes(rows, Of(cell, LiveTokens), rate);
    SumTimes(rows, Of(cell, One), cap);
  }

  /** Rounding up never cuts below what was divided. */
  lemma CeilingCovers(tokens: nat, rate: nat, total: nat)
    requires rate > 0 && tokens * rate <= total
    ensures tokens <= RoundUp(total, rate)
  {
    var q := (total + rate - 1) / rate;
    Distribute(q, 1, rate);
    if q + 1 <= tokens {
      ProductMonotone(q + 1, tokens, rate);
    }
  }

  lemma CellRowsFit(lim: Limits, g: Guard, rows: seq<Row>, rate: nat)
    requires Valid(lim, rows) && lim.cap.Some? && Tied(g, rows)
    requires rate <= g.inRate && rate <= g.outRate
    ensures forall i :: 0 <= i < |rows| && rows[i].cell == g.cell ==> LiveTokens(rows[i]) * rate <= lim.cap.value
  {
    forall i | 0 <= i < |rows| && rows[i].cell == g.cell ensures LiveTokens(rows[i]) * rate <= lim.cap.value {
      RowTokensFit(rows[i], rate, lim.cap.value);
    }
  }

  /** One more reservation adds its tokens and one row to the cell. */
  lemma AdmittedTokens(lim: Limits, rows: seq<Row>, e: Event, cell: Cell)
    requires Valid(lim, rows) && e.Reserve? && e.cell == cell && Reduce(lim, rows, e).Success?
    ensures var next := Reduce(lim, rows, e).value;
            && Sum(next, Of(cell, LiveTokens)) == Sum(rows, Of(cell, LiveTokens)) + e.ib + e.ob
            && Sum(next, Of(cell, One)) == Sum(rows, Of(cell, One)) + 1
  {
    SumFollows(lim, rows, e, Of(cell, LiveTokens));
    SumFollows(lim, rows, e, Of(cell, One));
    RowEffect(lim, rows, e);
    ReservedTerms(lim, rows, e);
    hide Reduce, Valid, Of, Sum;
    var next := Reduce(lim, rows, e).value;
    OfAmounts(cell, next[Find(next, e.id)]);
    OfOne(cell, next[Find(next, e.id)]);
  }

  /**
   With positive rates and at most a hundred authorisations in the cell, the
   derived ceiling never refuses one that the shared budget would admit.
   */
  lemma CeilingNeverRefuses(lim: Limits, g: Guard, rows: seq<Row>, e: Event)
    requires Valid(lim, rows) && lim.cap.Some? && Tied(g, rows)
    requires g.inRate > 0 && g.outRate > 0
    requires g.tokenCap == Some(TokenCeiling(lim.cap.value, g.inRate, g.outRate))
    requires Sum(rows, Of(g.cell, One)) < MAX_DECISIONS
    requires e.Reserve? && e.cell == g.cell && e.inRate == g.inRate && e.outRate == g.outRate && e.ob == g.maxOutput
    requires Reduce(lim, rows, e).Success?
    ensures g.reservedTokens + e.ib + g.maxOutput <= g.tokenCap.value
  {
    var cap := lim.cap.value;
    var rate := if g.inRate < g.outRate then g.inRate else g.outRate;
    var next := Reduce(lim, rows, e).value;
    StepKeepsValid(lim, rows, e);
    EventCell(lim, rows, e);
    AdmittedTokens(lim, rows, e, g.cell);
    OwnCellKeepsTied(lim, g, rows, e);
    CellRowsFit(lim, Follow(g, e, next), next, rate);
    assert g.reservedTokens == Sum(rows, Of(g.cell, LiveTokens));
    hide Valid, Reduce, Tied, Price, RoundUp, Sum, LiveTokens;
    CellTokensFit(next, g.cell, rate, cap);
    var tokens, n := Sum(next, Of(g.cell, LiveTokens)), Sum(next, Of(g.cell, One));
    ProductMonotone(n, MAX_DECISIONS, cap);
    CeilingCovers(tokens, rate, MAX_DECISIONS * cap);
  }
}
