/** Sums over the rows of one cell, as the guards and the cell accounting take them. */
module CellSums {
  import opened Ledger

  /** `f` on this cell's rows, nothing on the others. */
  function Of(cell: Cell, f: Row -> nat): Row -> nat {
    (r: Row) => if r.cell == cell then f(r) else 0
  }

  function InitialAmount(r: Row): nat {
    r.initialBound
  }

  /** Tokens a row has authorised and not given back by cancelling. */
  function LiveTokens(r: Row): nat {
    if r.state.Cancelled? then 0 else r.initialIb + r.ob
  }

  function One(r: Row): nat {
    1
  }

  function InitialUnknown(r: Row): nat {
    if r.state.Unknown? then r.initialBound else 0
  }

  /** The four amounts a guard keeps, evaluated on one row. */
  lemma OfAmounts(cell: Cell, r: Row)
    ensures Of(cell, SettledAmount)(r) == if r.cell == cell then SettledAmount(r) else 0
    ensures Of(cell, UnknownAmount)(r) == if r.cell == cell then UnknownAmount(r) else 0
    ensures Of(cell, InitialAmount)(r) == if r.cell == cell then r.initialBound else 0
    ensures Of(cell, LiveTokens)(r) == if r.cell == cell then LiveTokens(r) else 0
  {
    var settled: Row -> nat, unknown: Row -> nat := SettledAmount, UnknownAmount;
    var initial: Row -> nat, live: Row -> nat := InitialAmount, LiveTokens;
    assert settled(r) == SettledAmount(r) && unknown(r) == UnknownAmount(r);
    assert initial(r) == InitialAmount(r) && live(r) == LiveTokens(r);
  }

  lemma OfForfeits(cell: Cell, r: Row)
    ensures Of(cell, InitialUnknown)(r) == if r.cell == cell && r.state.Unknown? then r.initialBound else 0
    ensures Of(cell, UnknownAmount)(r) == if r.cell == cell && r.state.Unknown? then r.bound else 0
  {
    var initial: Row -> nat, full: Row -> nat := InitialUnknown, UnknownAmount;
    assert initial(r) == InitialUnknown(r) && full(r) == UnknownAmount(r);
  }

  lemma {:induction false} SumSplits(rows: seq<Row>, f: Row -> nat, g: Row -> nat, h: Row -> nat)
    requires forall i :: 0 <= i < |rows| ==> f(rows[i]) == g(rows[i]) + h(rows[i])
    ensures Sum(rows, f) == Sum(rows, g) + Sum(rows, h)
  {
    if rows != [] {
      SumSplits(rows[..|rows| - 1], f, g, h);
    }
  }

  lemma {:induction false} SumZero(rows: seq<Row>, f: Row -> nat)
    requires forall i :: 0 <= i < |rows| ==> f(rows[i]) == 0
    ensures Sum(rows, f) == 0
  {
    if rows != [] {
      SumZero(rows[..|rows| - 1], f);
    }
  }

  lemma {:induction false} SumAgrees(rows: seq<Row>, f: Row -> nat, g: Row -> nat)
    requires forall i :: 0 <= i < |rows| ==> f(rows[i]) == g(rows[i])
    ensures Sum(rows, f) == Sum(rows, g)
  {
    if rows != [] {
      SumAgrees(rows[..|rows| - 1], f, g);
    }
  }

  lemma {:induction false} SumDominated(rows: seq<Row>, f: Row -> nat, g: Row -> nat)
    requires forall i :: 0 <= i < |rows| ==> f(rows[i]) <= g(rows[i])
    ensures Sum(rows, f) <= Sum(rows, g)
  {
    if rows != [] {
      SumDominated(rows[..|rows| - 1], f, g);
    }
  }

  function Times(f: Row -> nat, k: nat): Row -> nat {
    (r: Row) => f(r) * k
  }

  lemma SumNothing(rows: seq<Row>, f: Row -> nat)
    ensures Sum(rows[..0], f) == 0
  {
  }

  lemma OfOne(cell: Cell, r: Row)
    ensures Of(cell, One)(r) == if r.cell == cell then 1 else 0
  {
    var one: Row -> nat := One;
    assert one(r) == 1;
  }

  lemma OfTimes(cell: Cell, r: Row, k: nat)
    ensures Times(Of(cell, LiveTokens), k)(r) == if r.cell == cell then LiveTokens(r) * k else 0
    ensures Times(Of(cell, One), k)(r) == if r.cell == cell then k else 0
  {
    var live: Row -> nat, one: Row -> nat := LiveTokens, One;
    assert live(r) == LiveTokens(r) && one(r) == 1;
  }

  lemma {:induction false} SumTimes(rows: seq<Row>, f: Row -> nat, k: nat)
    ensures Sum(rows, Times(f, k)) == Sum(rows, f) * k
  {
    if rows != [] {
      var n := |rows| - 1;
      SumTimes(rows[..n], f, k);
      assert (Sum(rows[..n], f) + f(rows[n])) * k == Sum(rows[..n], f) * k + f(rows[n]) * k;
    }
  }

  lemma InitialWithinBound(r: Row)
    requires RowValid(r)
    ensures r.initialBound <= r.bound
  {
    PriceMonotone(r.inRate, r.outRate, r.initialIb, r.ob, r.ib, r.ob);
  }

  lemma ForfeitsDominate(rows: seq<Row>, cell: Cell)
    requires forall i :: 0 <= i < |rows| ==> rows[i].initialBound <= rows[i].bound
    ensures Sum(rows, Of(cell, InitialUnknown)) <= Sum(rows, Of(cell, UnknownAmount))
  {
    forall i | 0 <= i < |rows| ensures Of(cell, InitialUnknown)(rows[i]) <= Of(cell, UnknownAmount)(rows[i]) {
      var initial: Row -> nat, full: Row -> nat := InitialUnknown, UnknownAmount;
      assert initial(rows[i]) <= full(rows[i]);
    }
    SumDominated(rows, Of(cell, InitialUnknown), Of(cell, UnknownAmount));
  }

  /** Bounds never fall below the first reservation, so a cell's forfeits cover its legacy projection. */
  lemma ForfeitsCoverInitial(lim: Limits, rows: seq<Row>, cell: Cell)
    requires Valid(lim, rows)
    ensures Sum(rows, Of(cell, InitialUnknown)) <= Sum(rows, Of(cell, UnknownAmount))
  {
    forall i | 0 <= i < |rows| ensures rows[i].initialBound <= rows[i].bound {
      InitialWithinBound(rows[i]);
    }
    ForfeitsDominate(rows, cell);
  }
}
