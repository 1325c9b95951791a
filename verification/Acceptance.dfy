/** Which events the reducer accepts and what each leaves, said about the rows themselves. */
module Acceptance {
  import opened Wrappers
  import opened Ledger

  /** Nothing in the table stands in the way of admitting `id` for `cell`. */
  ghost predicate Idle(rows: seq<Row>, id: Id, cell: Cell) {
    forall k :: 0 <= k < |rows| ==>
      rows[k].id != id && (rows[k].cell == cell ==> rows[k].state != Reserved && rows[k].state != Sent)
  }

  /** Exposure would pass the cap if liability `less` became `more`. */
  predicate OverCap(lim: Limits, rows: seq<Row>, less: int, more: int) {
    lim.cap.Some? && Exposure(rows) - less + more > lim.cap.value
  }

  /** What a reservation asks for is a number of tokens at rates, and at least one output token. */
  predicate Counted(e: Event)
    requires e.Reserve?
  {
    e.ib >= 0 && e.ob >= 1 && e.inRate >= 0 && e.outRate >= 0
  }

  /** A reservation is accepted for an idle cell, under a new name, at counts that are counts, within the cap. */
  lemma ReserveAcceptedIff(lim: Limits, rows: seq<Row>, e: Event)
    requires Valid(lim, rows) && e.Reserve?
    ensures Reduce(lim, rows, e) == Failure(DuplicateAdmission) <==> !Idle(rows, e.id, e.cell)
    ensures Reduce(lim, rows, e).Success? || Reduce(lim, rows, e) == Failure(CapExceeded) <==>
              Idle(rows, e.id, e.cell) && Counted(e)
    ensures Idle(rows, e.id, e.cell) && Counted(e) ==>
              var cost := Price(e.inRate, e.outRate, e.ib, e.ob);
              Reduce(lim, rows, e) ==
                if OverCap(lim, rows, 0, cost) then Failure(CapExceeded)
                else Success(rows + [Row(e.id, e.cell, e.ib, e.ob, e.inRate, e.outRate, e.policy,
                                         Reserved, cost, cost, e.ib, 0)])
  {
    assert Idle(rows, e.id, e.cell) <==> Find(rows, e.id) == |rows| && !Busy(rows, e.cell);
    if Admit(rows, e).Success? {
      SumAppend(rows, Admit(rows, e).value, Liability);
    }
    hide Valid, Price, Sum, Busy;
  }

  /** A dispatch is accepted once, from reserved, at no smaller an input bound, within the cap at its new price. */
  lemma DispatchAcceptedIff(lim: Limits, rows: seq<Row>, i: nat, e: Event)
    requires Valid(lim, rows) && i < |rows| && e.Dispatch? && e.id == rows[i].id
    ensures Reduce(lim, rows, e).Success? || Reduce(lim, rows, e) == Failure(CapExceeded) <==>
              rows[i].state == Reserved && rows[i].ib <= e.ib
    ensures rows[i].state == Reserved && rows[i].ib <= e.ib ==>
              var cost := Price(rows[i].inRate, rows[i].outRate, e.ib, rows[i].ob);
              Reduce(lim, rows, e) ==
                if OverCap(lim, rows, rows[i].bound, cost) then Failure(CapExceeded)
                else Success(rows[i := rows[i].(state := Sent, ib := e.ib, bound := cost)])
  {
    FindUnique(rows, i);
    if Change(rows[i], e).Success? {
      SumUpdate(rows, i, Change(rows[i], e).value, Liability);
    }
    hide Valid, Price, Sum;
  }

  /**
   A settlement is accepted exactly for a sent row at counts within its bounds, both ends included;
   and refused for its usage exactly when a sent row is settled at counts beyond them.
   */
  lemma SettleAcceptedIff(lim: Limits, rows: seq<Row>, i: nat, e: Event)
    requires Valid(lim, rows) && i < |rows| && e.Settle? && e.id == rows[i].id
    ensures Reduce(lim, rows, e).Success? <==>
              rows[i].state == Sent && 0 <= e.input <= rows[i].ib && 0 <= e.output <= rows[i].ob
    ensures Reduce(lim, rows, e) == Failure(UsageExceedsBounds) <==>
              && rows[i].state == Sent && e.input >= 0 && e.output >= 0
              && (e.input > rows[i].ib || e.output > rows[i].ob)
    ensures rows[i].state == Sent && 0 <= e.input <= rows[i].ib && 0 <= e.output <= rows[i].ob ==>
              Reduce(lim, rows, e).value ==
                rows[i := rows[i].(state := Settled(Price(rows[i].inRate, rows[i].outRate, e.input, e.output)))]
  {
    var r := rows[i];
    FindUnique(rows, i);
    ReleaseNeverMeetsCap(lim, rows, e);
    assert RowValid(r);
    hide Valid, Exposure;
    hide Price;
  }

  /** A cancellation is accepted exactly for a reserved row, with the prewire proof. */
  lemma CancelAcceptedIff(lim: Limits, rows: seq<Row>, i: nat, e: Event)
    requires Valid(lim, rows) && i < |rows| && e.Cancel? && e.id == rows[i].id
    ensures Reduce(lim, rows, e).Success? <==> rows[i].state == Reserved && e.proof == "guarded-wire-not-consumed"
    ensures Reduce(lim, rows, e).Success? ==>
              Reduce(lim, rows, e).value == rows[i := rows[i].(state := Cancelled)]
  {
    FindUnique(rows, i);
    ReleaseNeverMeetsCap(lim, rows, e);
    hide Valid, Exposure;
  }

  /** A forfeit is accepted exactly for a row that is still reserved or sent. */
  lemma ForfeitAcceptedIff(lim: Limits, rows: seq<Row>, i: nat, e: Event)
    requires Valid(lim, rows) && i < |rows| && e.Forfeit? && e.id == rows[i].id
    ensures Reduce(lim, rows, e).Success? <==> rows[i].state == Reserved || rows[i].state == Sent
    ensures Reduce(lim, rows, e).Success? ==>
              Reduce(lim, rows, e).value == rows[i := rows[i].(state := Unknown)]
  {
    FindUnique(rows, i);
    ReleaseNeverMeetsCap(lim, rows, e);
    hide Valid, Exposure;
  }

  /** A raw RPC is accepted exactly by a campaign, for a sent row, at the next ordinal. */
  lemma RawRpcAcceptedIff(lim: Limits, rows: seq<Row>, i: nat, e: Event)
    requires Valid(lim, rows) && i < |rows| && e.RawRpc? && e.id == rows[i].id
    ensures Reduce(lim, rows, e).Success? <==>
              lim.campaign && rows[i].state == Sent && e.ordinal == rows[i].rawRpcs + 1
    ensures Reduce(lim, rows, e).Success? ==>
              Reduce(lim, rows, e).value == rows[i := rows[i].(rawRpcs := rows[i].rawRpcs + 1)]
  {
    FindUnique(rows, i);
  }

  /** Anything but a reservation needs a row of that name; a genesis is no event of a running ledger. */
  lemma StrangersAreRefused(lim: Limits, rows: seq<Row>, e: Event)
    requires e.Genesis? || (!e.Reserve? && forall k :: 0 <= k < |rows| ==> rows[k].id != e.id)
    ensures Reduce(lim, rows, e) == Failure(MissingKey)
  {
  }
}
