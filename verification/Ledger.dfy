/**
 The settled ledger: one row for each provider attempt and one reducer that
 moves rows along. Amounts are exact integers in one fixed decimal unit, chosen
 so that a token at the finest rate in use costs a whole number of units; the
 source divides by a million where this unit is already that small.

 A Python dict keeps insertion order and this one never loses a key, so the
 rows are a sequence and a row keeps its position for life.
 */
module Ledger {
  import opened Wrappers

  type Id = string
  type Cell = string
  type Digest = string

  datatype State = Reserved | Sent | Settled(actual: nat) | Unknown | Cancelled

  datatype Row = Row(
    id: Id,
    cell: Cell,
    ib: nat,
    ob: nat,
    inRate: nat,
    outRate: nat,
    policy: Digest,
    state: State,
    bound: nat,
    initialBound: nat,
    initialIb: nat,
    rawRpcs: nat)

  datatype Event =
    | Genesis(ns: string, limit: Option<nat>, profile: string)
    | Reserve(id: Id, cell: Cell, ib: int, ob: int, inRate: int, outRate: int, policy: Digest)
    | Dispatch(id: Id, ib: int, payload: Digest)
    | Cancel(id: Id, proof: string)
    | Forfeit(id: Id)
    | Settle(id: Id, input: int, output: int)
    | RawRpc(id: Id, ordinal: int, endpoint: string, request: Digest)

  datatype Refusal =
    | MissingKey
    | DuplicateAdmission
    | InvalidTokenCount
    | InvalidAmount
    | DispatchConsumed
    | ShrinkingWireBound
    | NoPrewireProof
    | AlreadyResolved
    | NotSent
    | UsageExceedsBounds
    | OverSettlement
    | UnknownEvent
    | InvalidRawRpc
    | CapExceeded

  /** `campaign` selects the successor's reducer, which also knows raw RPCs. */
  datatype Limits = Limits(cap: Option<nat>, campaign: bool)

  const CANCEL_PROOF := "guarded-wire-not-consumed"

  // ------------------------------------------------------------ amounts

  /**
   What this many tokens cost at a rate: their product, as `AtRateIsProduct` says. It is added up
   token by token so that a proof which unfolds the reducer has nothing to multiply.
   */
  function AtRate(tokens: nat, rate: nat): nat {
    if tokens == 0 then 0 else AtRate(tokens - 1, rate) + rate
  }

  lemma {:induction false} AtRateIsProduct(tokens: nat, rate: nat)
    ensures AtRate(tokens, rate) == tokens * rate
  {
    if tokens > 0 {
      AtRateIsProduct(tokens - 1, rate);
      assert (tokens - 1) * rate + rate == tokens * rate;
    }
  }

  function Price(inRate: nat, outRate: nat, input: nat, output: nat): nat {
    AtRate(input, inRate) + AtRate(output, outRate)
  }

  /** Input tokens times the input rate, plus output tokens times the output rate. */
  lemma PriceIsLinear(inRate: nat, outRate: nat, input: nat, output: nat)
    ensures Price(inRate, outRate, input, output) == input * inRate + output * outRate
  {
    AtRateIsProduct(input, inRate);
    AtRateIsProduct(output, outRate);
  }

  lemma {:induction false} AtRateGrows(tokens: nat, tokens': nat, rate: nat)
    requires tokens <= tokens'
    ensures AtRate(tokens, rate) <= AtRate(tokens', rate)
    decreases tokens'
  {
    if tokens < tokens' {
      AtRateGrows(tokens, tokens' - 1, rate);
    }
  }

  lemma PriceMonotone(inRate: nat, outRate: nat, i: nat, o: nat, i': nat, o': nat)
    requires i <= i' && o <= o'
    ensures Price(inRate, outRate, i, o) <= Price(inRate, outRate, i', o')
  {
    hide AtRate;
    AtRateGrows(i, i', inRate);
    AtRateGrows(o, o', outRate);
  }

  predicate Open(r: Row) {
    r.state.Reserved? || r.state.Sent?
  }

  /** What a row counts for against the cap. */
  function Liability(r: Row): nat {
    match r.state
    case Settled(actual) => actual
    case Cancelled => 0
    case _ => r.bound
  }

  function SettledAmount(r: Row): nat {
    if r.state.Settled? then r.state.actual else 0
  }

  function OpenAmount(r: Row): nat {
    if Open(r) then r.bound else 0
  }

  function UnknownAmount(r: Row): nat {
    if r.state.Unknown? then r.bound else 0
  }

  function Sum(rows: seq<Row>, f: Row -> nat): nat {
    if rows == [] then 0 else Sum(rows[..|rows| - 1], f) + f(rows[|rows| - 1])
  }

  function Exposure(rows: seq<Row>): nat {
    Sum(rows, Liability)
  }

  lemma {:induction false} SumAppend(rows: seq<Row>, r: Row, f: Row -> nat)
    ensures Sum(rows + [r], f) == Sum(rows, f) + f(r)
  {
    assert (rows + [r])[..|rows|] == rows;
  }

  lemma {:induction false} SumUpdate(rows: seq<Row>, i: nat, r: Row, f: Row -> nat)
    requires i < |rows|
    ensures Sum(rows[i := r], f) + f(rows[i]) == Sum(rows, f) + f(r)
  {
    var n := |rows| - 1;
    if i == n {
      assert rows[i := r][..n] == rows[..n];
    } else {
      assert rows[i := r][..n] == rows[..n][i := r];
      SumUpdate(rows[..n], i, r, f);
    }
  }

  lemma {:induction false} SumAtLeast(rows: seq<Row>, i: nat, f: Row -> nat)
    requires i < |rows|
    ensures f(rows[i]) <= Sum(rows, f)
  {
    if i < |rows| - 1 {
      SumAtLeast(rows[..|rows| - 1], i, f);
    }
  }

  // ------------------------------------------------------------ the reducer

  /** The position of the row named `id`, or the number of rows when there is none. */
  function Find(rows: seq<Row>, id: Id): (i: nat)
    ensures i <= |rows|
    ensures i < |rows| ==> rows[i].id == id
    ensures forall k :: 0 <= k < i ==> rows[k].id != id
  {
    if rows == [] then 0
    else if rows[0].id == id then 0
    else 1 + Find(rows[1..], id)
  }

  predicate Busy(rows: seq<Row>, cell: Cell) {
    exists i :: 0 <= i < |rows| && rows[i].cell == cell && Open(rows[i])
  }

  function Admit(rows: seq<Row>, e: Event): Result<Row, Refusal>
    requires e.Reserve?
  {
    if Find(rows, e.id) < |rows| || Busy(rows, e.cell) then Failure(DuplicateAdmission)
    else if e.ib < 0 || e.ob < 1 then Failure(InvalidTokenCount)
    else if e.inRate < 0 || e.outRate < 0 then Failure(InvalidAmount)
    else
      var bound := Price(e.inRate, e.outRate, e.ib, e.ob);
      Success(Row(e.id, e.cell, e.ib, e.ob, e.inRate, e.outRate, e.policy,
                  Reserved, bound, bound, e.ib, 0))
  }

  /** The row an event moves to, before the cap is looked at. */
  function Change(r: Row, e: Event): Result<Row, Refusal>
    requires !e.Genesis? && !e.Reserve?
  {
    match e
    case Dispatch(_, ib, _) =>
      if r.state != Reserved then Failure(DispatchConsumed)
      else if ib < 0 then Failure(InvalidTokenCount)
      else if ib < r.ib then Failure(ShrinkingWireBound)
      else Success(r.(ib := ib, bound := Price(r.inRate, r.outRate, ib, r.ob), state := Sent))
    case Cancel(_, proof) =>
      if r.state != Reserved || proof != CANCEL_PROOF then Failure(NoPrewireProof)
      else Success(r.(state := Cancelled))
    case Forfeit(_) =>
      if !Open(r) then Failure(AlreadyResolved) else Success(r.(state := Unknown))
    case Settle(_, input, output) =>
      if r.state != Sent then Failure(NotSent)
      else if input < 0 || output < 0 then Failure(InvalidTokenCount)
      else if input > r.ib || output > r.ob then Failure(UsageExceedsBounds)
      else
        var actual := Price(r.inRate, r.outRate, input, output);
        if actual > r.bound then Failure(OverSettlement)
        else Success(r.(state := Settled(actual)))
    case RawRpc(_, _, _, _) => Failure(UnknownEvent)
  }

  function CountRpc(r: Row, ordinal: int): Result<Row, Refusal> {
    if r.state != Sent || ordinal != r.rawRpcs + 1 then Failure(InvalidRawRpc)
    else Success(r.(rawRpcs := ordinal))
  }

  function WithinCap(lim: Limits, rows: seq<Row>): Result<seq<Row>, Refusal> {
    if lim.cap.Some? && Exposure(rows) > lim.cap.value then Failure(CapExceeded)
    else Success(rows)
  }

  function Reduce(lim: Limits, rows: seq<Row>, e: Event): Result<seq<Row>, Refusal> {
    if e.Genesis? then Failure(MissingKey)
    else if e.Reserve? then
      var r :- Admit(rows, e);
      WithinCap(lim, rows + [r])
    else
      var i := Find(rows, e.id);
      if i == |rows| then Failure(MissingKey)
      else if e.RawRpc? && lim.campaign then
        var r :- CountRpc(rows[i], e.ordinal);
        Success(rows[i := r])
      else
        var r :- Change(rows[i], e);
        WithinCap(lim, rows[i := r])
  }

  /** An accepted event other than a reservation or a raw RPC changes its row in place. */
  lemma ChangeInPlace(lim: Limits, rows: seq<Row>, e: Event, next: seq<Row>)
    requires !e.Genesis? && !e.Reserve? && !e.RawRpc? && Reduce(lim, rows, e) == Success(next)
    ensures Find(rows, e.id) < |rows|
    ensures Change(rows[Find(rows, e.id)], e).Success?
    ensures next == rows[Find(rows, e.id) := Change(rows[Find(rows, e.id)], e).value]
  {
    hide Admit, Change, CountRpc, Price, Exposure;
  }

  // ------------------------------------------------------------ what every step keeps

  predicate RowValid(r: Row) {
    && r.ob >= 1
    && r.initialIb <= r.ib
    && r.bound == Price(r.inRate, r.outRate, r.ib, r.ob)
    && r.initialBound == Price(r.inRate, r.outRate, r.initialIb, r.ob)
    && (r.state.Settled? ==> r.state.actual <= r.bound)
    && (r.state.Reserved? || r.state.Cancelled? ==> r.ib == r.initialIb && r.rawRpcs == 0)
  }

  ghost predicate DistinctIds(rows: seq<Row>) {
    forall i, j :: 0 <= i < j < |rows| ==> rows[i].id != rows[j].id
  }

  ghost predicate OneOpenPerCell(rows: seq<Row>) {
    forall i, j :: 0 <= i < j < |rows| && Open(rows[i]) && Open(rows[j]) ==> rows[i].cell != rows[j].cell
  }

  ghost predicate Capped(lim: Limits, rows: seq<Row>) {
    lim.cap.Some? ==>
      && Exposure(rows) <= lim.cap.value
      && forall i :: 0 <= i < |rows| ==> rows[i].initialBound <= lim.cap.value
  }

  ghost predicate Valid(lim: Limits, rows: seq<Row>) {
    && (forall i :: 0 <= i < |rows| ==> RowValid(rows[i]))
    && DistinctIds(rows)
    && OneOpenPerCell(rows)
    && Capped(lim, rows)
  }

  /** In a table with distinct ids the row found is the only one of its name. */
  lemma FindUnique(rows: seq<Row>, i: nat)
    requires i < |rows| && DistinctIds(rows)
    ensures Find(rows, rows[i].id) == i
  {
  }

  /** The only things a row never gives up: who it is, whose it is and at what rates. */
  predicate SameAttempt(r: Row, r': Row) {
    && r'.id == r.id && r'.cell == r.cell && r'.ob == r.ob
    && r'.inRate == r.inRate && r'.outRate == r.outRate && r'.policy == r.policy
    && r'.initialBound == r.initialBound && r'.initialIb == r.initialIb
  }

  /** Reserved to sent, open to resolved, and nothing after that. */
  predicate Advances(r: Row, r': Row) {
    match r.state
    case Reserved => r'.rawRpcs == r.rawRpcs && (if r'.state.Sent? then r.ib <= r'.ib && r.bound <= r'.bound
                     else (r'.state.Unknown? || r'.state.Cancelled?) && r'.ib == r.ib && r'.bound == r.bound)
    case Sent => r'.ib == r.ib && r'.bound == r.bound &&
                 (if r'.state.Sent? then r'.rawRpcs == r.rawRpcs + 1
                  else (r'.state.Unknown? || r'.state.Settled?) && r'.rawRpcs == r.rawRpcs)
    case _ => false
  }

  /** A step adds one reserved row for an idle cell, or advances exactly one open row. */
  ghost predicate OneRowStep(rows: seq<Row>, id: Id, next: seq<Row>) {
    || (|next| == |rows| + 1 && next[..|rows|] == rows && next[|rows|].id == id
        && next[|rows|].state == Reserved && !Busy(rows, next[|rows|].cell))
    || exists i :: 0 <= i < |rows| && rows[i].id == id && |next| == |rows| && next == rows[i := next[i]]
                   && SameAttempt(rows[i], next[i]) && Advances(rows[i], next[i])
  }

  lemma StepChangesOneRow(lim: Limits, rows: seq<Row>, e: Event)
    requires Valid(lim, rows)
    requires Reduce(lim, rows, e).Success?
    ensures !e.Genesis?
    ensures OneRowStep(rows, e.id, Reduce(lim, rows, e).value)
  {
    var next := Reduce(lim, rows, e).value;
    if e.Reserve? {
      assert next[..|rows|] == rows;
    } else {
      var i := Find(rows, e.id);
      assert RowValid(rows[i]);
      if e.Dispatch? {
        PriceMonotone(rows[i].inRate, rows[i].outRate, rows[i].ib, rows[i].ob, e.ib, rows[i].ob);
      }
      assert next == rows[i := next[i]];
      assert SameAttempt(rows[i], next[i]) && Advances(rows[i], next[i]);
    }
  }

  lemma StepKeepsRows(lim: Limits, rows: seq<Row>, e: Event)
    requires Valid(lim, rows)
    requires Reduce(lim, rows, e).Success?
    ensures var next := Reduce(lim, rows, e).value;
            forall i :: 0 <= i < |next| ==> RowValid(next[i])
  {
    var next := Reduce(lim, rows, e).value;
    forall i | 0 <= i < |next| ensures RowValid(next[i]) {
      if i < |rows| {
        assert RowValid(rows[i]);
        if next[i] != rows[i] && e.Dispatch? {
          assert i == Find(rows, e.id);
        }
      }
    }
  }

  lemma StepKeepsCap(lim: Limits, rows: seq<Row>, e: Event)
    requires Valid(lim, rows)
    requires Reduce(lim, rows, e).Success?
    ensures Capped(lim, Reduce(lim, rows, e).value)
  {
    if lim.cap.Some? {
      StepKeepsExposure(lim, rows, e);
      StepKeepsInitialBounds(lim, rows, e);
    }
    hide Reduce, Valid, Exposure;
  }

  /** The closing test holds the new exposure to the cap; a raw RPC, which skips it, changes no liability. */
  lemma StepKeepsExposure(lim: Limits, rows: seq<Row>, e: Event)
    requires Capped(lim, rows) && Reduce(lim, rows, e).Success? && lim.cap.Some?
    ensures Exposure(Reduce(lim, rows, e).value) <= lim.cap.value
  {
    hide Admit, Change;
    if e.RawRpc? {
      var i, next := Find(rows, e.id), Reduce(lim, rows, e).value;
      SumUpdate(rows, i, next[i], Liability);
    }
  }

  lemma StepKeepsInitialBounds(lim: Limits, rows: seq<Row>, e: Event)
    requires Capped(lim, rows) && Reduce(lim, rows, e).Success? && lim.cap.Some?
    ensures var next := Reduce(lim, rows, e).value;
            forall k :: 0 <= k < |next| ==> next[k].initialBound <= lim.cap.value
  {
    var next := Reduce(lim, rows, e).value;
    if e.Reserve? {
      StepKeepsExposure(lim, rows, e);
      SumAtLeast(next, |rows|, Liability);
      hide Exposure, Sum;
      forall k | 0 <= k < |next| ensures next[k].initialBound <= lim.cap.value {
        if k < |rows| { assert next[k] == rows[k]; }
      }
    } else {
      hide Exposure, Price;
      forall k | 0 <= k < |next| ensures next[k].initialBound <= lim.cap.value {
        assert next[k].initialBound == rows[k].initialBound;
      }
    }
  }

  /** Every accepted event keeps the whole ledger invariant. */
  lemma StepKeepsValid(lim: Limits, rows: seq<Row>, e: Event)
    requires Valid(lim, rows)
    requires Reduce(lim, rows, e).Success?
    ensures Valid(lim, Reduce(lim, rows, e).value)
  {
    StepKeepsRows(lim, rows, e);
    StepKeepsCap(lim, rows, e);
    StepKeepsOneOpen(lim, rows, e);
    hide Reduce, RowValid, Capped, DistinctIds, OneOpenPerCell;
  }

  lemma StepKeepsOneOpen(lim: Limits, rows: seq<Row>, e: Event)
    requires DistinctIds(rows) && OneOpenPerCell(rows) && Reduce(lim, rows, e).Success?
    ensures var next := Reduce(lim, rows, e).value;
            DistinctIds(next) && OneOpenPerCell(next)
  {
    hide Price, Exposure;
    var next := Reduce(lim, rows, e).value;
    if e.Reserve? {
      assert forall i :: 0 <= i < |rows| ==> next[i] == rows[i];
    } else {
      var i := Find(rows, e.id);
      assert next == rows[i := next[i]];
      assert next[i].id == rows[i].id && next[i].cell == rows[i].cell;
      assert Open(next[i]) ==> Open(rows[i]);
    }
  }

  /** An event that only resolves or counts: everything but reserve and dispatch. */
  predicate Releases(e: Event) {
    e.Cancel? || e.Forfeit? || e.Settle? || e.RawRpc?
  }

  /**
   Settling, forfeiting, cancelling and counting an RPC never raise exposure, so
   the cap can refuse only a reservation or a dispatch, and the reducer's second
   settlement check never fires.
   */
  lemma ReleaseNeverMeetsCap(lim: Limits, rows: seq<Row>, e: Event)
    requires Valid(lim, rows) && Releases(e)
    ensures Reduce(lim, rows, e) != Failure(CapExceeded)
    ensures Reduce(lim, rows, e) != Failure(OverSettlement)
    ensures Reduce(lim, rows, e).Success? ==> Exposure(Reduce(lim, rows, e).value) <= Exposure(rows)
  {
    hide DistinctIds, OneOpenPerCell, Sum, Admit;
    var i := Find(rows, e.id);
    if i < |rows| {
      var r := rows[i];
      assert RowValid(r);
      if e.Settle? && 0 <= e.input <= r.ib && 0 <= e.output <= r.ob {
        PriceMonotone(r.inRate, r.outRate, e.input, e.output, r.ib, r.ob);
      }
      if e.RawRpc? {
        if CountRpc(r, e.ordinal).Success? {
          SumUpdate(rows, i, CountRpc(r, e.ordinal).value, Liability);
        }
      } else if Change(r, e).Success? {
        SumUpdate(rows, i, Change(r, e).value, Liability);
      }
    }
  }

  /** An open row can always be forfeited, at no change in exposure. */
  lemma OpenRowForfeits(lim: Limits, rows: seq<Row>, i: nat)
    requires Valid(lim, rows) && i < |rows| && Open(rows[i])
    ensures Reduce(lim, rows, Forfeit(rows[i].id)) == Success(rows[i := rows[i].(state := Unknown)])
    ensures Exposure(rows[i := rows[i].(state := Unknown)]) == Exposure(rows)
  {
    FindUnique(rows, i);
    SumUpdate(rows, i, rows[i].(state := Unknown), Liability);
  }
}
