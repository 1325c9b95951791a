/**
 What a call comes to in a controller that is open and unbroken: which rows it needs, the one line
 it appends and the rows it leaves; only a failing journal write can come in between.
 */
module Progress {
  import opened Wrappers
  import opened Ledger
  import opened History
  import opened Journal
  import opened Controller
  import opened Acceptance

  predicate Able(m: Memory) {
    !m.broken && !m.closed
  }

  /** The event's line is appended and `rows` published, or its write failed and the controller is broken. */
  ghost predicate Journalled(c: Codec, m: Memory, b: seq<byte>, e: Event, rows: seq<Row>,
                             m': Memory, b': seq<byte>, done: Outcome)
  {
    var raw := c.dumps(Line(m.pos, m.previous, e));
    if done.Done? then
      && m' == Memory(rows, m.pos + 1, Some(c.sha(raw)), false, false)
      && b' == b + raw
    else
      && done == NotDone(JournalWriteFailed)
      && m' == m.(broken := true)
      && exists n :: 0 <= n <= |raw| && b' == b + raw[..n]
  }

  /** Nothing moved, and this is why. */
  ghost predicate Declined(m: Memory, b: seq<byte>, why: Denial, m': Memory, b': seq<byte>, done: Outcome) {
    m' == m && b' == b && done == NotDone(why)
  }

  lemma FiredJournals(c: Codec, a: Authority, m: Memory, b: seq<byte>, e: Event,
                      m': Memory, b': seq<byte>, done: Outcome)
    requires Able(m) && Fired(c, a, m, b, e, m', b', done)
    ensures match Reduce(a.lim, m.rows, e)
            case Success(rows) => Journalled(c, m, b, e, rows, m', b', done)
            case Failure(why) => Declined(m, b, Denied(why), m', b', done)
  {
    hide Reduce;
  }

  lemma {:induction false} NothingMatches(rows: seq<Row>, cell: Cell, state: State)
    requires forall k :: 0 <= k < |rows| && rows[k].cell == cell ==> rows[k].state != state
    ensures Matching(rows, cell, state) == []
  {
    if rows != [] {
      NothingMatches(rows[..|rows| - 1], cell, state);
    }
  }

  lemma {:induction false} OneMatches(rows: seq<Row>, cell: Cell, state: State, i: nat)
    requires i < |rows| && forall k :: 0 <= k < |rows| ==> (rows[k].cell == cell && rows[k].state == state <==> k == i)
    ensures Matching(rows, cell, state) == [i]
  {
    var n := |rows| - 1;
    if i == n {
      NothingMatches(rows[..n], cell, state);
    } else {
      OneMatches(rows[..n], cell, state, i);
    }
  }

  /** In a legal table a cell's row in an open state is the only one. */
  lemma OnlyOpen(lim: Limits, rows: seq<Row>, cell: Cell, i: nat)
    requires Valid(lim, rows) && i < |rows| && rows[i].cell == cell && Open(rows[i])
    ensures Matching(rows, cell, rows[i].state) == [i]
  {
    assert OneOpenPerCell(rows);
    hide Valid, Matching;
    OneMatches(rows, cell, rows[i].state, i);
  }

  /** A reservation of an idle cell goes through when its bound fits under the cap, under the next identifier. */
  lemma ReservationComesTo(c: Codec, a: Authority, m: Memory, b: seq<byte>, cell: Cell, ib: int, ob: int,
                           inRate: nat, outRate: nat, policy: Digest, m': Memory, b': seq<byte>, done: Outcome)
    requires InStep(c, a, m, b) && Able(m)
    requires Answered(c, a, m, b, DoReserve(cell, ib, ob, inRate, outRate, policy), m', b', done)
    requires ib >= 0 && ob >= 1 && Idle(m.rows, Ident(a.ns, m.pos), cell)
    ensures var id, cost := a.ns + ":" + Decimals.Show(m.pos), Price(inRate, outRate, ib, ob);
            if OverCap(a.lim, m.rows, 0, cost) then Declined(m, b, Denied(CapExceeded), m', b', done)
            else Journalled(c, m, b, Reserve(id, cell, ib, ob, inRate, outRate, policy),
                            m.rows + [Row(id, cell, ib, ob, inRate, outRate, policy, Reserved, cost, cost, ib, 0)],
                            m', b', done)
  {
    MemoryValid(c, a, m, b);
    var e := Reserve(Ident(a.ns, m.pos), cell, ib, ob, inRate, outRate, policy);
    ReserveAcceptedIff(a.lim, m.rows, e);
    hide InStep, Valid, Reduce, Fired, Idle, Journalled;
    FiredJournals(c, a, m, b, e, m', b', done);
  }

  /** Dispatching a cell's reserved row at its output limit goes through when the new price fits under the cap. */
  lemma DispatchComesTo(c: Codec, a: Authority, m: Memory, b: seq<byte>, cell: Cell, payload: Payload, i: nat,
                        m': Memory, b': seq<byte>, done: Outcome)
    requires InStep(c, a, m, b) && Able(m) && Answered(c, a, m, b, DoDispatch(cell, payload), m', b', done)
    requires i < |m.rows| && m.rows[i].cell == cell && m.rows[i].state == Reserved
    ensures var r := m.rows[i];
            var ib := if payload.inputBound <= r.ib then r.ib else payload.inputBound;
            var cost := Price(r.inRate, r.outRate, ib, r.ob);
            if payload.output != Some(r.ob) then Declined(m, b, WireOutputChanged, m', b', done)
            else if OverCap(a.lim, m.rows, r.bound, cost) then Declined(m, b, Denied(CapExceeded), m', b', done)
            else Journalled(c, m, b, Dispatch(r.id, ib, payload.digest),
                            m.rows[i := r.(state := Sent, ib := ib, bound := cost)], m', b', done)
  {
    MemoryValid(c, a, m, b);
    OnlyOpen(a.lim, m.rows, cell, i);
    hide InStep, Valid, Reduce, Fired, Matching, Journalled, Price;
    var r := m.rows[i];
    if payload.output == Some(r.ob) {
      var ib := if payload.inputBound <= r.ib then r.ib else payload.inputBound;
      var e := Dispatch(r.id, ib, payload.digest);
      DispatchAcceptedIff(a.lim, m.rows, i, e);
      FiredJournals(c, a, m, b, e, m', b', done);
    }
  }

  /** Without a reserved row of the cell there is nothing to dispatch. */
  lemma DispatchNeedsAdmission(c: Codec, a: Authority, m: Memory, b: seq<byte>, cell: Cell, payload: Payload,
                               m': Memory, b': seq<byte>, done: Outcome)
    requires Answered(c, a, m, b, DoDispatch(cell, payload), m', b', done)
    requires forall k :: 0 <= k < |m.rows| && m.rows[k].cell == cell ==> m.rows[k].state != Reserved
    ensures Declined(m, b, NoOneUseAdmission, m', b', done)
  {
    NothingMatches(m.rows, cell, Reserved);
    hide Matching;
  }

  /** A settlement goes through for a sent row at counts within its bounds, both ends included. */
  lemma SettlementComesTo(c: Codec, a: Authority, m: Memory, b: seq<byte>, i: nat, input: int, output: int,
                          m': Memory, b': seq<byte>, done: Outcome)
    requires InStep(c, a, m, b) && Able(m) && i < |m.rows|
    requires Answered(c, a, m, b, DoSettle(m.rows[i].id, Some(input), Some(output)), m', b', done)
    ensures var r := m.rows[i];
            if r.state == Sent && 0 <= input <= r.ib && 0 <= output <= r.ob then
              Journalled(c, m, b, Settle(r.id, input, output),
                         m.rows[i := r.(state := Settled(Price(r.inRate, r.outRate, input, output)))], m', b', done)
            else
              && done.NotDone? && done.why.Denied? && m' == m && b' == b
              && (done.why.why == UsageExceedsBounds <==> r.state == Sent && input >= 0 && output >= 0)
  {
    MemoryValid(c, a, m, b);
    var e := Settle(m.rows[i].id, input, output);
    hide InStep, Valid, Reduce, Fired, Journalled, Price;
    SettleAcceptedIff(a.lim, m.rows, i, e);
    FiredJournals(c, a, m, b, e, m', b', done);
  }

  /** A forfeit, or a settlement without usage, goes through for a row still reserved or sent. */
  lemma ForfeitComesTo(c: Codec, a: Authority, m: Memory, b: seq<byte>, i: nat, call: Call,
                       m': Memory, b': seq<byte>, done: Outcome)
    requires InStep(c, a, m, b) && Able(m) && i < |m.rows| && Answered(c, a, m, b, call, m', b', done)
    requires || call == DoForfeit(m.rows[i].id)
             || (call.DoSettle? && call.id == m.rows[i].id && (call.input.None? || call.output.None?))
    ensures var r := m.rows[i];
            if r.state == Reserved || r.state == Sent then
              Journalled(c, m, b, Forfeit(r.id), m.rows[i := r.(state := Unknown)], m', b', done)
            else
              done.NotDone? && done.why.Denied? && m' == m && b' == b
  {
    MemoryValid(c, a, m, b);
    var e := Forfeit(m.rows[i].id);
    hide InStep, Valid, Reduce, Fired, Journalled;
    ForfeitAcceptedIff(a.lim, m.rows, i, e);
    FiredJournals(c, a, m, b, e, m', b', done);
  }

  /** A cancellation goes through for a reserved row. */
  lemma CancelComesTo(c: Codec, a: Authority, m: Memory, b: seq<byte>, i: nat, m': Memory, b': seq<byte>, done: Outcome)
    requires InStep(c, a, m, b) && Able(m) && i < |m.rows|
    requires Answered(c, a, m, b, DoCancel(m.rows[i].id), m', b', done)
    ensures var r := m.rows[i];
            if r.state == Reserved then
              Journalled(c, m, b, Cancel(r.id, "guarded-wire-not-consumed"),
                         m.rows[i := r.(state := Cancelled)], m', b', done)
            else
              done.NotDone? && done.why.Denied? && m' == m && b' == b
  {
    MemoryValid(c, a, m, b);
    var e := Cancel(m.rows[i].id, CANCEL_PROOF);
    hide InStep, Valid, Reduce, Fired, Journalled;
    CancelAcceptedIff(a.lim, m.rows, i, e);
    FiredJournals(c, a, m, b, e, m', b', done);
  }

  /** A raw RPC of a cell with a sent row always goes through, and counts one more on that row alone. */
  lemma RawRpcComesTo(c: Codec, a: Authority, m: Memory, b: seq<byte>, cell: Cell, endpoint: string, request: Digest,
                      i: nat, m': Memory, b': seq<byte>, done: Outcome)
    requires InStep(c, a, m, b) && Able(m) && a.lim.campaign
    requires Answered(c, a, m, b, DoRawRpc(cell, endpoint, request), m', b', done)
    requires i < |m.rows| && m.rows[i].cell == cell && m.rows[i].state == Sent
    ensures var r := m.rows[i];
            Journalled(c, m, b, RawRpc(r.id, r.rawRpcs + 1, endpoint, request),
                       m.rows[i := r.(rawRpcs := r.rawRpcs + 1)], m', b', done)
  {
    MemoryValid(c, a, m, b);
    OnlyOpen(a.lim, m.rows, cell, i);
    hide InStep, Valid, Reduce, Fired, Matching, Journalled;
    var e := RawRpc(m.rows[i].id, m.rows[i].rawRpcs + 1, endpoint, request);
    RawRpcAcceptedIff(a.lim, m.rows, i, e);
    FiredJournals(c, a, m, b, e, m', b', done);
  }

  /** Without a sent row of the cell there is no RPC to make. */
  lemma RawRpcNeedsDispatch(c: Codec, a: Authority, m: Memory, b: seq<byte>, cell: Cell, endpoint: string,
                            request: Digest, m': Memory, b': seq<byte>, done: Outcome)
    requires Able(m) && Answered(c, a, m, b, DoRawRpc(cell, endpoint, request), m', b', done)
    requires forall k :: 0 <= k < |m.rows| && m.rows[k].cell == cell ==> m.rows[k].state != Sent
    ensures Declined(m, b, NoDispatchedReservation, m', b', done)
  {
    NothingMatches(m.rows, cell, Sent);
    hide Matching;
  }

  /** A call on a name no row has is refused. */
  lemma StrangersComeToNothing(c: Codec, a: Authority, m: Memory, b: seq<byte>, call: Call,
                               m': Memory, b': seq<byte>, done: Outcome)
    requires Able(m) && Answered(c, a, m, b, call, m', b', done)
    requires call.DoSettle? || call.DoForfeit? || call.DoCancel?
    requires forall k :: 0 <= k < |m.rows| ==> m.rows[k].id != call.id
    ensures Declined(m, b, Denied(MissingKey), m', b', done)
  {
    var e := Request(a, m, call).value;
    StrangersAreRefused(a.lim, m.rows, e);
    hide Reduce;
  }
}
