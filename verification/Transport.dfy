/** The transport a cell's client sends through: dispatch is journalled before anything goes out. */
module Transport {
  import opened Wrappers
  import opened Ledger
  import opened Journal
  import opened Controller
  import opened Budgets

  /** The journal already answers for this body: a sent row of the cell whose bounds cover it. */
  ghost predicate AnsweredFor(rows: seq<Row>, cell: Cell, payload: Payload) {
    exists i :: 0 <= i < |rows| && CoversBody(rows[i], cell, payload)
  }

  predicate CoversBody(r: Row, cell: Cell, payload: Payload) {
    && r.cell == cell && r.state == Sent
    && payload.output == Some(r.ob) && payload.inputBound <= r.ib
    && r.bound == r.ib * r.inRate + r.ob * r.outRate
  }

  lemma DispatchEffect(lim: Limits, rows: seq<Row>, e: Event, i: nat)
    requires Valid(lim, rows) && i < |rows| && e.Dispatch? && e.id == rows[i].id
    requires Reduce(lim, rows, e).Success?
    ensures var next := Reduce(lim, rows, e).value;
            && i < |next| && next[i].cell == rows[i].cell && next[i].ob == rows[i].ob
            && next[i].state == Sent && next[i].ib == e.ib
            && next[i].bound == next[i].ib * next[i].inRate + next[i].ob * next[i].outRate
  {
    FindUnique(rows, i);
    PriceIsLinear(rows[i].inRate, rows[i].outRate, e.ib, rows[i].ob);
  }

  /** A dispatch that went through fired the cell's one candidate, at the body's output limit. */
  lemma DispatchFired(c: Codec, a: Authority, m: Memory, b: seq<byte>, cell: Cell, payload: Payload,
                      m': Memory, b': seq<byte>) returns (e: Event, i: nat)
    requires Answered(c, a, m, b, DoDispatch(cell, payload), m', b', Done)
    ensures i < |m.rows| && m.rows[i].cell == cell && Matching(m.rows, cell, Reserved) == [i]
    ensures payload.output == Some(m.rows[i].ob)
    ensures e == Ledger.Dispatch(m.rows[i].id, Max(m.rows[i].ib, payload.inputBound), payload.digest)
    ensures Fired(c, a, m, b, e, m', b', Done) && Reduce(a.lim, m.rows, e) == Success(m'.rows)
  {
    hide Reduce;
    e := Request(a, m, DoDispatch(cell, payload)).value;
    i := Matching(m.rows, cell, Reserved)[0];
  }

  /** What a call that went through published is what the journal holds. */
  lemma DoneIsDurable(c: Codec, a: Authority, m: Memory, b: seq<byte>, e: Event, m': Memory, b': seq<byte>)
    requires Sound(c) && InStep(c, a, m, b) && Fired(c, a, m, b, e, m', b', Done)
    ensures Durable(c, a, b').Success? && Durable(c, a, b').value.rows == m'.rows
  {
    FiredStaysInStep(c, a, m, b, e, m', b', Done);
    hide Fired, Sound, Durable, Valid, DiskStep, AheadByOne;
  }

  lemma DispatchCoversBody(c: Codec, a: Authority, m: Memory, b: seq<byte>, cell: Cell, payload: Payload,
                           m': Memory, b': seq<byte>)
    requires Sound(c) && InStep(c, a, m, b)
    requires Answered(c, a, m, b, DoDispatch(cell, payload), m', b', Done)
    ensures Durable(c, a, b').Success? && AnsweredFor(Durable(c, a, b').value.rows, cell, payload)
  {
    hide InStep, Fired, Answered, Sound, Durable, Valid, Reduce, Matching;
    var e, i := DispatchFired(c, a, m, b, cell, payload, m', b');
    DoneIsDurable(c, a, m, b, e, m', b');
    MemoryValid(c, a, m, b);
    DispatchEffect(a.lim, m.rows, e, i);
    assert CoversBody(m'.rows[i], cell, payload);
  }

  class DispatchTransport {
    const budget: Budget
    const cell: Cell
    var sent: seq<Payload>

    constructor (budget: Budget, cell: Cell)
      ensures this.budget == budget && this.cell == cell && sent == []
    {
      this.budget, this.cell, sent := budget, cell, [];
    }

    /** The wire sees the body only once the journal durably answers for it. */
    method HandleRequest(payload: Payload) returns (done: Outcome)
      requires budget.Ready()
      modifies this, budget, budget.file
      ensures budget.Ready()
      ensures Answered(budget.codec, budget.authority, old(budget.Mem()), old(budget.file.bytes),
                       DoDispatch(cell, payload), budget.Mem(), budget.file.bytes, done)
      ensures budget.file.Explains(old(budget.file.faults), done)
      ensures budget.Steady(old(budget.Mem()), old(budget.file.faults))
      ensures done.NotDone? ==> sent == old(sent)
      ensures done.Done? ==>
                && sent == old(sent) + [payload]
                && Durable(budget.codec, budget.authority, budget.file.bytes).Success?
                && AnsweredFor(Durable(budget.codec, budget.authority, budget.file.bytes).value.rows, cell, payload)
    {
      done := budget.Dispatch(cell, payload);
      hide InStep, Sound, Answered;
      if done.Done? {
        DispatchCoversBody(budget.codec, budget.authority, old(budget.Mem()), old(budget.file.bytes),
                           cell, payload, budget.Mem(), budget.file.bytes);
        sent := sent + [payload];
      }
    }
  }
}
