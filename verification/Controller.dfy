/**
 The controller between its callers, its memory and the journal bytes, stated
 once as relations: the Budget class is proved to move by them and the crash
 model takes its steps from them.
 */
module Controller {
  import opened Wrappers
  import opened Ledger
  import opened History
  import opened Journal

  datatype Memory = Memory(rows: seq<Row>, pos: nat, previous: Option<Digest>, broken: bool, closed: bool)

  /** What dispatch reads of a request body: its output limit and its input token bound. */
  datatype Payload = Payload(output: Option<int>, inputBound: nat, digest: Digest)

  datatype Call =
    | DoReserve(cell: Cell, ib: int, ob: int, inRate: nat, outRate: nat, policy: Digest)
    | DoDispatch(cell: Cell, payload: Payload)
    | DoSettle(id: Id, input: Option<int>, output: Option<int>)
    | DoForfeit(id: Id)
    | DoCancel(id: Id)
    | DoRawRpc(cell: Cell, endpoint: string, request: Digest)

  datatype Denial =
    | Frozen
    | NoOneUseAdmission
    | WireOutputChanged
    | NoDispatchedReservation
    | Denied(why: Refusal)
    | JournalWriteFailed

  /** How a call ended. */
  datatype Outcome = Done | NotDone(why: Denial)

  /** Positions of this cell's rows in the given state. */
  function Matching(rows: seq<Row>, cell: Cell, state: State): (m: seq<nat>)
    ensures forall k :: 0 <= k < |m| ==> m[k] < |rows| && rows[m[k]].cell == cell && rows[m[k]].state == state
    ensures forall i :: 0 <= i < |rows| && rows[i].cell == cell && rows[i].state == state ==> i in m
  {
    if rows == [] then []
    else
      var n := |rows| - 1;
      var front := Matching(rows[..n], cell, state);
      if rows[n].cell == cell && rows[n].state == state then front + [n] else front
  }

  function Max(x: nat, y: nat): nat {
    if x < y then y else x
  }

  /** The journal event a call asks for, or the denial made before any event exists. */
  function Request(a: Authority, m: Memory, call: Call): Result<Event, Denial> {
    match call
    case DoReserve(cell, ib, ob, inRate, outRate, policy) =>
      Success(Reserve(Ident(a.ns, m.pos), cell, ib, ob, inRate, outRate, policy))
    case DoDispatch(cell, payload) =>
      var found := Matching(m.rows, cell, Reserved);
      if |found| != 1 then Failure(NoOneUseAdmission)
      else
        var r := m.rows[found[0]];
        if payload.output != Some(r.ob) then Failure(WireOutputChanged)
        else Success(Dispatch(r.id, Max(r.ib, payload.inputBound), payload.digest))
    case DoSettle(id, input, output) =>
      if input.None? || output.None? then Success(Forfeit(id))
      else Success(Settle(id, input.value, output.value))
    case DoForfeit(id) => Success(Forfeit(id))
    case DoCancel(id) => Success(Cancel(id, CANCEL_PROOF))
    case DoRawRpc(cell, endpoint, request) =>
      if m.broken then Failure(Frozen)
      else
        var found := Matching(m.rows, cell, Sent);
        if |found| != 1 then Failure(NoDispatchedReservation)
        else
          var r := m.rows[found[0]];
          Success(RawRpc(r.id, r.rawRpcs + 1, endpoint, request))
  }

  /** One event against memory and file: refused whole, journalled then published, or journalled in part and broken. */
  ghost predicate Fired(c: Codec, a: Authority, m: Memory, b: seq<byte>, e: Event,
                        m': Memory, b': seq<byte>, done: Outcome)
  {
    if m.broken || m.closed then m' == m && b' == b && done == NotDone(Frozen)
    else match Reduce(a.lim, m.rows, e)
      case Failure(why) => m' == m && b' == b && done == NotDone(Denied(why))
      case Success(rows) =>
        var raw := c.dumps(Line(m.pos, m.previous, e));
        if done.Done? then
          && m' == m.(rows := rows, pos := m.pos + 1, previous := Some(c.sha(raw)))
          && b' == b + raw
        else
          && done == NotDone(JournalWriteFailed)
          && m' == m.(broken := true)
          && exists n :: 0 <= n <= |raw| && b' == b + raw[..n]
  }

  ghost predicate Answered(c: Codec, a: Authority, m: Memory, b: seq<byte>, call: Call,
                           m': Memory, b': seq<byte>, done: Outcome)
  {
    match Request(a, m, call)
    case Failure(why) => m' == m && b' == b && done == NotDone(why)
    case Success(e) => Fired(c, a, m, b, e, m', b', done)
  }

  /** A call that went through reduced its event. */
  lemma DoneMeansReduced(c: Codec, a: Authority, m: Memory, b: seq<byte>, call: Call, m': Memory, b': seq<byte>)
    requires Answered(c, a, m, b, call, m', b', Done)
    ensures Request(a, m, call).Success?
    ensures Reduce(a.lim, m.rows, Request(a, m, call).value) == Success(m'.rows)
  {
    hide Request, Reduce;
  }

  /** A call that did not go through leaves the rows alone. */
  lemma NotDoneKeepsRows(c: Codec, a: Authority, m: Memory, b: seq<byte>, call: Call,
                         m': Memory, b': seq<byte>, done: Outcome)
    requires Answered(c, a, m, b, call, m', b', done) && done.NotDone?
    ensures m'.rows == m.rows
  {
    hide Request, Reduce;
  }

  ghost predicate AheadByOne(lim: Limits, rows: seq<Row>, durable: seq<Row>) {
    exists e :: Reduce(lim, rows, e) == Success(durable)
  }

  /** Memory is what replaying the file gives, except that a broken controller may lag one event. */
  ghost predicate InStep(c: Codec, a: Authority, m: Memory, b: seq<byte>) {
    && Durable(c, a, b).Success?
    && var d := Durable(c, a, b).value;
       && d.pos > 0
       && Valid(a.lim, d.rows)
       && (if !m.broken then Terminated(b) && d == Image(m.rows, m.pos, m.previous)
           else Valid(a.lim, m.rows) && (d.rows == m.rows || AheadByOne(a.lim, m.rows, d.rows)))
  }

  lemma MemoryValid(c: Codec, a: Authority, m: Memory, b: seq<byte>)
    requires InStep(c, a, m, b)
    ensures Valid(a.lim, m.rows)
  {
  }

  /** What one call leaves on disk: the old journal, or that journal and its one new event. */
  ghost predicate DiskStep(c: Codec, a: Authority, m: Memory, b: seq<byte>, e: Event, b': seq<byte>) {
    || Durable(c, a, b') == Durable(c, a, b)
    || (Reduce(a.lim, m.rows, e).Success? && Durable(c, a, b').Success?
        && Durable(c, a, b').value.rows == Reduce(a.lim, m.rows, e).value
        && Durable(c, a, b').value.pos == m.pos + 1)
  }

  lemma OpenedLines(c: Codec, a: Authority, b: seq<byte>)
    requires Terminated(b) && Durable(c, a, b).Success? && Durable(c, a, b).value.pos > 0
    ensures Complete(b) == Split(b) && Split(b) != []
  {
  }

  lemma WrittenLine(c: Codec, a: Authority, m: Memory, b: seq<byte>, e: Event, n: nat)
    requires Sound(c) && InStep(c, a, m, b) && !m.broken
    requires Reduce(a.lim, m.rows, e).Success?
    requires n <= |c.dumps(Line(m.pos, m.previous, e))|
    ensures var raw := c.dumps(Line(m.pos, m.previous, e));
            && (Terminated(b + raw[..n]) <==> n == 0 || n == |raw|)
            && Durable(c, a, b + raw[..n]) ==
                 if n < |raw| then Durable(c, a, b)
                 else Success(Image(Reduce(a.lim, m.rows, e).value, m.pos + 1, Some(c.sha(raw))))
  {
    hide Reduce, Valid, Replay, Split;
    var raw := c.dumps(Line(m.pos, m.previous, e));
    PartialWrite(b, raw, n);
    assert Complete(b) == Split(b) && Split(b) != [] by { OpenedLines(c, a, b); }
    ReplayNext(c, a, Split(b), e);
  }

  /** Every outcome of an event keeps memory and file in step. */
  lemma FiredStaysInStep(c: Codec, a: Authority, m: Memory, b: seq<byte>, e: Event,
                         m': Memory, b': seq<byte>, done: Outcome)
    requires Sound(c) && InStep(c, a, m, b)
    requires Fired(c, a, m, b, e, m', b', done)
    ensures InStep(c, a, m', b')
    ensures DiskStep(c, a, m, b, e, b')
    ensures done.Done? ==> !m.broken && Durable(c, a, b').value == Image(m'.rows, m'.pos, m'.previous)
    ensures b' != b ==> !m.broken && Terminated(b)
  {
    if !m.broken && !m.closed && Reduce(a.lim, m.rows, e).Success? {
      var raw := c.dumps(Line(m.pos, m.previous, e));
      StepKeepsValid(a.lim, m.rows, e);
      if done.Done? {
        assert raw[..|raw|] == raw;
        WrittenLine(c, a, m, b, e, |raw|);
      } else {
        var n :| 0 <= n <= |raw| && b' == b + raw[..n];
        WrittenLine(c, a, m, b, e, n);
        if n == |raw| {
          assert AheadByOne(a.lim, m.rows, Reduce(a.lim, m.rows, e).value);
        }
      }
    }
  }

  /**
   A crash inside an append, seen by the next process: the file loads to the
   same image, or one reducer step further, or is refused as torn; nothing else.
   */
  lemma CrashedAppendReload(c: Codec, a: Authority, m: Memory, b: seq<byte>, e: Event, n: nat)
    requires Sound(c) && InStep(c, a, m, b) && !m.broken
    requires Reduce(a.lim, m.rows, e).Success?
    requires n <= |c.dumps(Line(m.pos, m.previous, e))|
    ensures var raw := c.dumps(Line(m.pos, m.previous, e));
            Load(c, a, b + raw[..n]) ==
              if n == 0 then Success(Image(m.rows, m.pos, m.previous))
              else if n < |raw| then Failure(TornOrEmpty)
              else Success(Image(Reduce(a.lim, m.rows, e).value, m.pos + 1, Some(c.sha(raw))))
  {
    var raw := c.dumps(Line(m.pos, m.previous, e));
    var b' := b + raw[..n];
    WrittenLine(c, a, m, b, e, n);
    assert b != [];
    hide Reduce, Valid, Split;
    if 0 < n < |raw| {
      SplitTerminated(b');
      var lines := Split(b');
      assert lines[..|lines| - 1] == Complete(b');
    }
  }

  // ------------------------------------------------------------ recovery

  predicate NoneOpen(rows: seq<Row>) {
    forall i :: 0 <= i < |rows| ==> !Open(rows[i])
  }

  function Closed(r: Row): Row {
    if Open(r) then r.(state := Unknown) else r
  }

  /** The rows with every open one below `n` forfeited. */
  function ClosedBelow(rows: seq<Row>, n: nat): (out: seq<Row>)
    requires n <= |rows|
    ensures |out| == |rows|
    ensures forall i :: 0 <= i < |rows| ==> out[i] == if i < n then Closed(rows[i]) else rows[i]
  {
    seq(|rows|, i requires 0 <= i < |rows| => if i < n then Closed(rows[i]) else rows[i])
  }

  function Recovered(rows: seq<Row>): seq<Row> {
    ClosedBelow(rows, |rows|)
  }

  /** One forfeit of the recovery loop: never refused, and it costs nothing. */
  lemma RecoveryStep(lim: Limits, rows: seq<Row>, n: nat)
    requires n < |rows| && Valid(lim, ClosedBelow(rows, n))
    ensures Valid(lim, ClosedBelow(rows, n + 1))
    ensures Exposure(ClosedBelow(rows, n + 1)) == Exposure(ClosedBelow(rows, n))
    ensures if Open(rows[n])
            then Reduce(lim, ClosedBelow(rows, n), Forfeit(rows[n].id)) == Success(ClosedBelow(rows, n + 1))
            else ClosedBelow(rows, n + 1) == ClosedBelow(rows, n)
  {
    var now, next := ClosedBelow(rows, n), ClosedBelow(rows, n + 1);
    if Open(rows[n]) {
      OpenRowForfeits(lim, now, n);
      assert next == now[n := now[n].(state := Unknown)];
      StepKeepsValid(lim, now, Forfeit(rows[n].id));
    } else {
      assert next == now;
    }
  }

  lemma {:induction false} RecoveryKeepsExposure(lim: Limits, rows: seq<Row>, n: nat)
    requires n <= |rows| && Valid(lim, rows)
    ensures Valid(lim, ClosedBelow(rows, n))
    ensures Exposure(ClosedBelow(rows, n)) == Exposure(rows)
  {
    if n == 0 {
      assert ClosedBelow(rows, 0) == rows;
    } else {
      RecoveryKeepsExposure(lim, rows, n - 1);
      RecoveryStep(lim, rows, n - 1);
    }
  }

  /** Recovery ends with nothing pending, at the same exposure, and is then done for good. */
  lemma RecoverySettlesEverything(lim: Limits, rows: seq<Row>)
    requires Valid(lim, rows)
    ensures NoneOpen(Recovered(rows))
    ensures Valid(lim, Recovered(rows)) && Exposure(Recovered(rows)) == Exposure(rows)
    ensures Recovered(Recovered(rows)) == Recovered(rows)
  {
    RecoveryKeepsExposure(lim, rows, |rows|);
  }
}
