/**
 The controller among its threads, the wire and crashes. A world is what is on
 disk, the process that is up (if any), and every request that went out with
 the usage it was truly billed. Calls may fail inside an append, dispatched
 requests may go out at any later moment, the process may die at any moment,
 and a later process may reopen the file, any number of times.
 */
module CrashWorld {
  import opened Wrappers
  import opened Ledger
  import opened History
  import opened Journal
  import opened Controller

  /** A request that went out for the attempt in `row`, with its true usage at that row's rates. */
  datatype WireCall = WireCall(row: nat, input: nat, output: nat, inRate: nat, outRate: nat)

  /** `todo` are the forfeits recovery still owes; `permits` are rows dispatched but not yet sent out. */
  datatype Process = Process(mem: Memory, todo: seq<Id>, permits: set<nat>)

  datatype World = World(file: Option<seq<byte>>, live: Option<Process>, wire: seq<WireCall>)

  function TrueCost(c: WireCall): nat {
    Price(c.inRate, c.outRate, c.input, c.output)
  }

  function Spend(wire: seq<WireCall>): nat {
    if wire == [] then 0 else Spend(wire[..|wire| - 1]) + TrueCost(wire[|wire| - 1])
  }

  // ------------------------------------------------------------ steps

  ghost predicate Init(w: World) {
    w == World(None, None, [])
  }

  ghost predicate Creates(c: Codec, a: Authority, w: World, w': World) {
    var raw := GenesisLine(c, a);
    && w.file.None? && w.live.None? && w'.wire == w.wire
    && ((w'.file == Some(raw)
         && w'.live == Some(Process(Memory([], 1, Some(c.sha(raw)), false, false), [], {})))
        || (w'.live.None? && exists n :: 0 <= n <= |raw| && w'.file == Some(raw[..n])))
  }

  /** Usage is reported for a request that went out, and reported truly. */
  ghost predicate Truthful(w: World, call: Call)
    requires w.live.Some?
  {
    call.DoSettle? && call.input.Some? && call.output.Some? ==>
      var rows := w.live.value.mem.rows;
      var i := Find(rows, call.id);
      i < |rows| && rows[i].state == Sent ==>
        exists k :: 0 <= k < |w.wire| && w.wire[k].row == i
                    && w.wire[k].input == call.input.value && w.wire[k].output == call.output.value
  }

  /** The row a successful dispatch lets out. */
  function Permitted(m: Memory, call: Call): set<nat> {
    if call.DoDispatch? && |Matching(m.rows, call.cell, Reserved)| == 1
    then {Matching(m.rows, call.cell, Reserved)[0]} else {}
  }

  ghost predicate CallsWith(c: Codec, a: Authority, w: World, w': World,
                            call: Call, mem: Memory, b: seq<byte>, done: Outcome)
  {
    && w.file.Some? && w.live.Some? && w.live.value.todo == []
    && Truthful(w, call)
    && Answered(c, a, w.live.value.mem, w.file.value, call, mem, b, done)
    && w' == World(Some(b),
                   Some(Process(mem, [], w.live.value.permits +
                                         (if done.Done? then Permitted(w.live.value.mem, call) else {}))),
                   w.wire)
  }

  ghost predicate RecoversWith(c: Codec, a: Authority, w: World, w': World,
                               mem: Memory, b: seq<byte>, done: Outcome)
  {
    && w.file.Some? && w.live.Some? && w.live.value.todo != []
    && Fired(c, a, w.live.value.mem, w.file.value, Forfeit(w.live.value.todo[0]), mem, b, done)
    && w' == World(Some(b),
                   if done.Done? then Some(Process(mem, w.live.value.todo[1..], {})) else None,
                   w.wire)
  }

  /** A dispatched request goes out once, and is billed within the bounds it was dispatched with. */
  ghost predicate GoesOut(w: World, w': World, i: nat, input: nat, output: nat) {
    && w.live.Some? && i in w.live.value.permits && i < |w.live.value.mem.rows|
    && var r := w.live.value.mem.rows[i];
       && input <= r.ib && output <= r.ob
       && w' == w.(live := Some(w.live.value.(permits := w.live.value.permits - {i})),
                   wire := w.wire + [WireCall(i, input, output, r.inRate, r.outRate)])
  }

  ghost predicate Dies(w: World, w': World) {
    w.live.Some? && w' == w.(live := None)
  }

  function OpenIds(rows: seq<Row>): seq<Id> {
    if rows == [] then []
    else OpenIds(rows[..|rows| - 1]) + (if Open(rows[|rows| - 1]) then [rows[|rows| - 1].id] else [])
  }

  ghost predicate Reopens(c: Codec, a: Authority, w: World, w': World) {
    && w.file.Some? && w.live.None? && Load(c, a, w.file.value).Success?
    && var img := Load(c, a, w.file.value).value;
       w' == w.(live := Some(Process(Memory(img.rows, img.pos, img.previous, !a.lim.campaign, false),
                                     if a.lim.campaign then OpenIds(img.rows) else [], {})))
  }

  ghost predicate Next(c: Codec, a: Authority, w: World, w': World) {
    || Creates(c, a, w, w')
    || (exists call, mem, b, done :: CallsWith(c, a, w, w', call, mem, b, done))
    || (exists mem, b, done :: RecoversWith(c, a, w, w', mem, b, done))
    || (exists i, input, output :: GoesOut(w, w', i, input, output))
    || Dies(w, w')
    || Reopens(c, a, w, w')
  }

  ghost predicate Trace(c: Codec, a: Authority, ws: seq<World>) {
    && |ws| > 0 && Init(ws[0])
    && forall i :: 0 <= i < |ws| - 1 ==> Next(c, a, ws[i], ws[i + 1])
  }

  // ------------------------------------------------------------ spend against exposure

  ghost predicate CoveredCall(rows: seq<Row>, call: WireCall) {
    && call.row < |rows|
    && var r := rows[call.row];
       && call.inRate == r.inRate && call.outRate == r.outRate
       && match r.state
          case Settled(actual) => actual == TrueCost(call)
          case Sent => call.input <= r.ib && call.output <= r.ob
          case Unknown => call.input <= r.ib && call.output <= r.ob
          case _ => false
  }

  /** Each attempt went out at most once, and its row answers for what it cost. */
  ghost predicate Covered(rows: seq<Row>, wire: seq<WireCall>) {
    && (forall j, k :: 0 <= j < k < |wire| ==> wire[j].row != wire[k].row)
    && forall k :: 0 <= k < |wire| ==> CoveredCall(rows, wire[k])
  }

  lemma CoveredCost(rows: seq<Row>, call: WireCall)
    requires CoveredCall(rows, call) && RowValid(rows[call.row])
    ensures TrueCost(call) <= Liability(rows[call.row])
  {
    var r := rows[call.row];
    if !r.state.Settled? {
      PriceMonotone(r.inRate, r.outRate, call.input, call.output, r.ib, r.ob);
    }
  }

  /** Exposure of the rows that are not in `s`. */
  ghost function Outside(rows: seq<Row>, s: set<nat>): nat {
    if rows == [] then 0
    else Outside(rows[..|rows| - 1], s) + (if |rows| - 1 in s then 0 else Liability(rows[|rows| - 1]))
  }

  lemma {:induction false} OutsideSplit(rows: seq<Row>, s: set<nat>, i: nat)
    requires i < |rows| && i !in s
    ensures Outside(rows, s + {i}) + Liability(rows[i]) == Outside(rows, s)
  {
    var front := rows[..|rows| - 1];
    if i < |front| {
      OutsideSplit(front, s, i);
    } else {
      OutsideIgnores(front, s, i);
    }
  }

  lemma {:induction false} OutsideIgnores(rows: seq<Row>, s: set<nat>, i: nat)
    requires |rows| <= i
    ensures Outside(rows, s + {i}) == Outside(rows, s)
  {
    if rows != [] {
      OutsideIgnores(rows[..|rows| - 1], s, i);
    }
  }

  lemma {:induction false} OutsideNothing(rows: seq<Row>)
    ensures Outside(rows, {}) == Exposure(rows)
  {
    if rows != [] {
      OutsideNothing(rows[..|rows| - 1]);
    }
  }

  ghost function RowsOut(wire: seq<WireCall>): set<nat> {
    set k | 0 <= k < |wire| :: wire[k].row
  }

  lemma {:induction false} SpendAndRest(rows: seq<Row>, wire: seq<WireCall>)
    requires Covered(rows, wire)
    requires forall i :: 0 <= i < |rows| ==> RowValid(rows[i])
    ensures Spend(wire) + Outside(rows, RowsOut(wire)) <= Exposure(rows)
  {
    if wire == [] {
      OutsideNothing(rows);
      assert RowsOut(wire) == {};
    } else {
      var n := |wire| - 1;
      var front := wire[..n];
      assert forall k :: 0 <= k < n ==> front[k] == wire[k];
      SpendAndRest(rows, front);
      CoveredCost(rows, wire[n]);
      assert wire[n].row !in RowsOut(front);
      assert RowsOut(wire) == RowsOut(front) + {wire[n].row};
      OutsideSplit(rows, RowsOut(front), wire[n].row);
    }
  }

  // ------------------------------------------------------------ the invariant

  /** A permitted row is dispatched, unsettled, and not out yet. */
  ghost predicate PermitHeld(durable: seq<Row>, rows: seq<Row>, wire: seq<WireCall>, i: nat) {
    && i < |durable| && i < |rows|
    && (durable[i].state == Sent || durable[i].state == Unknown)
    && (rows[i].state == Sent || rows[i].state == Unknown)
    && SameAttempt(rows[i], durable[i]) && rows[i].ib == durable[i].ib
    && forall k :: 0 <= k < |wire| ==> wire[k].row != i
  }

  ghost predicate Healthy(c: Codec, a: Authority, b: seq<byte>, p: Process, wire: seq<WireCall>) {
    && InStep(c, a, p.mem, b)
    && forall i :: i in p.permits ==> PermitHeld(Durable(c, a, b).value.rows, p.mem.rows, wire, i)
  }

  ghost predicate Inv(c: Codec, a: Authority, w: World) {
    if w.file.None? then w.live.None? && w.wire == []
    else
      var b := w.file.value;
      && Durable(c, a, b).Success?
      && Valid(a.lim, Durable(c, a, b).value.rows)
      && Covered(Durable(c, a, b).value.rows, w.wire)
      && (w.live.Some? ==> Healthy(c, a, b, w.live.value, w.wire))
  }

  lemma CreateKeepsInv(c: Codec, a: Authority, w: World, w': World)
    requires Sound(c) && Inv(c, a, w) && Creates(c, a, w, w')
    ensures Inv(c, a, w')
  {
    var raw := GenesisLine(c, a);
    assert Exposure([]) == 0;
    if w'.live.Some? {
      GenesisWrite(c, a, |raw|);
    } else {
      var n :| 0 <= n <= |raw| && w'.file == Some(raw[..n]);
      GenesisWrite(c, a, n);
    }
  }

  /** An accepted event leaves every request that went out covered, if usage is told truly. */
  lemma StepKeepsCovered(lim: Limits, rows: seq<Row>, e: Event, wire: seq<WireCall>)
    requires Valid(lim, rows) && Reduce(lim, rows, e).Success? && Covered(rows, wire)
    requires e.Settle? && rows[Find(rows, e.id)].state == Sent ==>
               exists k :: 0 <= k < |wire| && wire[k].row == Find(rows, e.id)
                           && wire[k].input == e.input && wire[k].output == e.output
    ensures Covered(Reduce(lim, rows, e).value, wire)
  {
    var next := Reduce(lim, rows, e).value;
    forall k | 0 <= k < |wire| ensures CoveredCall(next, wire[k]) {
      var i := wire[k].row;
      assert CoveredCall(rows, wire[k]);
      StepSeenByRow(lim, rows, e, i);
      if e.id == rows[i].id {
        FindUnique(rows, i);
      }
    }
  }

  /** An accepted event leaves a held permit held, unless it settles that very row. */
  lemma StepKeepsPermit(lim: Limits, rows: seq<Row>, e: Event, i: nat)
    requires Valid(lim, rows) && Reduce(lim, rows, e).Success?
    requires i < |rows| && (rows[i].state == Sent || rows[i].state == Unknown)
    requires e.Settle? ==> rows[i].state == Unknown || e.id != rows[i].id
    ensures var next := Reduce(lim, rows, e).value;
            && i < |next| && (next[i].state == Sent || next[i].state == Unknown)
            && SameAttempt(rows[i], next[i]) && next[i].ib == rows[i].ib
  {
    StepSeenByRow(lim, rows, e, i);
    StepChangesOneRow(lim, rows, e);
  }

  /** What an event needs of the world for the two lemmas above to apply. */
  ghost predicate ToldTruly(rows: seq<Row>, e: Event, wire: seq<WireCall>) {
    e.Settle? && Find(rows, e.id) < |rows| && rows[Find(rows, e.id)].state == Sent ==>
      exists k :: 0 <= k < |wire| && wire[k].row == Find(rows, e.id)
                  && wire[k].input == e.input && wire[k].output == e.output
  }

  lemma FiredKeepsHealth(c: Codec, a: Authority, b: seq<byte>, p: Process, wire: seq<WireCall>,
                         e: Event, mem: Memory, b': seq<byte>, done: Outcome)
    requires Sound(c) && Healthy(c, a, b, p, wire)
    requires Covered(Durable(c, a, b).value.rows, wire)
    requires ToldTruly(p.mem.rows, e, wire)
    requires Fired(c, a, p.mem, b, e, mem, b', done)
    ensures Healthy(c, a, b', p.(mem := mem), wire)
    ensures Valid(a.lim, Durable(c, a, b').value.rows)
    ensures Covered(Durable(c, a, b').value.rows, wire)
  {
    FiredStaysInStep(c, a, p.mem, b, e, mem, b', done);
    if !p.mem.broken && !p.mem.closed && Reduce(a.lim, p.mem.rows, e).Success? {
      var rows := p.mem.rows;
      StepKeepsValid(a.lim, rows, e);
      StepKeepsCovered(a.lim, rows, e, wire);
      forall i | i in p.permits
        ensures PermitHeld(Durable(c, a, b').value.rows, mem.rows, wire, i)
      {
        assert PermitHeld(Durable(c, a, b).value.rows, rows, wire, i);
        if e.Settle? && e.id == rows[i].id {
          FindUnique(rows, i);
        }
        StepKeepsPermit(a.lim, rows, e, i);
      }
    }
  }

  lemma CallKeepsInv(c: Codec, a: Authority, w: World, w': World,
                     call: Call, mem: Memory, b: seq<byte>, done: Outcome)
    requires Sound(c) && Inv(c, a, w) && CallsWith(c, a, w, w', call, mem, b, done)
    ensures Inv(c, a, w')
  {
    var p := w.live.value;
    var q := Request(a, p.mem, call);
    if q.Success? {
      FiredKeepsHealth(c, a, w.file.value, p, w.wire, q.value, mem, b, done);
      if done.Done? && call.DoDispatch? {
        NewPermit(c, a, w, call, mem, b, done);
      }
    }
  }

  lemma NewPermit(c: Codec, a: Authority, w: World, call: Call, mem: Memory, b: seq<byte>, done: Outcome)
    requires Sound(c) && Inv(c, a, w) && w.file.Some? && w.live.Some? && call.DoDispatch? && done.Done?
    requires Answered(c, a, w.live.value.mem, w.file.value, call, mem, b, done)
    ensures Durable(c, a, b).Success?
    ensures forall i :: i in Permitted(w.live.value.mem, call) ==>
              PermitHeld(Durable(c, a, b).value.rows, mem.rows, w.wire, i)
  {
    var rows := w.live.value.mem.rows;
    var e := Request(a, w.live.value.mem, call).value;
    FiredStaysInStep(c, a, w.live.value.mem, w.file.value, e, mem, b, done);
    assert Durable(c, a, w.file.value).value.rows == rows;
    assert Durable(c, a, b).value.rows == mem.rows;
    forall i | i in Permitted(w.live.value.mem, call)
      ensures PermitHeld(mem.rows, mem.rows, w.wire, i)
    {
      DispatchedRow(a.lim, rows, e, i);
      NotOutYet(rows, w.wire, i);
    }
  }

  /** An accepted dispatch finds its row reserved and leaves it sent. */
  lemma DispatchedRow(lim: Limits, rows: seq<Row>, e: Event, i: nat)
    requires Valid(lim, rows) && e.Dispatch? && Reduce(lim, rows, e).Success?
    requires i < |rows| && rows[i].id == e.id
    ensures rows[i].state == Reserved
    ensures i < |Reduce(lim, rows, e).value| && Reduce(lim, rows, e).value[i].state == Sent
  {
    FindUnique(rows, i);
  }

  /** A reserved row has not gone out. */
  lemma NotOutYet(rows: seq<Row>, wire: seq<WireCall>, i: nat)
    requires Covered(rows, wire) && i < |rows| && rows[i].state == Reserved
    ensures forall k :: 0 <= k < |wire| ==> wire[k].row != i
  {
    forall k | 0 <= k < |wire| ensures wire[k].row != i {
      assert CoveredCall(rows, wire[k]);
    }
  }

  lemma GoingOutKeepsInv(c: Codec, a: Authority, w: World, w': World, i: nat, input: nat, output: nat)
    requires Inv(c, a, w) && GoesOut(w, w', i, input, output)
    ensures Inv(c, a, w')
  {
    var d := Durable(c, a, w.file.value).value.rows;
    var rows := w.live.value.mem.rows;
    assert PermitHeld(d, rows, w.wire, i);
    forall k | 0 <= k < |w'.wire| ensures CoveredCall(d, w'.wire[k]) {
      if k < |w.wire| {
        assert CoveredCall(d, w.wire[k]);
      }
    }
    forall j | j in w'.live.value.permits ensures PermitHeld(d, rows, w'.wire, j) {
      assert PermitHeld(d, rows, w.wire, j);
    }
  }

  lemma ReopenKeepsInv(c: Codec, a: Authority, w: World, w': World)
    requires Sound(c) && a.genesis.Genesis? && Inv(c, a, w) && Reopens(c, a, w, w')
    ensures Inv(c, a, w')
  {
    var b := w.file.value;
    SplitTerminated(b);
    ReplayIsRun(c, a, Split(b));
    RunValid(a.lim, Decoded(c, Split(b))[1..]);
  }

  /** Every step keeps the invariant. */
  lemma NextKeepsInv(c: Codec, a: Authority, w: World, w': World)
    requires Sound(c) && a.genesis.Genesis? && Inv(c, a, w) && Next(c, a, w, w')
    ensures Inv(c, a, w')
  {
    if Creates(c, a, w, w') {
      CreateKeepsInv(c, a, w, w');
    } else if call, mem, b, done :| CallsWith(c, a, w, w', call, mem, b, done) {
      CallKeepsInv(c, a, w, w', call, mem, b, done);
    } else if mem, b, done :| RecoversWith(c, a, w, w', mem, b, done) {
      FiredKeepsHealth(c, a, w.file.value, w.live.value, w.wire,
                       Forfeit(w.live.value.todo[0]), mem, b, done);
    } else if i, input, output :| GoesOut(w, w', i, input, output) {
      GoingOutKeepsInv(c, a, w, w', i, input, output);
    } else if Reopens(c, a, w, w') {
      ReopenKeepsInv(c, a, w, w');
    }
  }

  lemma {:induction false} TraceInv(c: Codec, a: Authority, ws: seq<World>, n: nat)
    requires Sound(c) && a.genesis.Genesis? && Trace(c, a, ws) && n < |ws|
    ensures Inv(c, a, ws[n])
  {
    if n > 0 {
      TraceInv(c, a, ws, n - 1);
      NextKeepsInv(c, a, ws[n - 1], ws[n]);
    }
  }

  // ------------------------------------------------------------ the theorems

  /**
   Real spend never passes the cap: over every interleaving of calls, requests,
   failed appends, crashes and reopenings, what truly went out costs at most
   what the durable journal answers for, and that is within the cap.
   */
  lemma SpendNeverPassesCap(c: Codec, a: Authority, ws: seq<World>, n: nat)
    requires Sound(c) && a.genesis.Genesis? && Trace(c, a, ws) && n < |ws|
    ensures ws[n].file.None? ==> ws[n].wire == []
    ensures ws[n].file.Some? ==>
              && Durable(c, a, ws[n].file.value).Success?
              && Spend(ws[n].wire) <= Exposure(Durable(c, a, ws[n].file.value).value.rows)
    ensures a.lim.cap.Some? ==> Spend(ws[n].wire) <= a.lim.cap.value
  {
    TraceInv(c, a, ws, n);
    if ws[n].file.Some? {
      SpendAndRest(Durable(c, a, ws[n].file.value).value.rows, ws[n].wire);
    }
  }

  lemma {:induction false} WireGrows(c: Codec, a: Authority, ws: seq<World>, m: nat, n: nat)
    requires Trace(c, a, ws) && m <= n < |ws|
    ensures ws[m].wire <= ws[n].wire
  {
    if m < n {
      WireGrows(c, a, ws, m, n - 1);
      assert Next(c, a, ws[n - 1], ws[n]);
    }
  }

  /** Once out, an attempt is answered for ever after, at no less than it truly cost. */
  lemma LiabilityNeverDropped(c: Codec, a: Authority, ws: seq<World>, m: nat, n: nat, k: nat)
    requires Sound(c) && a.genesis.Genesis? && Trace(c, a, ws) && m <= n < |ws| && k < |ws[m].wire|
    ensures k < |ws[n].wire| && ws[n].wire[k] == ws[m].wire[k]
    ensures ws[n].file.Some? && Durable(c, a, ws[n].file.value).Success?
    ensures var rows := Durable(c, a, ws[n].file.value).value.rows;
            var i := ws[m].wire[k].row;
            i < |rows| && TrueCost(ws[m].wire[k]) <= Liability(rows[i])
  {
    WireGrows(c, a, ws, m, n);
    TraceInv(c, a, ws, n);
    var rows := Durable(c, a, ws[n].file.value).value.rows;
    assert CoveredCall(rows, ws[n].wire[k]);
    CoveredCost(rows, ws[n].wire[k]);
  }

  /** No attempt goes out twice, whatever crashed in between. */
  lemma AttemptsGoOutOnce(c: Codec, a: Authority, ws: seq<World>, n: nat, j: nat, k: nat)
    requires Sound(c) && a.genesis.Genesis? && Trace(c, a, ws) && n < |ws|
    requires j < k < |ws[n].wire|
    ensures ws[n].wire[j].row != ws[n].wire[k].row
  {
    TraceInv(c, a, ws, n);
  }

  /** Memory is always the replay of the file, or one reducer step behind it once broken. */
  lemma MemoryRefinesJournal(c: Codec, a: Authority, ws: seq<World>, n: nat)
    requires Sound(c) && a.genesis.Genesis? && Trace(c, a, ws) && n < |ws| && ws[n].live.Some?
    ensures ws[n].file.Some? && Durable(c, a, ws[n].file.value).Success?
    ensures var m := ws[n].live.value.mem;
            var d := Durable(c, a, ws[n].file.value).value;
            if !m.broken then d == Image(m.rows, m.pos, m.previous)
            else d.rows == m.rows || AheadByOne(a.lim, m.rows, d.rows)
  {
    TraceInv(c, a, ws, n);
  }

  // ------------------------------------------------------------ issued identifiers

  ghost predicate IssuedOnDisk(c: Codec, a: Authority, b: seq<byte>) {
    var es := Decoded(c, Complete(b));
    es != [] ==> Issued(a.ns, es[1..])
  }

  lemma LineKeepsIssued(c: Codec, a: Authority, m: Memory, b: seq<byte>, e: Event, n: nat)
    requires Sound(c) && InStep(c, a, m, b) && !m.broken && IssuedOnDisk(c, a, b)
    requires e.Reserve? ==> e.id == Ident(a.ns, m.pos)
    requires n <= |NextLine(c, Image(m.rows, m.pos, m.previous), e)|
    ensures IssuedOnDisk(c, a, b + NextLine(c, Image(m.rows, m.pos, m.previous), e)[..n])
  {
    var raw := NextLine(c, Image(m.rows, m.pos, m.previous), e);
    var lines := Split(b);
    PartialWrite(b, raw, n);
    ReplayIsRun(c, a, lines);
    hide Replay, Run, Split, Decoded, Valid;
    if n == |raw| {
      SnocKeepsIssued(c, a.ns, lines, Line(m.pos, m.previous, e));
    }
  }

  lemma SnocKeepsIssued(c: Codec, ns: string, lines: seq<seq<byte>>, l: Line)
    requires Sound(c) && Decoded(c, lines) != [] && l.pos == |Decoded(c, lines)|
    requires Issued(ns, Decoded(c, lines)[1..])
    requires l.event.Reserve? ==> l.event.id == Ident(ns, l.pos)
    ensures Decoded(c, lines + [c.dumps(l)]) != []
    ensures Issued(ns, Decoded(c, lines + [c.dumps(l)])[1..])
  {
    DecodedSnoc(c, lines, l);
    hide Decoded, Ident;
    var es := Decoded(c, lines);
    assert (es + [l.event])[1..] == es[1..] + [l.event];
  }

  lemma FiredKeepsIssued(c: Codec, a: Authority, m: Memory, b: seq<byte>, e: Event,
                         m': Memory, b': seq<byte>, done: Outcome)
    requires Sound(c) && InStep(c, a, m, b) && IssuedOnDisk(c, a, b)
    requires e.Reserve? ==> e.id == Ident(a.ns, m.pos)
    requires Fired(c, a, m, b, e, m', b', done)
    ensures IssuedOnDisk(c, a, b')
  {
    if b' != b {
      var raw := NextLine(c, Image(m.rows, m.pos, m.previous), e);
      var n: nat :| n <= |raw| && b' == b + raw[..n] by {
        assert raw[..|raw|] == raw;
      }
      LineKeepsIssued(c, a, m, b, e, n);
    }
  }

  lemma {:induction false} TraceIssued(c: Codec, a: Authority, ws: seq<World>, n: nat)
    requires Sound(c) && a.genesis.Genesis? && Trace(c, a, ws) && n < |ws|
    ensures ws[n].file.Some? ==> IssuedOnDisk(c, a, ws[n].file.value)
  {
    if n > 0 {
      hide Inv, IssuedOnDisk, Next;
      var w, w' := ws[n - 1], ws[n];
      TraceIssued(c, a, ws, n - 1);
      TraceInv(c, a, ws, n - 1);
      assert Next(c, a, w, w');
      NextKeepsIssued(c, a, w, w');
    }
  }

  lemma CallKeepsIssued(c: Codec, a: Authority, w: World, w': World,
                        call: Call, mem: Memory, b: seq<byte>, done: Outcome)
    requires Sound(c) && Inv(c, a, w) && CallsWith(c, a, w, w', call, mem, b, done)
    requires IssuedOnDisk(c, a, w.file.value)
    ensures IssuedOnDisk(c, a, b)
  {
    hide InStep, Fired, IssuedOnDisk, Covered;
    var q := Request(a, w.live.value.mem, call);
    if q.Success? {
      FiredKeepsIssued(c, a, w.live.value.mem, w.file.value, q.value, mem, b, done);
    }
  }

  lemma RecoveryKeepsIssued(c: Codec, a: Authority, w: World, w': World,
                            mem: Memory, b: seq<byte>, done: Outcome)
    requires Sound(c) && Inv(c, a, w) && RecoversWith(c, a, w, w', mem, b, done)
    requires IssuedOnDisk(c, a, w.file.value)
    ensures IssuedOnDisk(c, a, b)
  {
    hide InStep, Fired, IssuedOnDisk, Covered;
    FiredKeepsIssued(c, a, w.live.value.mem, w.file.value, Forfeit(w.live.value.todo[0]), mem, b, done);
  }

  lemma NextKeepsIssued(c: Codec, a: Authority, w: World, w': World)
    requires Sound(c) && Inv(c, a, w) && Next(c, a, w, w')
    requires w.file.Some? ==> IssuedOnDisk(c, a, w.file.value)
    ensures w'.file.Some? ==> IssuedOnDisk(c, a, w'.file.value)
  {
    hide Inv, IssuedOnDisk, Answered, Fired;
    if Creates(c, a, w, w') {
      GenesisIssued(c, a, w, w');
    } else if call, mem, b, done :| CallsWith(c, a, w, w', call, mem, b, done) {
      CallKeepsIssued(c, a, w, w', call, mem, b, done);
    } else if mem, b, done :| RecoversWith(c, a, w, w', mem, b, done) {
      RecoveryKeepsIssued(c, a, w, w', mem, b, done);
    }
  }

  lemma GenesisIssued(c: Codec, a: Authority, w: World, w': World)
    requires Sound(c) && Creates(c, a, w, w')
    ensures IssuedOnDisk(c, a, w'.file.value)
  {
    var raw := GenesisLine(c, a);
    var n: nat :| n <= |raw| && w'.file == Some(raw[..n]) by {
      assert raw[..|raw|] == raw;
    }
    hide Creates, Split, Complete, Decoded;
    GenesisDecodes(c, a, n);
    hide Sound;
  }

  /** Of a first write, whole or cut, nothing but the genesis can be read. */
  lemma GenesisDecodes(c: Codec, a: Authority, n: nat)
    requires Sound(c) && n <= |GenesisLine(c, a)|
    ensures var es := Decoded(c, Complete(GenesisLine(c, a)[..n])); es == [] || es == [a.genesis]
  {
    var raw := GenesisLine(c, a);
    assert [] + raw[..n] == raw[..n];
    PartialWrite([], raw, n);
    assert Split([]) == [];
    var none: seq<seq<byte>> := [];
    assert none + [raw] == [raw];
    hide Complete, Split;
    DecodedSnoc(c, none, Line(0, None, a.genesis));
  }

  /** `reserve` is refused as a duplicate exactly when its cell already has an open attempt. */
  lemma ReserveIdsAreFresh(c: Codec, a: Authority, ws: seq<World>, n: nat, call: Call)
    requires Sound(c) && a.genesis.Genesis? && Trace(c, a, ws) && n < |ws|
    requires ws[n].live.Some? && !ws[n].live.value.mem.broken && call.DoReserve?
    ensures var m := ws[n].live.value.mem;
            var q := Request(a, m, call);
            && q.Success?
            && Find(m.rows, q.value.id) == |m.rows|
            && (Reduce(a.lim, m.rows, q.value) == Failure(DuplicateAdmission) <==> Busy(m.rows, call.cell))
  {
    TraceInv(c, a, ws, n);
    TraceIssued(c, a, ws, n);
    var lines := Complete(ws[n].file.value);
    ReplayIsRun(c, a, lines);
    IssuedIdsAreFresh(a.lim, a.ns, Decoded(c, lines)[1..]);
  }

  /** A reopened base controller, like any broken one, accepts no event and writes nothing. */
  lemma ReopenedBaseIsAuditOnly(c: Codec, a: Authority, w: World, w': World,
                                call: Call, mem: Memory, b: seq<byte>, done: Outcome)
    requires !a.lim.campaign && Reopens(c, a, w, w')
    requires Answered(c, a, w'.live.value.mem, w'.file.value, call, mem, b, done)
    ensures done.NotDone? && mem == w'.live.value.mem && b == w.file.value
    ensures w'.live.value.todo == [] && w'.live.value.permits == {}
    ensures mem.rows == Load(c, a, w.file.value).value.rows
  {
  }
}
