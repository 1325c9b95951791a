/**
 What the crash machine can do: every way a call, a recovery, a request on the wire, a death or a
 reopening can turn out extends every run it could happen in. The safety results rule out none of them.
 */
module CrashReach {
  import opened Wrappers
  import opened Ledger
  import opened Journal
  import opened Controller
  import opened CrashWorld

  lemma Extends(c: Codec, a: Authority, ws: seq<World>, w: World)
    requires Trace(c, a, ws) && CrashWorld.Next(c, a, ws[|ws| - 1], w)
    ensures Trace(c, a, ws + [w])
  {
    hide CrashWorld.Next, CrashWorld.Init;
    var longer := ws + [w];
    forall i | 0 <= i < |longer| - 1 ensures CrashWorld.Next(c, a, longer[i], longer[i + 1]) {
      if i < |ws| - 1 { assert CrashWorld.Next(c, a, ws[i], ws[i + 1]); }
    }
  }

  /** The first write may succeed, or stop after any number of bytes and take the process down. */
  lemma CreationHappens(c: Codec, a: Authority, n: nat)
    requires n <= |GenesisLine(c, a)|
    ensures var w := World(Some(GenesisLine(c, a)[..n]), None, []);
            Trace(c, a, [World(None, None, []), w])
    ensures exists w :: Trace(c, a, [World(None, None, []), w])
                        && w.file == Some(GenesisLine(c, a)) && w.live.Some? && w.live.value.mem.rows == []
  {
    var raw := GenesisLine(c, a);
    var empty := World(None, None, []);
    var up := World(Some(raw), Some(Process(Memory([], 1, Some(c.sha(raw)), false, false), [], {})), []);
    var cut := World(Some(raw[..n]), None, []);
    assert Creates(c, a, empty, up) && Creates(c, a, empty, cut);
    Extends(c, a, [empty], up);
    Extends(c, a, [empty], cut);
    assert [empty] + [up] == [empty, up] && [empty] + [cut] == [empty, cut];
  }

  /** Usage is reported only for a request that went out, and as it was billed. */
  ghost predicate Honest(w: World, rows: seq<Row>, call: Call) {
    call.DoSettle? && call.input.Some? && call.output.Some? ==>
      forall i :: 0 <= i < |rows| && rows[i].id == call.id && rows[i].state == Sent ==>
        exists k :: 0 <= k < |w.wire| && w.wire[k].row == i
                    && w.wire[k].input == call.input.value && w.wire[k].output == call.output.value
  }

  /** Whatever a call of the live process may come to, it comes to in some run; a dispatch lets its row out once. */
  lemma CallsHappen(c: Codec, a: Authority, ws: seq<World>, call: Call, mem: Memory, b: seq<byte>, done: Outcome)
      returns (w': World)
    requires Sound(c) && a.genesis.Genesis? && Trace(c, a, ws)
    requires var w := ws[|ws| - 1];
             && w.file.Some? && w.live.Some? && w.live.value.todo == [] && Honest(w, w.live.value.mem.rows, call)
             && Answered(c, a, w.live.value.mem, w.file.value, call, mem, b, done)
    ensures var w := ws[|ws| - 1];
            && Trace(c, a, ws + [w']) && w'.file == Some(b) && w'.wire == w.wire
            && w'.live.Some? && w'.live.value.mem == mem && w'.live.value.todo == []
            && forall i :: i in w'.live.value.permits <==>
                 || i in w.live.value.permits
                 || (done.Done? && call.DoDispatch? && 0 <= i < |w.live.value.mem.rows|
                     && w.live.value.mem.rows[i].cell == call.cell && w.live.value.mem.rows[i].state == Reserved)
  {
    var w := ws[|ws| - 1];
    var m := w.live.value.mem;
    hide CrashWorld.Inv, InStep, Answered, Valid, Trace, Permitted;
    w' := World(Some(b), Some(Process(mem, [], w.live.value.permits + (if done.Done? then Permitted(m, call) else {}))),
                w.wire);
    assert CallsWith(c, a, w, w', call, mem, b, done);
    hide CallsWith, Honest;
    Extends(c, a, ws, w');
    if done.Done? && call.DoDispatch? {
      TraceInv(c, a, ws, |ws| - 1);
      LiveInStep(c, a, w);
      MemoryValid(c, a, m, w.file.value);
      DispatchHasCandidate(c, a, m, w.file.value, call.cell, call.payload, mem, b);
      PermitsTheCandidate(a.lim, m, call);
    } else if done.Done? {
      OnlyDispatchPermits(m, call);
    }
  }

  lemma OnlyDispatchPermits(m: Memory, call: Call)
    requires !call.DoDispatch?
    ensures Permitted(m, call) == {}
  {
  }

  lemma LiveInStep(c: Codec, a: Authority, w: World)
    requires CrashWorld.Inv(c, a, w) && w.live.Some? && w.file.Some?
    ensures InStep(c, a, w.live.value.mem, w.file.value)
  {
    hide InStep;
  }

  lemma DispatchHasCandidate(c: Codec, a: Authority, m: Memory, b: seq<byte>, cell: Cell, payload: Payload,
                             m': Memory, b': seq<byte>)
    requires Answered(c, a, m, b, DoDispatch(cell, payload), m', b', Done)
    ensures |Matching(m.rows, cell, Reserved)| == 1
  {
    hide Matching, Fired;
  }

  lemma PermitsTheCandidate(lim: Limits, m: Memory, call: Call)
    requires Valid(lim, m.rows) && call.DoDispatch? && |Matching(m.rows, call.cell, Reserved)| == 1
    ensures forall i :: i in Permitted(m, call) <==>
              0 <= i < |m.rows| && m.rows[i].cell == call.cell && m.rows[i].state == Reserved
  {
    var found := Matching(m.rows, call.cell, Reserved);
    hide Valid, Matching;
    forall i ensures i in {found[0]} <==>
                       0 <= i < |m.rows| && m.rows[i].cell == call.cell && m.rows[i].state == Reserved
    {
      if 0 <= i < |m.rows| && m.rows[i].cell == call.cell && m.rows[i].state == Reserved { assert i in found; }
    }
  }

  /** A dispatched request may go out at any later moment, at any usage within its row's bounds, spent at its rates. */
  lemma RequestGoesOut(c: Codec, a: Authority, ws: seq<World>, i: nat, input: nat, output: nat) returns (w': World)
    requires Trace(c, a, ws)
    requires var w := ws[|ws| - 1];
             && w.live.Some? && i in w.live.value.permits && i < |w.live.value.mem.rows|
             && input <= w.live.value.mem.rows[i].ib && output <= w.live.value.mem.rows[i].ob
    ensures var w := ws[|ws| - 1];
            var r := w.live.value.mem.rows[i];
            && Trace(c, a, ws + [w']) && w'.file == w.file
            && w'.live == Some(w.live.value.(permits := w.live.value.permits - {i}))
            && Spend(w'.wire) == Spend(w.wire) + input * r.inRate + output * r.outRate
            && w'.wire == w.wire + [WireCall(i, input, output, r.inRate, r.outRate)]
  {
    var w := ws[|ws| - 1];
    var r := w.live.value.mem.rows[i];
    var call := WireCall(i, input, output, r.inRate, r.outRate);
    w' := w.(live := Some(w.live.value.(permits := w.live.value.permits - {i})), wire := w.wire + [call]);
    assert GoesOut(w, w', i, input, output);
    Extends(c, a, ws, w');
    PriceIsLinear(r.inRate, r.outRate, input, output);
    assert (w.wire + [call])[..|w.wire|] == w.wire;
    hide Trace, GoesOut, Price;
  }

  /** One forfeit of a recovery may be journalled, or its write may fail and take the process down. */
  lemma RecoveryHappens(c: Codec, a: Authority, ws: seq<World>, mem: Memory, b: seq<byte>, done: Outcome)
      returns (w': World)
    requires Trace(c, a, ws)
    requires var w := ws[|ws| - 1];
             && w.file.Some? && w.live.Some? && w.live.value.todo != []
             && Answered(c, a, w.live.value.mem, w.file.value, DoForfeit(w.live.value.todo[0]), mem, b, done)
    ensures var w := ws[|ws| - 1];
            && Trace(c, a, ws + [w']) && w'.file == Some(b) && w'.wire == w.wire
            && w'.live == if done.Done? then Some(Process(mem, w.live.value.todo[1..], {})) else None
  {
    var w := ws[|ws| - 1];
    w' := World(Some(b), if done.Done? then Some(Process(mem, w.live.value.todo[1..], {})) else None, w.wire);
    assert RecoversWith(c, a, w, w', mem, b, done) by { hide Fired; }
    Extends(c, a, ws, w');
  }

  /** The process may die at any moment, and the file and the wire stay as they are. */
  lemma DeathHappens(c: Codec, a: Authority, ws: seq<World>)
    requires Trace(c, a, ws) && ws[|ws| - 1].live.Some?
    ensures Trace(c, a, ws + [World(ws[|ws| - 1].file, None, ws[|ws| - 1].wire)])
  {
    Extends(c, a, ws, World(ws[|ws| - 1].file, None, ws[|ws| - 1].wire));
  }

  /** A file that loads may be reopened, by a base controller that is broken or a campaign that owes its open rows. */
  lemma ReopeningHappens(c: Codec, a: Authority, ws: seq<World>) returns (w': World)
    requires Trace(c, a, ws)
    requires var w := ws[|ws| - 1];
             w.file.Some? && w.live.None? && Load(c, a, w.file.value).Success?
    ensures var w := ws[|ws| - 1];
            var img := Load(c, a, w.file.value).value;
            && Trace(c, a, ws + [w']) && w'.file == w.file && w'.wire == w.wire && w'.live.Some?
            && w'.live.value.mem == Memory(img.rows, img.pos, img.previous, !a.lim.campaign, false)
            && forall id :: id in w'.live.value.todo <==>
                 a.lim.campaign && exists i :: 0 <= i < |img.rows| && img.rows[i].id == id && Open(img.rows[i])
  {
    var w := ws[|ws| - 1];
    var img := Load(c, a, w.file.value).value;
    w' := w.(live := Some(Process(Memory(img.rows, img.pos, img.previous, !a.lim.campaign, false),
                                  if a.lim.campaign then OpenIds(img.rows) else [], {})));
    assert Reopens(c, a, w, w') by { hide Load, OpenIds; }
    Extends(c, a, ws, w');
    hide Trace, Reopens, Load, OpenIds;
    forall id ensures id in OpenIds(img.rows) <==>
                        exists i :: 0 <= i < |img.rows| && img.rows[i].id == id && Open(img.rows[i])
    {
      OpenIdsAre(img.rows, id);
    }
  }

  lemma {:induction false} OpenIdsAre(rows: seq<Row>, id: Id)
    ensures id in OpenIds(rows) <==> exists i :: 0 <= i < |rows| && rows[i].id == id && Open(rows[i])
  {
    if rows != [] {
      var n := |rows| - 1;
      OpenIdsAre(rows[..n], id);
      if i :| 0 <= i < |rows| && rows[i].id == id && Open(rows[i]) {
        if i < n { assert rows[..n][i] == rows[i]; }
      }
      if i :| 0 <= i < n && rows[..n][i].id == id && Open(rows[..n][i]) { assert rows[i] == rows[..n][i]; }
    }
  }
}
