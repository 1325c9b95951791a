/**
 Recovery inside the crash machine: what a reopened campaign still owes is its
 open rows, in order; no forfeit of theirs is refused, and paying them all
 leaves nothing open at the same exposure.
 */
module CrashRecovery {
  import opened Wrappers
  import opened Ledger
  import opened Journal
  import opened Controller
  import opened Budgets
  import opened CrashWorld

  function Shut(r: Row): Row {
    r.(state := Unknown)
  }

  /** The first row still open, and what closing it leaves. */
  lemma {:induction false} FirstOpen(rows: seq<Row>) returns (i: nat)
    requires OpenIds(rows) != []
    ensures i < |rows| && Open(rows[i]) && rows[i].id == OpenIds(rows)[0]
    ensures OpenIds(rows[i := Shut(rows[i])]) == OpenIds(rows)[1..]
  {
    var n := |rows| - 1;
    if OpenIds(rows[..n]) == [] {
      i := n;
      assert rows[n := Shut(rows[n])][..n] == rows[..n];
    } else {
      i := FirstOpen(rows[..n]);
      assert rows[i := Shut(rows[i])][..n] == rows[..n][i := Shut(rows[i])];
    }
  }

  lemma {:induction false} NoIdsNoneOpen(rows: seq<Row>)
    requires OpenIds(rows) == []
    ensures NoneOpen(rows)
  {
    if rows != [] {
      NoIdsNoneOpen(rows[..|rows| - 1]);
    }
  }

  /** Forfeiting the first open identifier is accepted, costs nothing and leaves the rest to do. */
  lemma FirstForfeit(lim: Limits, rows: seq<Row>)
    requires Valid(lim, rows) && OpenIds(rows) != []
    ensures var next := Reduce(lim, rows, Forfeit(OpenIds(rows)[0]));
            && next.Success?
            && OpenIds(next.value) == OpenIds(rows)[1..]
            && Exposure(next.value) == Exposure(rows)
  {
    var i := FirstOpen(rows);
    OpenRowForfeits(lim, rows, i);
    hide Reduce, OpenIds, Valid;
  }

  /** The process owes exactly its open rows, and can still write. */
  ghost predicate OwesItsOpenRows(p: Process) {
    !p.mem.broken && !p.mem.closed && OpenIds(p.mem.rows) == p.todo
  }

  ghost predicate TodoInv(w: World) {
    w.live.Some? && w.live.value.todo != [] ==> OwesItsOpenRows(w.live.value)
  }

  /** One recovery forfeit of a process that owes its open rows. */
  lemma RecoveryForfeit(c: Codec, a: Authority, w: World, w': World, mem: Memory, b: seq<byte>, done: Outcome)
    requires Inv(c, a, w) && RecoversWith(c, a, w, w', mem, b, done) && TodoInv(w)
    ensures done.Done? || done == NotDone(JournalWriteFailed)
    ensures done.Done? ==>
              && w'.live.Some? && OwesItsOpenRows(w'.live.value)
              && |w'.live.value.todo| + 1 == |w.live.value.todo|
              && Exposure(w'.live.value.mem.rows) == Exposure(w.live.value.mem.rows)
  {
    MemoryValid(c, a, w.live.value.mem, w.file.value);
    hide Inv, Valid;
    FirstForfeit(a.lim, w.live.value.mem.rows);
    hide Reduce, OpenIds;
  }

  lemma NextKeepsTodo(c: Codec, a: Authority, w: World, w': World)
    requires Sound(c) && Inv(c, a, w) && Next(c, a, w, w') && TodoInv(w)
    ensures TodoInv(w')
  {
    hide Inv, Answered, OpenIds, Load, Truthful;
    if mem, b, done :| RecoversWith(c, a, w, w', mem, b, done) {
      RecoveryForfeit(c, a, w, w', mem, b, done);
    }
  }

  /** In every world of every run a recovering process owes exactly its open rows. */
  lemma {:induction false} TraceTodo(c: Codec, a: Authority, ws: seq<World>, n: nat)
    requires Sound(c) && a.genesis.Genesis? && Trace(c, a, ws) && n < |ws|
    ensures TodoInv(ws[n])
  {
    if n > 0 {
      TraceTodo(c, a, ws, n - 1);
      TraceInv(c, a, ws, n - 1);
      assert Next(c, a, ws[n - 1], ws[n - 1 + 1]);
      hide TodoInv, Inv, Next, Trace;
      NextKeepsTodo(c, a, ws[n - 1], ws[n]);
    }
  }

  /** In every run no recovery forfeit is refused: it is journalled, or its write failed. */
  lemma RecoveryIsNeverRefused(c: Codec, a: Authority, ws: seq<World>, n: nat,
                               w': World, mem: Memory, b: seq<byte>, done: Outcome)
    requires Sound(c) && a.genesis.Genesis? && Trace(c, a, ws) && n < |ws|
    requires RecoversWith(c, a, ws[n], w', mem, b, done)
    ensures done.Done? || done == NotDone(JournalWriteFailed)
  {
    hide RecoversWith, Trace, Inv, TodoInv;
    TraceInv(c, a, ws, n);
    TraceTodo(c, a, ws, n);
    RecoveryForfeit(c, a, ws[n], w', mem, b, done);
  }

  // ------------------------------------------------------------ a whole recovery

  ghost predicate Recovers(c: Codec, a: Authority, w: World, w': World) {
    exists mem, b :: RecoversWith(c, a, w, w', mem, b, Done)
  }

  /** From a reopening at `t` on, every step up to `n` is a recovery forfeit that was journalled. */
  ghost predicate Recovering(c: Codec, a: Authority, ws: seq<World>, t: nat, n: nat) {
    && t < n < |ws| && a.lim.campaign && Reopens(c, a, ws[t], ws[t + 1])
    && forall k :: t < k < n ==> Recovers(c, a, ws[k], ws[k + 1])
  }

  lemma {:induction false} RecoverySoFar(c: Codec, a: Authority, ws: seq<World>, t: nat, n: nat)
    requires Sound(c) && a.genesis.Genesis? && Trace(c, a, ws) && Recovering(c, a, ws, t, n)
    ensures ws[n].live.Some? && OwesItsOpenRows(ws[n].live.value)
    ensures Load(c, a, ws[t].file.value).Success?
    ensures Exposure(ws[n].live.value.mem.rows) == Exposure(Load(c, a, ws[t].file.value).value.rows)
    decreases n
  {
    hide Trace, Inv, OpenIds, Load;
    if n > t + 1 {
      RecoverySoFar(c, a, ws, t, n - 1);
      TraceInv(c, a, ws, n - 1);
      assert Recovers(c, a, ws[n - 1], ws[n - 1 + 1]);
      hide Recovering, OwesItsOpenRows;
      RecoveryOn(c, a, ws[n - 1], ws[n]);
    }
  }

  lemma RecoveryOn(c: Codec, a: Authority, w: World, w': World)
    requires Inv(c, a, w) && Recovers(c, a, w, w') && w.live.Some? && OwesItsOpenRows(w.live.value)
    ensures w'.live.Some? && OwesItsOpenRows(w'.live.value)
    ensures Exposure(w'.live.value.mem.rows) == Exposure(w.live.value.mem.rows)
  {
    hide Inv, RecoversWith, OwesItsOpenRows;
    var mem, b :| RecoversWith(c, a, w, w', mem, b, Done);
    RecoveryForfeit(c, a, w, w', mem, b, Done);
  }

  /** A recovery that has nothing left to do ends with nothing open, at the exposure it loaded. */
  lemma RecoveryEndsSettled(c: Codec, a: Authority, ws: seq<World>, t: nat, n: nat)
    requires Sound(c) && a.genesis.Genesis? && Trace(c, a, ws) && Recovering(c, a, ws, t, n)
    requires ws[n].live.Some? && ws[n].live.value.todo == []
    ensures NoneOpen(ws[n].live.value.mem.rows)
    ensures Load(c, a, ws[t].file.value).Success?
    ensures Exposure(ws[n].live.value.mem.rows) == Exposure(Load(c, a, ws[t].file.value).value.rows)
  {
    hide Trace, Load;
    RecoverySoFar(c, a, ws, t, n);
    NoIdsNoneOpen(ws[n].live.value.mem.rows);
  }

  /**
   Reopening again owes nothing: when the process had nothing open and could still write, the
   next process starts with nothing to do, and with exactly its rows.
   */
  lemma QuietReopening(c: Codec, a: Authority, w: World, dead: World, w': World)
    requires Sound(c) && Inv(c, a, w) && Dies(w, dead) && Reopens(c, a, dead, w')
    requires !w.live.value.mem.broken && NoneOpen(w.live.value.mem.rows)
    ensures w'.live.Some? && w'.live.value.todo == [] && w'.file == w.file
    ensures w'.live.value.mem.rows == w.live.value.mem.rows
  {
    RecoveredFileOwesNothing(c, a, w.live.value.mem, w.file.value);
    hide InStep, Load, Inv;
    NoneOpenNoIds(w.live.value.mem.rows);
  }

  lemma {:induction false} NoneOpenNoIds(rows: seq<Row>)
    requires NoneOpen(rows)
    ensures OpenIds(rows) == []
  {
    if rows != [] {
      NoneOpenNoIds(rows[..|rows| - 1]);
    }
  }

  /** In every run, dying after a finished recovery and reopening leaves nothing to forfeit. */
  lemma SecondReopeningOwesNothing(c: Codec, a: Authority, ws: seq<World>, t: nat, n: nat)
    requires Sound(c) && a.genesis.Genesis? && Trace(c, a, ws) && Recovering(c, a, ws, t, n) && n + 2 < |ws|
    requires ws[n].live.Some? && ws[n].live.value.todo == []
    requires Dies(ws[n], ws[n + 1]) && Reopens(c, a, ws[n + 1], ws[n + 2])
    ensures ws[n + 2].live.Some? && ws[n + 2].live.value.todo == [] && ws[n + 2].file == ws[n].file
    ensures ws[n + 2].live.value.mem.rows == ws[n].live.value.mem.rows
  {
    RecoverySoFar(c, a, ws, t, n);
    RecoveryEndsSettled(c, a, ws, t, n);
    TraceInv(c, a, ws, n);
    hide Trace, Recovering, Inv, Dies, Reopens, Load, NoneOpen, OpenIds;
    QuietReopening(c, a, ws[n], ws[n + 1], ws[n + 2]);
  }

  // ------------------------------------------------------------ the base controller after a reopening

  /** A base controller's process since some reopening: audit-only, with this file and these wire calls. */
  ghost predicate AuditOnly(w: World, file: Option<seq<byte>>, wire: seq<WireCall>) {
    && w.file == file && file.Some? && w.wire == wire
    && (w.live.Some? ==> w.live.value.mem.broken && w.live.value.todo == [] && w.live.value.permits == {})
  }

  lemma NextKeepsAudit(c: Codec, a: Authority, w: World, w': World, file: Option<seq<byte>>, wire: seq<WireCall>)
    requires !a.lim.campaign && AuditOnly(w, file, wire) && Next(c, a, w, w')
    ensures AuditOnly(w', file, wire)
  {
    hide Load, OpenIds, Truthful, Permitted;
    if call, mem, b, done :| CallsWith(c, a, w, w', call, mem, b, done) {
      BrokenAnswers(c, a, w.live.value.mem, w.file.value, call, mem, b, done);
      hide Answered;
    }
  }

  /** A broken controller answers no call and changes nothing. */
  lemma BrokenAnswers(c: Codec, a: Authority, m: Memory, b: seq<byte>, call: Call,
                      m': Memory, b': seq<byte>, done: Outcome)
    requires m.broken && Answered(c, a, m, b, call, m', b', done)
    ensures done.NotDone? && m' == m && b' == b
  {
    hide Request, Reduce;
  }

  /** From a base reopening on, the journal never changes again and nothing more goes out, in any later world. */
  lemma {:induction false} BaseNeverWritesAgain(c: Codec, a: Authority, ws: seq<World>, t: nat, n: nat)
    requires !a.lim.campaign && Trace(c, a, ws) && t < n < |ws| && Reopens(c, a, ws[t], ws[t + 1])
    ensures AuditOnly(ws[n], ws[t].file, ws[t].wire)
    decreases n
  {
    hide Trace, Reopens, AuditOnly, Next;
    if n > t + 1 {
      BaseNeverWritesAgain(c, a, ws, t, n - 1);
      TraceNext(c, a, ws, n - 1, ws[n - 1], ws[n]);
      NextKeepsAudit(c, a, ws[n - 1], ws[n], ws[t].file, ws[t].wire);
    } else {
      ReopenedAudits(c, a, ws[t], ws[t + 1]);
    }
  }

  lemma TraceNext(c: Codec, a: Authority, ws: seq<World>, i: nat, w: World, w': World)
    requires Trace(c, a, ws) && i + 1 < |ws| && w == ws[i] && w' == ws[i + 1]
    ensures Next(c, a, w, w')
  {
    hide Next;
  }

  lemma ReopenedAudits(c: Codec, a: Authority, w: World, w': World)
    requires !a.lim.campaign && Reopens(c, a, w, w')
    ensures AuditOnly(w', w.file, w.wire)
  {
    hide Load, OpenIds;
  }
}
