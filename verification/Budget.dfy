/**
 The controller object. One process holds it and its journal; threads take its
 lock, so each method is one atomic step. With `authority.lim.campaign` it is
 the restartable campaign budget, otherwise the audit-only base controller.
 */
module Budgets {
  import opened Wrappers
  import opened Ledger
  import opened CellSums
  import opened History
  import opened Journal
  import opened Controller

  /** The journal file and its directory entry, as the operating system offers them. */
  class Disk {
    var bytes: seq<byte>

    /** Writes that made no progress and barriers that failed, so far. */
    ghost var faults: nat

    /** The barriers passed since the last byte written: the file's, and its directory's. */
    ghost var flushed: bool
    ghost var named: bool

    constructor ()
      ensures bytes == [] && faults == 0
    {
      bytes, faults, flushed, named := [], 0, false, false;
    }

    /** Writes some of `view`, or nothing and reports a count that is not positive. */
    method Write(view: seq<byte>) returns (n: int)
      modifies this
      ensures n <= |view|
      ensures bytes == old(bytes) + view[..Max(0, if n < 0 then 0 else n)]
      ensures n > 0 ==> faults == old(faults) && !flushed && !named
      ensures n <= 0 ==> faults == old(faults) + 1 && flushed == old(flushed) && named == old(named)
    {
      n := *;
      if n < 0 || n > |view| {
        n := 0;
      }
      bytes := bytes + view[..n];
      if n > 0 {
        flushed, named := false, false;
      } else {
        faults := faults + 1;
      }
    }

    /** The file's barrier. It may fail; what was written stays written. */
    method Sync() returns (ok: bool)
      modifies `faults, `flushed
      ensures ok ==> flushed && faults == old(faults)
      ensures !ok ==> flushed == old(flushed) && faults == old(faults) + 1
    {
      ok := *;
      if ok {
        flushed := true;
      } else {
        faults := faults + 1;
      }
    }

    /** The directory's barrier. */
    method SyncDirectory() returns (ok: bool)
      modifies `faults, `named
      ensures ok ==> named && faults == old(faults)
      ensures !ok ==> named == old(named) && faults == old(faults) + 1
    {
      ok := *;
      if ok {
        named := true;
      } else {
        faults := faults + 1;
      }
    }

    /**
     A call that went through has passed both barriers after its last byte; one whose journal write failed
     met a fault; any other met none.
     */
    ghost predicate Explains(before: nat, done: Outcome)
      reads this
    {
      && before <= faults
      && (faults > before <==> done == NotDone(JournalWriteFailed))
      && (done.Done? ==> flushed && named)
    }
  }

  /** A journal of just its genesis is in step with an empty ledger. */
  lemma GenesisInStep(c: Codec, a: Authority)
    requires Sound(c) && a.genesis.Genesis?
    ensures var raw := GenesisLine(c, a);
            InStep(c, a, Memory([], 1, Some(c.sha(raw)), false, false), raw)
  {
    var raw := GenesisLine(c, a);
    GenesisWrite(c, a, |raw|);
    assert raw[..|raw|] == raw;
    hide Durable, Terminated, Sound;
    assert Exposure([]) == 0;
  }

  datatype OpenFailure = BadJournal(fault: Fault) | RecoveryFailed

  class Budget {
    const codec: Codec
    const authority: Authority
    const file: Disk
    var records: seq<Row>
    var pos: nat
    var previous: Option<Digest>
    var broken: bool
    var closed: bool

    ghost function Mem(): Memory
      reads this
    {
      Memory(records, pos, previous, broken, closed)
    }

    ghost predicate Ready()
      reads this, file
    {
      Sound(codec) && authority.genesis.Genesis? && InStep(codec, authority, Mem(), file.bytes)
    }

    /** Since this memory and this many faults: nothing was closed, and only a fault can have broken anything. */
    ghost predicate Steady(m: Memory, faults: nat)
      reads this, file
    {
      faults <= file.faults && closed == m.closed && (file.faults == faults ==> broken == m.broken)
    }

    /** The common part of both constructors: an empty controller over a file. */
    constructor (codec: Codec, authority: Authority, file: Disk)
      ensures this.codec == codec && this.authority == authority && this.file == file
      ensures Mem() == Memory([], 0, None, false, false)
    {
      this.codec := codec;
      this.authority := authority;
      this.file := file;
      records, pos, previous, broken, closed := [], 0, None, false, false;
    }

    // ---------------------------------------------------------- appending

    /** Writes one line completely, or marks the controller broken and leaves a prefix of it. */
    method Append(e: Event) returns (ok: bool)
      modifies `pos, `previous, `broken, file
      ensures old(file.faults) <= file.faults
      ensures ok <==> file.faults == old(file.faults)
      ensures ok ==> file.flushed && file.named
      ensures var raw := codec.dumps(Line(old(pos), old(previous), e));
              if ok then
                && file.bytes == old(file.bytes) + raw
                && pos == old(pos) + 1 && previous == Some(codec.sha(raw)) && broken == old(broken)
              else
                && broken && pos == old(pos) && previous == old(previous)
                && exists n :: 0 <= n <= |raw| && file.bytes == old(file.bytes) + raw[..n]
    {
      var raw := codec.dumps(Line(pos, previous, e));
      var done := 0;
      while done < |raw|
        invariant done <= |raw|
        invariant file.bytes == old(file.bytes) + raw[..done]
        invariant pos == old(pos) && previous == old(previous) && broken == old(broken)
        invariant file.faults == old(file.faults)
      {
        var n := file.Write(raw[done..]);
        if n <= 0 {
          assert raw[done..][..0] == [];
          broken := true;
          return false;
        }
        assert raw[..done] + raw[done..][..n] == raw[..done + n];
        done := done + n;
      }
      assert raw[..|raw|] == raw;
      ok := file.Sync();
      if ok {
        ok := file.SyncDirectory();
      }
      if !ok {
        broken := true;
        return;
      }
      pos := pos + 1;
      previous := Some(codec.sha(raw));
    }

    /** Reduce, journal, then publish. */
    method Fire(e: Event) returns (done: Outcome)
      requires Ready()
      modifies this, file
      ensures Ready()
      ensures Fired(codec, authority, old(Mem()), old(file.bytes), e, Mem(), file.bytes, done)
      ensures file.Explains(old(file.faults), done)
      ensures Steady(old(Mem()), old(file.faults))
    {
      if broken || closed {
        return NotDone(Frozen);
      }
      var next := Reduce(authority.lim, records, e);
      if next.Failure? {
        return NotDone(Denied(next.error));
      }
      var ok := Append(e);
      if ok {
        records := next.value;
        done := Done;
      } else {
        done := NotDone(JournalWriteFailed);
      }
      FiredStaysInStep(codec, authority, old(Mem()), old(file.bytes), e, Mem(), file.bytes, done);
    }

    // ---------------------------------------------------------- the calls

    method Reserve(cell: Cell, ib: int, ob: int, inRate: nat, outRate: nat, policy: Digest)
        returns (r: Result<Id, Denial>)
      requires Ready()
      modifies this, file
      ensures Ready()
      ensures Answered(codec, authority, old(Mem()), old(file.bytes),
                       DoReserve(cell, ib, ob, inRate, outRate, policy), Mem(), file.bytes,
                       if r.Success? then Done else NotDone(r.error))
      ensures file.Explains(old(file.faults), if r.Success? then Done else NotDone(r.error))
      ensures Steady(old(Mem()), old(file.faults))
      ensures r.Success? ==> r.value == Ident(authority.ns, old(pos))
    {
      hide InStep, Sound, Fired;
      var id := Ident(authority.ns, pos);
      var done := Fire(Ledger.Reserve(id, cell, ib, ob, inRate, outRate, policy));
      r := if done.Done? then Success(id) else Failure(done.why);
    }

    method Dispatch(cell: Cell, payload: Payload) returns (done: Outcome)
      requires Ready()
      modifies this, file
      ensures Ready()
      ensures Answered(codec, authority, old(Mem()), old(file.bytes),
                       DoDispatch(cell, payload), Mem(), file.bytes, done)
      ensures file.Explains(old(file.faults), done)
      ensures Steady(old(Mem()), old(file.faults))
    {
      hide InStep, Sound, Fired;
      var found := Matching(records, cell, Reserved);
      if |found| != 1 {
        return NotDone(NoOneUseAdmission);
      }
      var r := records[found[0]];
      if payload.output != Some(r.ob) {
        return NotDone(WireOutputChanged);
      }
      done := Fire(Ledger.Dispatch(r.id, Max(r.ib, payload.inputBound), payload.digest));
    }

    /** Settles at the reported usage, or forfeits when either count is absent. */
    method Settle(id: Id, input: Option<int>, output: Option<int>) returns (r: Result<Option<nat>, Denial>)
      requires Ready()
      modifies this, file
      ensures Ready()
      ensures Answered(codec, authority, old(Mem()), old(file.bytes),
                       DoSettle(id, input, output), Mem(), file.bytes,
                       if r.Success? then Done else NotDone(r.error))
      ensures file.Explains(old(file.faults), if r.Success? then Done else NotDone(r.error))
      ensures Steady(old(Mem()), old(file.faults))
      ensures r.Success? && (input.None? || output.None?) ==> r.value == None
      ensures r.Success? && input.Some? && output.Some? ==>
                var i := Find(records, id);
                i < |records| && r.value.Some? && records[i].state == Settled(r.value.value)
    {
      hide InStep, Sound, Fired;
      if input.None? || output.None? {
        var done := Forfeit(id);
        return if done.Done? then Success(None) else Failure(done.why);
      }
      var done := Fire(Ledger.Settle(id, input.value, output.value));
      if done.NotDone? {
        return Failure(done.why);
      }
      SettledInPlace(codec, authority, old(Mem()), old(file.bytes), id, input.value, output.value, Mem(), file.bytes);
      r := Success(Some(records[Find(records, id)].state.actual));
    }

    method Forfeit(id: Id) returns (done: Outcome)
      requires Ready()
      modifies this, file
      ensures Ready()
      ensures Answered(codec, authority, old(Mem()), old(file.bytes), DoForfeit(id), Mem(), file.bytes, done)
      ensures file.Explains(old(file.faults), done)
      ensures Steady(old(Mem()), old(file.faults))
    {
      hide InStep, Sound, Fired;
      done := Fire(Ledger.Forfeit(id));
    }

    method Cancel(id: Id) returns (done: Outcome)
      requires Ready()
      modifies this, file
      ensures Ready()
      ensures Answered(codec, authority, old(Mem()), old(file.bytes), DoCancel(id), Mem(), file.bytes, done)
      ensures file.Explains(old(file.faults), done)
      ensures Steady(old(Mem()), old(file.faults))
    {
      hide InStep, Sound, Fired;
      done := Fire(Ledger.Cancel(id, CANCEL_PROOF));
    }

    /** Every further wire RPC of a dispatched attempt, journalled before it is made. */
    method RawRpc(cell: Cell, endpoint: string, request: Digest) returns (done: Outcome)
      requires Ready() && authority.lim.campaign
      modifies this, file
      ensures Ready()
      ensures Answered(codec, authority, old(Mem()), old(file.bytes),
                       DoRawRpc(cell, endpoint, request), Mem(), file.bytes, done)
      ensures file.Explains(old(file.faults), done)
      ensures Steady(old(Mem()), old(file.faults))
    {
      hide InStep, Sound, Fired;
      if broken {
        return NotDone(Frozen);
      }
      var found := Matching(records, cell, Sent);
      if |found| != 1 {
        return NotDone(NoDispatchedReservation);
      }
      var r := records[found[0]];
      done := Fire(Ledger.RawRpc(r.id, r.rawRpcs + 1, endpoint, request));
    }

    // ---------------------------------------------------------- creating and reopening

    /** First opening: the genesis line is the whole journal. */
    method Create() returns (ok: bool)
      requires Sound(codec) && authority.genesis.Genesis?
      requires Mem() == Memory([], 0, None, false, false) && file.bytes == []
      modifies this, file
      ensures old(file.faults) <= file.faults
      ensures ok <==> file.faults == old(file.faults)
      ensures ok ==> file.flushed && file.named
      ensures ok ==>
                && Ready() && file.bytes == GenesisLine(codec, authority)
                && Mem() == Memory([], 1, Some(codec.sha(file.bytes)), false, false)
      ensures !ok ==>
                && broken && closed && records == []
                && exists n :: 0 <= n <= |GenesisLine(codec, authority)|
                               && file.bytes == GenesisLine(codec, authority)[..n]
    {
      ghost var raw := GenesisLine(codec, authority);
      ok := Append(authority.genesis);
      if ok {
        assert file.bytes == raw;
        GenesisInStep(codec, authority);
      } else {
        ghost var n: nat :| 0 <= n <= |raw| && file.bytes == old(file.bytes) + raw[..n];
        assert file.bytes == raw[..n];
        closed := true;
      }
    }

    /** Rebuilds memory from the file line by line, stopping at the first line it cannot accept. */
    method ReplayFile() returns (fault: Option<Fault>)
      requires Sound(codec)
      requires Mem() == Memory([], 0, None, false, false)
      modifies this
      ensures !broken && !closed
      ensures match Load(codec, authority, file.bytes)
              case Failure(why) => fault == Some(why)
              case Success(img) => fault == None && img == Image(records, pos, previous)
    {
      var rest := file.bytes;
      if rest == [] || (!authority.lim.campaign && !Terminated(rest)) {
        return Some(TornOrEmpty);
      }
      ghost var seen: seq<seq<byte>> := [];
      while rest != []
        invariant seen + Split(rest) == Split(file.bytes)
        invariant !broken && !closed
        invariant Replay(codec, authority, seen) == Success(Image(records, pos, previous))
        decreases |rest|
      {
        var n := Cut(rest);
        var next := Accept(codec, authority, Image(records, pos, previous), rest[..n]);
        ReplayOneMore(codec, authority, seen, rest);
        if next.Failure? {
          return Some(next.error);
        }
        records, pos, previous := next.value.rows, next.value.pos, next.value.previous;
        seen := seen + [rest[..n]];
        rest := rest[n..];
      }
      assert seen + Split(rest) == seen;
      fault := None;
    }

    /** Durably forfeits every open row in turn; only a failed journal write stops it, and without faults none fails. */
    method ForfeitOpen() returns (ok: bool)
      requires Ready() && !broken && !closed
      modifies this, file
      ensures Ready() && !closed
      ensures old(file.faults) <= file.faults
      ensures ok <==> file.faults == old(file.faults)
      ensures !ok ==> broken
      ensures ok ==> !broken && records == Recovered(old(records))
      ensures old(file.bytes) <= file.bytes
      ensures NoneOpen(old(records)) ==> file.bytes == old(file.bytes)
    {
      var snapshot := records;
      assert ClosedBelow(snapshot, 0) == snapshot;
      assert ClosedBelow(snapshot, |snapshot|) == Recovered(snapshot);
      hide InStep, Sound, Answered, Recovered, ClosedBelow;
      for i := 0 to |snapshot|
        invariant Ready() && !broken && !closed
        invariant records == ClosedBelow(snapshot, i)
        invariant old(file.bytes) <= file.bytes
        invariant file.faults == old(file.faults)
        invariant NoneOpen(snapshot) ==> file.bytes == old(file.bytes)
      {
        ghost var m, b := Mem(), file.bytes;
        if Open(snapshot[i]) {
          var done := Forfeit(snapshot[i].id);
          RecoveryTurn(codec, authority, m, b, snapshot, i, Mem(), file.bytes, done);
          if done.NotDone? {
            return false;
          }
        } else {
          RecoverySkips(snapshot, i);
        }
      }
      ok := true;
    }

    /**
     Later openings. The base controller only audits and accepts nothing more. A
     campaign durably forfeits every row still open, then carries on.
     */
    method Reopen() returns (r: Result<(), OpenFailure>)
      requires Sound(codec) && authority.genesis.Genesis?
      requires Mem() == Memory([], 0, None, false, false)
      modifies this, file
      ensures old(file.faults) <= file.faults
      ensures r.Success? <==> Load(codec, authority, old(file.bytes)).Success? && file.faults == old(file.faults)
      ensures r.Success? ==> Ready()
      ensures r.Success? ==>
                var img := Load(codec, authority, old(file.bytes)).value;
                if authority.lim.campaign then
                  && !broken && !closed
                  && records == Recovered(img.rows)
                  && NoneOpen(records) && Exposure(records) == Exposure(img.rows)
                  && Durable(codec, authority, file.bytes) == Success(Image(records, pos, previous))
                  && old(file.bytes) <= file.bytes
                  && (NoneOpen(img.rows) ==> file.bytes == old(file.bytes))
                else
                  broken && records == img.rows && file.bytes == old(file.bytes)
      ensures r.Failure? ==> closed
      ensures r.Failure? && r.error.RecoveryFailed? ==> broken && file.faults > old(file.faults)
      ensures r.Failure? && r.error.BadJournal? ==>
                file.bytes == old(file.bytes) && Load(codec, authority, file.bytes) == Failure(r.error.fault)
      ensures Load(codec, authority, old(file.bytes)).Failure? ==> r.Failure? && r.error.BadJournal?
    {
      var fault := ReplayFile();
      if fault.Some? {
        closed := true;
        return Failure(BadJournal(fault.value));
      }
      LoadedInStep(codec, authority, file.bytes);
      RecoverySettlesEverything(authority.lim, records);
      if !authority.lim.campaign {
        broken := true;
        return Success(());
      }
      var ok := ForfeitOpen();
      if !ok {
        closed := true;
        return Failure(RecoveryFailed);
      }
      r := Success(());
    }

    // ---------------------------------------------------------- totals

    /** The reported split of exposure, summed row by row. */
    method Totals() returns (known: nat, pending: nat, unknown: nat, remaining: Option<int>)
      ensures known == Sum(records, SettledAmount)
      ensures pending == Sum(records, OpenAmount)
      ensures unknown == Sum(records, UnknownAmount)
      ensures known + pending + unknown == Exposure(records)
      ensures authority.lim.cap.None? ==> remaining == None
      ensures authority.lim.cap.Some? ==> remaining == Some(authority.lim.cap.value - Exposure(records))
    {
      known, pending, unknown := 0, 0, 0;
      for i := 0 to |records|
        invariant known == Sum(records[..i], SettledAmount)
        invariant pending == Sum(records[..i], OpenAmount)
        invariant unknown == Sum(records[..i], UnknownAmount)
        invariant known + pending + unknown == Exposure(records[..i])
      {
        assert records[..i + 1] == records[..i] + [records[i]];
        SumAppend(records[..i], records[i], SettledAmount);
        SumAppend(records[..i], records[i], OpenAmount);
        SumAppend(records[..i], records[i], UnknownAmount);
        SumAppend(records[..i], records[i], Liability);
        known := known + SettledAmount(records[i]);
        pending := pending + OpenAmount(records[i]);
        unknown := unknown + UnknownAmount(records[i]);
      }
      assert records[..|records|] == records;
      remaining := match authority.lim.cap
        case None => None
        case Some(cap) => Some(cap - known - pending - unknown);
    }

    /** A cell's forfeits: what was first reserved, what dispatch added, and the whole. */
    method CellAccounting(cell: Cell) returns (legacy: nat, supplement: int, full: nat)
      requires Ready()
      ensures legacy == Sum(records, Of(cell, InitialUnknown))
      ensures full == Sum(records, Of(cell, UnknownAmount))
      ensures legacy + supplement == full && 0 <= supplement
    {
      hide InStep, Sound, Of, Sum, UnknownAmount, InitialUnknown;
      SumNothing(records, Of(cell, InitialUnknown));
      SumNothing(records, Of(cell, UnknownAmount));
      legacy, full := 0, 0;
      for i := 0 to |records|
        invariant legacy == Sum(records[..i], Of(cell, InitialUnknown))
        invariant full == Sum(records[..i], Of(cell, UnknownAmount))
      {
        var r := records[i];
        assert records[..i + 1] == records[..i] + [r];
        SumAppend(records[..i], r, Of(cell, InitialUnknown));
        SumAppend(records[..i], r, Of(cell, UnknownAmount));
        OfForfeits(cell, r);
        if r.cell == cell && r.state.Unknown? {
          legacy := legacy + r.initialBound;
          full := full + r.bound;
        }
      }
      assert records[..|records|] == records;
      MemoryForfeitsCover(codec, authority, Mem(), file.bytes, cell);
      supplement := full - legacy;
    }
  }

  lemma SettledInPlace(c: Codec, a: Authority, m: Memory, b: seq<byte>, id: Id, input: int, output: int,
                       m': Memory, b': seq<byte>)
    requires InStep(c, a, m, b)
    requires Fired(c, a, m, b, Ledger.Settle(id, input, output), m', b', Done)
    ensures Find(m'.rows, id) < |m'.rows| && m'.rows[Find(m'.rows, id)].state.Settled?
  {
    MemoryValid(c, a, m, b);
    hide InStep, Reduce, Valid;
    SettlesRow(a.lim, m.rows, Ledger.Settle(id, input, output), m'.rows);
  }

  lemma SettlesRow(lim: Limits, rows: seq<Row>, e: Event, next: seq<Row>)
    requires Valid(lim, rows) && e.Settle? && Reduce(lim, rows, e) == Success(next)
    ensures Find(next, e.id) < |next| && next[Find(next, e.id)].state.Settled?
  {
    StepKeepsValid(lim, rows, e);
    assert DistinctIds(next);
    hide Valid, Reduce, Price;
    ChangeInPlace(lim, rows, e, next);
    FindUnique(next, Find(rows, e.id));
  }

  lemma RecoverySkips(snapshot: seq<Row>, i: nat)
    requires i < |snapshot| && !Open(snapshot[i])
    ensures ClosedBelow(snapshot, i + 1) == ClosedBelow(snapshot, i)
  {
  }

  /** One turn of the recovery loop: the next row is closed, or the journal write failed. */
  lemma RecoveryTurn(c: Codec, a: Authority, m: Memory, b: seq<byte>, snapshot: seq<Row>, i: nat,
                     m': Memory, b': seq<byte>, done: Outcome)
    requires InStep(c, a, m, b) && !m.broken && !m.closed
    requires i < |snapshot| && Open(snapshot[i]) && m.rows == ClosedBelow(snapshot, i)
    requires Answered(c, a, m, b, DoForfeit(snapshot[i].id), m', b', done)
    ensures !m'.closed && b <= b'
    ensures if done.Done? then !m'.broken && m'.rows == ClosedBelow(snapshot, i + 1)
            else m'.broken && done == NotDone(JournalWriteFailed)
  {
    RecoveryStep(a.lim, snapshot, i);
  }

  lemma MemoryForfeitsCover(c: Codec, a: Authority, m: Memory, b: seq<byte>, cell: Cell)
    requires InStep(c, a, m, b)
    ensures Sum(m.rows, Of(cell, InitialUnknown)) <= Sum(m.rows, Of(cell, UnknownAmount))
  {
    MemoryValid(c, a, m, b);
    ForfeitsCoverInitial(a.lim, m.rows, cell);
  }

  /** Replay stops for good at the first refused line. */
  lemma {:induction false} ReplayRefused(c: Codec, a: Authority, lines: seq<seq<byte>>, rest: seq<seq<byte>>)
    requires Replay(c, a, lines).Failure?
    ensures Replay(c, a, lines + rest) == Replay(c, a, lines)
  {
    if rest == [] {
      assert lines + rest == lines;
    } else {
      var n := |rest| - 1;
      assert (lines + rest)[..|lines| + n] == lines + rest[..n];
      ReplayRefused(c, a, lines, rest[..n]);
    }
  }

  lemma ReplaySnoc(c: Codec, a: Authority, lines: seq<seq<byte>>, line: seq<byte>)
    requires Replay(c, a, lines).Success?
    ensures Replay(c, a, lines + [line]) == Accept(c, a, Replay(c, a, lines).value, line)
  {
    assert (lines + [line])[..|lines|] == lines;
  }

  lemma SplitFirst(seen: seq<seq<byte>>, rest: seq<byte>)
    requires rest != []
    ensures seen + Split(rest) == seen + [rest[..Cut(rest)]] + Split(rest[Cut(rest)..])
  {
  }

  lemma ReplayOneMore(c: Codec, a: Authority, seen: seq<seq<byte>>, rest: seq<byte>)
    requires rest != [] && Replay(c, a, seen).Success?
    ensures var line, others := rest[..Cut(rest)], Split(rest[Cut(rest)..]);
            var next := Replay(c, a, seen + [line]);
            && next == Accept(c, a, Replay(c, a, seen).value, line)
            && seen + [line] + others == seen + Split(rest)
            && (next.Failure? ==> Replay(c, a, seen + Split(rest)) == next)
  {
    var line, others := rest[..Cut(rest)], Split(rest[Cut(rest)..]);
    SplitFirst(seen, rest);
    ReplaySnoc(c, a, seen, line);
    if Replay(c, a, seen + [line]).Failure? {
      ReplayRefused(c, a, seen + [line], others);
    }
  }

  /** A file that loads is terminated and already in step. */
  lemma LoadedInStep(c: Codec, a: Authority, b: seq<byte>)
    requires Sound(c) && a.genesis.Genesis? && Load(c, a, b).Success?
    ensures var img := Load(c, a, b).value;
            && InStep(c, a, Memory(img.rows, img.pos, img.previous, false, false), b)
            && InStep(c, a, Memory(img.rows, img.pos, img.previous, true, false), b)
  {
    var lines := Split(b);
    SplitTerminated(b);
    ReplayIsRun(c, a, lines);
    RunValid(a.lim, Decoded(c, lines)[1..]);
  }

  /** What a recovered campaign leaves on disk loads to the same settled rows, so another opening owes nothing. */
  lemma RecoveredFileOwesNothing(c: Codec, a: Authority, m: Memory, b: seq<byte>)
    requires Sound(c) && InStep(c, a, m, b) && !m.broken && NoneOpen(m.rows)
    ensures Load(c, a, b) == Success(Image(m.rows, m.pos, m.previous))
    ensures Recovered(Load(c, a, b).value.rows) == m.rows
  {
    assert b != [];
    assert Recovered(m.rows) == m.rows;
  }
}
