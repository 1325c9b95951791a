/**
 Creating a permanent marker file: exclusive create, a write loop that survives
 short writes and interruptions, and a read back that accepts only the exact bytes.
 */
module Markers {

  /** The names the two launch protocols create, by directory. */
  datatype Key =
    | Consumed(dir: nat, nonce: nat)
    | Claim(dir: nat, index: nat)
    | Output(dir: nat, index: nat)
    | EpisodeConsumed(dir: nat)

  const RESERVATION_BYTES: string :=
    "operatebench Sonnet 5 one-cell canary: this exact output name was claimed by an " +
    "attempted launch.\nThis permanent one-shot marker is intentionally retained " +
    "and is not evidence.\n"

  const PREREGISTRATION_CONSUMED_BYTES: string :=
    "operatebench Sonnet 5 preregistration permanently consumed; this is not " +
    "authorization or run evidence.\n"

  type Files = map<Key, string>

  datatype OpenResult = Opened | Exists | OpenError
  datatype WriteResult = Wrote(count: int) | WriteInterrupted | WriteError
  datatype ReadResult = Chunk(text: string) | ReadInterrupted | ReadError
  datatype CallResult = Returned | CallInterrupted | CallError

  /** Calls that move no bytes: fixing the mode, the file's barrier, seeking to its start, the directory's barrier. */
  datatype Ask = SetMode | SyncFile | Rewind | SyncDirectory

  const BARRIERS: set<Ask> := {SyncFile, SyncDirectory}

  const EVERYTHING: set<Ask> := {SetMode, SyncFile, Rewind, SyncDirectory}

  /** How an attempt to take a marker ends. */
  datatype Taking = Held | NameTaken | NotCreated | Spoiled

  /** What taking `key` does to the directory: a created name stays, whatever happens next. */
  ghost predicate Takes(before: Files, after: Files, key: Key, bytes: string, t: Taking) {
    match t
    case Held => key !in before && after == before[key := bytes]
    case NameTaken => key in before && after == before
    case NotCreated => after == before
    case Spoiled => key !in before && key in after && after == before[key := after[key]]
  }

  /**
   The operating system as the launch sees it. Writes may be short, lie about their
   length or land the wrong bytes; reads return what the file holds; any call may
   fail. `faults` counts misbehaviour, `interruptsLeft` the interruptions still to come, and
   `passed` are the calls that returned since the last create, barriers since the last write;
   `cut` counts the calls that were interrupted.
   */
  class Os {
    var files: Files
    var interruptsLeft: nat
    var faults: nat
    ghost var passed: set<Ask>
    ghost var cut: nat

    constructor (files: Files, interrupts: nat)
      ensures this.files == files && interruptsLeft == interrupts && faults == 0
    {
      this.files, interruptsLeft, faults, passed, cut := files, interrupts, 0, {}, 0;
    }

    /** Everything except `key` is as it was, and the environment's tallies moved the right way. */
    twostate predicate OnlyTouches(key: Key)
      reads this
    {
      && files.Keys == old(files.Keys) + (if key in files then {key} else {})
      && (forall k :: k in old(files) && k != key ==> files[k] == old(files[k]))
      && faults >= old(faults)
      && interruptsLeft <= old(interruptsLeft)
    }

    method CreateExclusive(key: Key) returns (r: OpenResult)
      modifies this
      ensures interruptsLeft == old(interruptsLeft) && cut == old(cut)
      ensures r.Opened? ==>
                key !in old(files) && files == old(files)[key := ""] && faults == old(faults) && passed == {}
      ensures r.Exists? ==> key in old(files) && files == old(files) && faults == old(faults)
      ensures r.OpenError? ==> files == old(files) && faults > old(faults)
    {
      var fails: bool := *;
      if fails {
        faults := faults + 1;
        r := OpenError;
      } else if key in files {
        r := Exists;
      } else {
        files := files[key := ""];
        passed := {};
        r := Opened;
      }
    }

    method Write(key: Key, data: string) returns (r: WriteResult)
      requires key in files && data != ""
      modifies this
      ensures key in files && OnlyTouches(key)
      ensures cut == old(cut) && passed == if r.Wrote? then old(passed) - BARRIERS else old(passed)
      ensures r.WriteInterrupted? ==>
                files == old(files) && interruptsLeft < old(interruptsLeft) && faults == old(faults)
      ensures r.WriteError? ==> faults > old(faults)
      ensures r.Wrote? && faults == old(faults) ==>
                0 < r.count <= |data| && files == old(files)[key := old(files[key]) + data[..r.count]]
    {
      var behaviour: nat := *;
      if behaviour == 0 && interruptsLeft > 0 {
        interruptsLeft := interruptsLeft - 1;
        r := WriteInterrupted;
      } else if behaviour <= 1 {
        faults := faults + 1;
        r := WriteError;
      } else if behaviour == 2 {
        var landed: string := *;
        var count: int := *;
        files := files[key := files[key] + landed];
        faults := faults + 1;
        passed := passed - BARRIERS;
        r := Wrote(count);
      } else {
        var count: nat :| 0 < count <= |data|;
        files := files[key := files[key] + data[..count]];
        passed := passed - BARRIERS;
        r := Wrote(count);
      }
    }

    method Read(key: Key, position: nat, limit: nat) returns (r: ReadResult)
      requires key in files && position <= |files[key]| && limit > 0
      modifies this
      ensures files == old(files) && passed == old(passed) && cut == old(cut)
      ensures faults >= old(faults) && interruptsLeft <= old(interruptsLeft)
      ensures r.ReadInterrupted? ==> interruptsLeft < old(interruptsLeft) && faults == old(faults)
      ensures r.ReadError? ==> faults > old(faults)
      ensures r.Chunk? ==>
                && faults == old(faults) && |r.text| <= limit && position + |r.text| <= |files[key]|
                && r.text == files[key][position..position + |r.text|]
                && (r.text == "" <==> position == |files[key]|)
    {
      var behaviour: nat := *;
      var here := |files[key]| - position;
      if behaviour == 0 && interruptsLeft > 0 {
        interruptsLeft := interruptsLeft - 1;
        r := ReadInterrupted;
      } else if behaviour <= 1 {
        faults := faults + 1;
        r := ReadError;
      } else if here == 0 {
        r := Chunk("");
      } else {
        var count: nat :| 0 < count <= limit && count <= here;
        r := Chunk(files[key][position..position + count]);
      }
    }

    method Call(ask: Ask) returns (r: CallResult)
      modifies this
      ensures files == old(files)
      ensures passed == if r.Returned? then old(passed) + {ask} else old(passed)
      ensures cut == old(cut) + if r.CallInterrupted? then 1 else 0
      ensures r.Returned? ==> faults == old(faults) && interruptsLeft == old(interruptsLeft)
      ensures r.CallInterrupted? ==> interruptsLeft < old(interruptsLeft) && faults == old(faults)
      ensures r.CallError? ==> faults > old(faults) && interruptsLeft == old(interruptsLeft)
    {
      var behaviour: nat := *;
      if behaviour == 0 && interruptsLeft > 0 {
        interruptsLeft := interruptsLeft - 1;
        cut := cut + 1;
        r := CallInterrupted;
      } else if behaviour <= 1 {
        faults := faults + 1;
        r := CallError;
      } else {
        passed := passed + {ask};
        r := Returned;
      }
    }

    /** Something other than a name already taken went wrong since the old state. */
    twostate predicate Disturbed()
      reads this
    {
      faults > old(faults) || interruptsLeft < old(interruptsLeft)
    }

    // ------------------------------------------------------------ the loops

    method WriteAll(key: Key, bytes: string) returns (ok: bool)
      requires key in files
      modifies this
      ensures key in files && OnlyTouches(key) && passed >= old(passed) - BARRIERS && cut == old(cut)
      ensures !ok ==> faults > old(faults)
      ensures ok && faults == old(faults) ==> files == old(files)[key := old(files[key]) + bytes]
    {
      var written := 0;
      assert files[key] + bytes[..0] == files[key];
      while written < |bytes|
        invariant 0 <= written <= |bytes|
        invariant key in files && OnlyTouches(key) && passed >= old(passed) - BARRIERS && cut == old(cut)
        invariant faults == old(faults) ==> files == old(files)[key := old(files[key]) + bytes[..written]]
        decreases |bytes| - written, interruptsLeft
      {
        var r := Write(key, bytes[written..]);
        if r.WriteInterrupted? { continue; }
        if r.WriteError? { return false; }
        if r.count <= 0 || r.count > |bytes| - written {
          return false;
        }
        assert old(files[key]) + bytes[..written] + bytes[written..][..r.count]
            == old(files[key]) + bytes[..written + r.count];
        written := written + r.count;
      }
      assert bytes[..written] == bytes;
      ok := true;
    }

    /** The first `limit` bytes of the file, however they arrive. */
    method ReadUpTo(key: Key, limit: nat) returns (ok: bool, observed: string)
      requires key in files
      modifies this
      ensures files == old(files) && faults >= old(faults) && interruptsLeft <= old(interruptsLeft)
      ensures passed == old(passed) && cut == old(cut)
      ensures ok ==> |observed| == limit <= |files[key]| && observed == files[key][..limit]
      ensures !ok ==> faults > old(faults) || |files[key]| < limit
    {
      observed := "";
      while |observed| < limit
        invariant files == old(files) && faults >= old(faults) && interruptsLeft <= old(interruptsLeft)
        invariant passed == old(passed) && cut == old(cut)
        invariant |observed| <= limit && |observed| <= |files[key]| && observed == files[key][..|observed|]
        decreases limit - |observed|, interruptsLeft
      {
        var r := Read(key, |observed|, limit - |observed|);
        if r.ReadInterrupted? { continue; }
        if r.ReadError? || r.text == "" {
          return false, observed;
        }
        observed := observed + r.text;
      }
      ok := true;
    }

    // ------------------------------------------------------------ the two markers

    /** Fill and verify a file that has just been created; `retry` repeats interrupted calls. */
    method FillExactly(key: Key, bytes: string, retry: bool) returns (ok: bool)
      requires key in files && files[key] == "" && passed == {}
      modifies this
      ensures key in files && OnlyTouches(key)
      ensures ok ==> files[key] == bytes && EVERYTHING <= passed
      ensures !ok ==> Disturbed()
      ensures ok && !retry ==> cut == old(cut)
      ensures !ok && retry && SetMode in passed ==> faults > old(faults)
    {
      var mode := Call(SetMode);
      if !mode.Returned? { return false; }
      var whole := WriteAll(key, bytes);
      if !whole { return false; }
      var synced := Settle(SyncFile, retry);
      if !synced { return false; }
      if |files[key]| != |bytes| { return false; }
      var sought := Settle(Rewind, retry);
      if !sought { return false; }
      var read, observed := ReadUpTo(key, |bytes|);
      if !read || observed != bytes { return false; }
      var ended := AtEnd(key, |bytes|, retry);
      if !ended { return false; }
      ok := Settle(SyncDirectory, retry);
      assert files[key] == files[key][..|bytes|];
    }

    /** A call, repeated while interrupted when `retry` says so. */
    method Settle(ask: Ask, retry: bool) returns (ok: bool)
      modifies this
      ensures files == old(files)
      ensures passed == if ok then old(passed) + {ask} else old(passed)
      ensures faults >= old(faults) && interruptsLeft <= old(interruptsLeft)
      ensures !ok ==> Disturbed()
      ensures !ok && retry ==> faults > old(faults)
      ensures cut >= old(cut) && (ok && !retry ==> cut == old(cut))
    {
      var r := Call(ask);
      while retry && r.CallInterrupted?
        invariant files == old(files) && faults >= old(faults) && interruptsLeft <= old(interruptsLeft)
        invariant passed == if r.Returned? then old(passed) + {ask} else old(passed)
        invariant cut >= old(cut) && (!retry && r.Returned? ==> cut == old(cut))
        invariant r.CallInterrupted? ==> Disturbed()
        invariant r.CallError? ==> faults > old(faults)
        decreases interruptsLeft, r.CallInterrupted?
      {
        r := Call(ask);
      }
      ok := r.Returned?;
    }

    /** One more read returns nothing. */
    method AtEnd(key: Key, position: nat, retry: bool) returns (ok: bool)
      requires key in files && position <= |files[key]|
      modifies this
      ensures files == old(files) && passed == old(passed) && cut == old(cut)
      ensures faults >= old(faults) && interruptsLeft <= old(interruptsLeft)
      ensures ok ==> |files[key]| == position
      ensures !ok && retry ==> faults > old(faults) || position < |files[key]|
      ensures !ok ==> Disturbed() || position < |files[key]|
    {
      var r := Read(key, position, 1);
      while retry && r.ReadInterrupted?
        invariant files == old(files) && faults >= old(faults) && interruptsLeft <= old(interruptsLeft)
        invariant passed == old(passed) && cut == old(cut)
        invariant r.ReadInterrupted? ==> Disturbed()
        invariant r.ReadError? ==> faults > old(faults)
        invariant r.Chunk? ==> (r.text == "" <==> position == |files[key]|)
        decreases interruptsLeft, r.ReadInterrupted?
      {
        r := Read(key, position, 1);
      }
      ok := r.Chunk? && r.text == "";
    }

    /** Claim one output name. */
    method TakeReservation(dir: nat, index: nat) returns (t: Taking)
      modifies this
      ensures t.Held? ==> cut == old(cut)
      ensures Takes(old(files), files, Claim(dir, index), RESERVATION_BYTES, t)
      ensures t.Held? ==> EVERYTHING <= passed
      ensures t.NotCreated? || t.Spoiled? ==> Disturbed()
    {
      t := TakeMarker(Claim(dir, index), RESERVATION_BYTES, false);
    }

    /** Forfeit a preregistration nonce. */
    method ConsumePreregistration(dir: nat, nonce: nat) returns (t: Taking)
      modifies this
      ensures t.Spoiled? && SetMode in passed ==> faults > old(faults)
      ensures Takes(old(files), files, Consumed(dir, nonce), PREREGISTRATION_CONSUMED_BYTES, t)
      ensures t.Held? ==> EVERYTHING <= passed
      ensures t.NotCreated? || t.Spoiled? ==> Disturbed()
    {
      t := TakeMarker(Consumed(dir, nonce), PREREGISTRATION_CONSUMED_BYTES, true);
    }

    method TakeMarker(key: Key, bytes: string, retry: bool) returns (t: Taking)
      modifies this
      ensures t.Held? && !retry ==> cut == old(cut)
      ensures t.Spoiled? && retry && SetMode in passed ==> faults > old(faults)
      ensures Takes(old(files), files, key, bytes, t)
      ensures t.Held? ==> EVERYTHING <= passed
      ensures t.NotCreated? || t.Spoiled? ==> Disturbed()
    {
      var creation := CreateExclusive(key);
      match creation
      case Exists => t := NameTaken;
      case OpenError => t := NotCreated;
      case Opened =>
        var ok := FillExactly(key, bytes, retry);
        t := if ok then Held else Spoiled;
        assert ok ==> files == old(files)[key := bytes];
    }

    /** The episode receipt: one write that must be whole, and no read back. */
    method ConsumeEpisode(dir: nat, receipt: string) returns (t: Taking)
      requires receipt != ""
      modifies this
      ensures t.Held? && faults == old(faults) ==> Takes(old(files), files, EpisodeConsumed(dir), receipt, Held)
      ensures t.Held? ==> EpisodeConsumed(dir) !in old(files) && EpisodeConsumed(dir) in files
      ensures !t.Held? ==> Takes(old(files), files, EpisodeConsumed(dir), receipt, t)
      ensures OnlyTouches(EpisodeConsumed(dir))
      ensures t.Held? ==> BARRIERS <= passed && cut == old(cut)
      ensures t.NotCreated? ==> Disturbed()
      ensures t.Spoiled? ==> Disturbed() || |files[EpisodeConsumed(dir)]| < |receipt|
    {
      var key := EpisodeConsumed(dir);
      var creation := CreateExclusive(key);
      match creation
      case Exists => t := NameTaken;
      case OpenError => t := NotCreated;
      case Opened =>
        var r := Write(key, receipt);
        assert files == old(files)[key := files[key]];
        if !r.Wrote? || r.count != |receipt| { return Spoiled; }
        assert "" + receipt[..r.count] == receipt;
        var synced := Settle(SyncFile, false);
        if !synced { return Spoiled; }
        var named := Settle(SyncDirectory, false);
        t := if named then Held else Spoiled;
    }
  }
}
