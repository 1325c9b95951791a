/**
 The append-only journal as bytes. Each line is the canonical text of one event
 with its position and the hash of the line before it; a reader accepts a file
 only by checking every line and folding the events through the reducer.
 */
module Journal {
  import opened Wrappers
  import opened Ledger
  import opened History

  newtype byte = x: int | 0 <= x < 256

  const NEWLINE: byte := 10

  datatype Line = Line(pos: int, prev: Option<Digest>, event: Event)

  /** JSON text and SHA-256, taken as given: `dumps` is the canonical encoder, `loads` the parser. */
  datatype Codec = Codec(
    dumps: Line -> seq<byte>,
    loads: seq<byte> -> Option<Line>,
    sha: seq<byte> -> Digest)

  predicate Terminated(b: seq<byte>) {
    b == [] || b[|b| - 1] == NEWLINE
  }

  predicate NewlineFree(b: seq<byte>) {
    forall i :: 0 <= i < |b| ==> b[i] != NEWLINE
  }

  /** Canonical text ends in the only newline it contains. */
  predicate Framed(b: seq<byte>) {
    |b| > 0 && b[|b| - 1] == NEWLINE && NewlineFree(b[..|b| - 1])
  }

  ghost predicate Sound(c: Codec) {
    forall l :: Framed(c.dumps(l)) && c.loads(c.dumps(l)) == Some(l)
  }

  ghost predicate CollisionFree(c: Codec) {
    forall x, y :: c.sha(x) == c.sha(y) ==> x == y
  }

  // ------------------------------------------------------------ cutting a file into lines

  /** Where the first line of `b` ends. */
  function Cut(b: seq<byte>): (n: nat)
    requires b != []
    ensures 0 < n <= |b|
    ensures NewlineFree(b[..n - 1])
    ensures n < |b| ==> b[n - 1] == NEWLINE
  {
    if b[0] == NEWLINE || |b| == 1 then 1
    else
      var n := 1 + Cut(b[1..]);
      assert b[..n - 1] == [b[0]] + b[1..][..n - 2];
      n
  }

  /** The lines of a file, ends kept; only the last may lack its newline. */
  function Split(b: seq<byte>): seq<seq<byte>> {
    if b == [] then [] else [b[..Cut(b)]] + Split(b[Cut(b)..])
  }

  lemma CutFramed(line: seq<byte>, rest: seq<byte>)
    requires Framed(line)
    ensures Cut(line + rest) == |line|
  {
    var b := line + rest;
    var n := Cut(b);
    assert forall k :: 0 <= k < |line| - 1 ==> b[k] == line[..|line| - 1][k];
    assert forall k :: 0 <= k < n - 1 ==> b[k] == b[..n - 1][k];
    assert b[|line| - 1] == NEWLINE;
  }

  lemma {:induction false} SplitAppend(a: seq<byte>, b: seq<byte>)
    requires Terminated(a)
    ensures Split(a + b) == Split(a) + Split(b)
  {
    if a == [] {
      assert a + b == b;
    } else {
      var n := Cut(a);
      var line := a[..n];
      assert Framed(line) by { assert line[..n - 1] == a[..n - 1]; }
      CutFramed(line, a[n..] + b);
      assert a + b == line + (a[n..] + b);
      assert (a + b)[n..] == a[n..] + b;
      SplitAppend(a[n..], b);
    }
  }

  lemma SplitOne(b: seq<byte>)
    requires b != [] && NewlineFree(b[..|b| - 1])
    ensures Split(b) == [b]
  {
    var n := Cut(b);
    assert forall k :: 0 <= k < |b| - 1 ==> b[k] == b[..|b| - 1][k];
    assert n == |b|;
    assert b[..n] == b && b[n..] == [];
  }

  /** The lines that are whole: what a torn last write leaves readable. */
  function Complete(b: seq<byte>): seq<seq<byte>> {
    var lines := Split(b);
    if Terminated(b) || lines == [] then lines else lines[..|lines| - 1]
  }

  lemma {:induction false} SplitTerminated(b: seq<byte>)
    requires b != []
    ensures |Split(b)| > 0
    ensures Terminated(b) <==> Terminated(Split(b)[|Split(b)| - 1])
  {
    var n := Cut(b);
    if b[n..] != [] {
      SplitTerminated(b[n..]);
    }
  }

  lemma TornWrite(b: seq<byte>, part: seq<byte>)
    requires Terminated(b) && part != [] && NewlineFree(part)
    ensures Complete(b + part) == Split(b)
    ensures !Terminated(b + part)
  {
    SplitAppend(b, part);
    SplitOne(part);
    assert (b + part)[|b| + |part| - 1] == part[|part| - 1];
    hide Split;
    assert (Split(b) + [part])[..|Split(b)|] == Split(b);
  }

  lemma WholeWrite(b: seq<byte>, raw: seq<byte>)
    requires Terminated(b) && Framed(raw)
    ensures Complete(b + raw) == Split(b + raw) == Split(b) + [raw]
    ensures Terminated(b + raw)
  {
    SplitAppend(b, raw);
    SplitOne(raw);
    assert (b + raw)[|b| + |raw| - 1] == raw[|raw| - 1];
  }

  /** A write that stops after `n` bytes leaves no line, a torn tail, or the whole line. */
  lemma PartialWrite(b: seq<byte>, raw: seq<byte>, n: nat)
    requires Terminated(b) && Framed(raw) && n <= |raw|
    ensures Complete(b + raw[..n]) == (if n < |raw| then Split(b) else Split(b) + [raw])
    ensures Terminated(b + raw[..n]) <==> n == 0 || n == |raw|
  {
    if n == 0 {
      assert b + raw[..n] == b;
    } else if n == |raw| {
      assert raw[..n] == raw;
      WholeWrite(b, raw);
    } else {
      assert forall k :: 0 <= k < n ==> raw[..n][k] == raw[..|raw| - 1][k];
      TornWrite(b, raw[..n]);
    }
  }

  // ------------------------------------------------------------ reading a journal

  datatype Fault =
    | TornOrEmpty
    | NonCanonical
    | ForeignAuthority
    | Refused(why: Refusal)

  /** What a reader has rebuilt so far: rows, next position, hash of the last line. */
  datatype Image = Image(rows: seq<Row>, pos: nat, previous: Option<Digest>)

  /** Who may open this journal: reducer limits and the exact genesis event. */
  datatype Authority = Authority(lim: Limits, genesis: Event, ns: string)

  const BLANK := Image([], 0, None)

  function Accept(c: Codec, a: Authority, img: Image, line: seq<byte>): Result<Image, Fault> {
    if !Terminated(line) then Failure(TornOrEmpty)
    else match c.loads(line)
      case None => Failure(NonCanonical)
      case Some(l) =>
        if c.dumps(l) != line || l.pos != img.pos || l.prev != img.previous then Failure(NonCanonical)
        else if img.pos == 0 then
          if l.event != a.genesis then Failure(ForeignAuthority)
          else Success(Image(img.rows, 1, Some(c.sha(line))))
        else match Reduce(a.lim, img.rows, l.event)
          case Failure(why) => Failure(Refused(why))
          case Success(rows) => Success(Image(rows, img.pos + 1, Some(c.sha(line))))
  }

  function Replay(c: Codec, a: Authority, lines: seq<seq<byte>>): Result<Image, Fault> {
    if lines == [] then Success(BLANK)
    else
      var img :- Replay(c, a, lines[..|lines| - 1]);
      Accept(c, a, img, lines[|lines| - 1])
  }

  /** Opening an existing file: the base controller looks for a torn tail before anything else. */
  function Load(c: Codec, a: Authority, b: seq<byte>): Result<Image, Fault> {
    if b == [] || (!a.lim.campaign && !Terminated(b)) then Failure(TornOrEmpty)
    else Replay(c, a, Split(b))
  }

  /** What the journal durably says: the fold of its whole lines. */
  function Durable(c: Codec, a: Authority, b: seq<byte>): Result<Image, Fault> {
    Replay(c, a, Complete(b))
  }

  /**
   A file loads exactly when it is not empty, ends with its last line whole, and every line of it replays.
   A base controller refuses a torn one as torn, whatever its lines hold.
   */
  lemma LoadsIff(c: Codec, a: Authority, b: seq<byte>)
    ensures Load(c, a, b).Success? <==> b != [] && Terminated(b) && Replay(c, a, Split(b)).Success?
    ensures Load(c, a, b).Success? ==> Load(c, a, b) == Durable(c, a, b)
    ensures b == [] || (!Terminated(b) && !a.lim.campaign) ==> Load(c, a, b) == Failure(TornOrEmpty)
  {
    if b != [] {
      SplitTerminated(b);
      ReplayedIsWhole(c, a, Split(b));
    }
    hide Split, Replay;
  }

  /** The last line of what replays is whole. */
  lemma ReplayedIsWhole(c: Codec, a: Authority, lines: seq<seq<byte>>)
    requires lines != []
    ensures Replay(c, a, lines).Success? ==> Terminated(lines[|lines| - 1])
  {
    hide Reduce;
  }

  function NextLine(c: Codec, img: Image, e: Event): seq<byte> {
    c.dumps(Line(img.pos, img.previous, e))
  }

  /** The lines of an accepted journal, decoded. */
  function Decoded(c: Codec, lines: seq<seq<byte>>): seq<Event> {
    if lines == [] then []
    else
      Decoded(c, lines[..|lines| - 1]) +
      (match c.loads(lines[|lines| - 1]) case Some(l) => [l.event] case None => [])
  }

  lemma {:induction false} DecodedSnoc(c: Codec, lines: seq<seq<byte>>, l: Line)
    requires Sound(c)
    ensures Decoded(c, lines + [c.dumps(l)]) == Decoded(c, lines) + [l.event]
  {
    assert (lines + [c.dumps(l)])[..|lines|] == lines;
  }

  /** An accepted journal is a genesis followed by an accepted run, and nothing else. */
  lemma {:induction false} ReplayIsRun(c: Codec, a: Authority, lines: seq<seq<byte>>)
    requires Replay(c, a, lines).Success? && lines != []
    ensures var img := Replay(c, a, lines).value;
            && |Decoded(c, lines)| == |lines| == img.pos
            && Decoded(c, lines)[0] == a.genesis
            && Run(a.lim, Decoded(c, lines)[1..]) == Success(img.rows)
            && img.previous == Some(c.sha(lines[|lines| - 1]))
  {
    var front := lines[..|lines| - 1];
    var l := c.loads(lines[|lines| - 1]).value;
    if front != [] {
      ReplayIsRun(c, a, front);
      var es := Decoded(c, front);
      assert Decoded(c, lines) == es + [l.event];
      assert Decoded(c, lines)[1..] == es[1..] + [l.event];
      assert (es[1..] + [l.event])[..|es| - 1] == es[1..];
    } else {
      assert Decoded(c, front) == [];
    }
  }

  /** One more line is accepted exactly when the reducer accepts its event. */
  lemma ReplayNext(c: Codec, a: Authority, lines: seq<seq<byte>>, e: Event)
    requires Sound(c) && lines != []
    requires Replay(c, a, lines).Success?
    ensures var img := Replay(c, a, lines).value;
            var raw := NextLine(c, img, e);
            img.pos > 0 &&
            Replay(c, a, lines + [raw]) ==
              match Reduce(a.lim, img.rows, e)
              case Success(rows) => Success(Image(rows, img.pos + 1, Some(c.sha(raw))))
              case Failure(why) => Failure(Refused(why))
  {
    ReplayIsRun(c, a, lines);
    var raw := NextLine(c, Replay(c, a, lines).value, e);
    assert (lines + [raw])[..|lines|] == lines;
  }

  function GenesisLine(c: Codec, a: Authority): seq<byte> {
    c.dumps(Line(0, None, a.genesis))
  }

  /** A first write that stops early leaves an empty journal; a whole one leaves just the genesis. */
  lemma GenesisWrite(c: Codec, a: Authority, n: nat)
    requires Sound(c) && n <= |GenesisLine(c, a)|
    ensures var raw := GenesisLine(c, a);
            && Durable(c, a, raw[..n]) ==
                 Success(if n < |raw| then BLANK else Image([], 1, Some(c.sha(raw))))
            && (n == |raw| ==> raw[..n] == raw && Terminated(raw))
  {
    var raw := GenesisLine(c, a);
    assert [] + raw[..n] == raw[..n];
    PartialWrite([], raw, n);
    var lines := [raw];
    assert Replay(c, a, lines[..0]) == Success(BLANK);
  }

  // ------------------------------------------------------------ what the chain rules out

  /** Every line states its own position and the hash of the line before it. */
  lemma {:induction false} ChainShape(c: Codec, a: Authority, lines: seq<seq<byte>>, i: nat)
    requires Replay(c, a, lines).Success? && i < |lines|
    ensures c.loads(lines[i]).Some?
    ensures var l := c.loads(lines[i]).value;
            l.pos == i && c.dumps(l) == lines[i] &&
            l.prev == (if i == 0 then None else Some(c.sha(lines[i - 1])))
    ensures Replay(c, a, lines).value.pos == |lines|
    ensures Replay(c, a, lines).value.previous == Some(c.sha(lines[|lines| - 1]))
  {
    hide Reduce;
    var front := lines[..|lines| - 1];
    if front != [] {
      ChainShape(c, a, front, if i < |front| then i else 0);
    }
  }

  /** Truncation at a line boundary is accepted: the format is prefix-closed. */
  lemma {:induction false} ReplayPrefix(c: Codec, a: Authority, lines: seq<seq<byte>>, n: nat)
    requires Replay(c, a, lines).Success? && n <= |lines|
    ensures Replay(c, a, lines[..n]).Success?
  {
    if n < |lines| {
      var front := lines[..|lines| - 1];
      ReplayPrefix(c, a, front, n);
      assert front[..n] == lines[..n];
    } else {
      assert lines[..n] == lines;
    }
  }

  /**
   With no hash collisions the last line pins everything before it: an accepted
   journal that ends in any line of another accepted journal is that journal up
   to there, whatever either reader was willing to accept.
   */
  lemma {:induction false} LastLinePinsHistory(c: Codec, a: Authority, a': Authority,
                                               lines: seq<seq<byte>>, other: seq<seq<byte>>, k: nat)
    requires CollisionFree(c)
    requires Replay(c, a, lines).Success? && Replay(c, a', other).Success?
    requires lines != [] && k < |other| && lines[|lines| - 1] == other[k]
    ensures |lines| == k + 1 && lines == other[..k + 1]
  {
    hide Replay;
    var n := |lines| - 1;
    ChainShape(c, a, lines, n);
    ChainShape(c, a', other, k);
    if n > 0 {
      assert c.sha(lines[n - 1]) == c.sha(other[k - 1]);
      ReplayPrefix(c, a, lines, n);
      LastLinePinsHistory(c, a, a', lines[..n], other, k - 1);
      assert lines == lines[..n] + [lines[n]];
      assert other[..k + 1] == other[..k] + [other[k]];
    }
  }

  /** The published hash of the last line identifies the whole journal. */
  lemma SameHashSameJournal(c: Codec, a: Authority, a': Authority,
                            lines: seq<seq<byte>>, other: seq<seq<byte>>)
    requires CollisionFree(c)
    requires Replay(c, a, lines).Success? && Replay(c, a', other).Success?
    requires Replay(c, a, lines).value.previous == Replay(c, a', other).value.previous
    ensures lines == other
  {
    if lines == [] || other == [] {
      if lines != [] { ChainShape(c, a, lines, 0); }
      if other != [] { ChainShape(c, a', other, 0); }
    } else {
      ChainShape(c, a, lines, 0);
      ChainShape(c, a', other, 0);
      LastLinePinsHistory(c, a, a', lines, other, |other| - 1);
      assert other[..|other|] == other;
    }
  }

  /**
   Rearranging, repeating or dropping lines of an accepted journal is never
   accepted: whatever is accepted and made only of its lines is a prefix of it.
   */
  lemma OnlyPrefixesAccepted(c: Codec, a: Authority, lines: seq<seq<byte>>, other: seq<seq<byte>>)
    requires Replay(c, a, lines).Success? && Replay(c, a, other).Success?
    requires forall i :: 0 <= i < |other| ==> other[i] in lines
    ensures other <= lines
  {
    forall i | 0 <= i < |other| ensures i < |lines| && other[i] == lines[i] {
      var j :| 0 <= j < |lines| && lines[j] == other[i];
      ChainShape(c, a, other, i);
      ChainShape(c, a, lines, j);
    }
  }
}
