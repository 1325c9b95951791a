/**
 Whole runs of the ledger: the rows are what an accepted event list folds to,
 and each row can be read back from its own events alone.
 */
module History {
  import opened Wrappers
  import opened Ledger
  import Decimals

  function Run(lim: Limits, es: seq<Event>): Result<seq<Row>, Refusal> {
    if es == [] then Success([])
    else
      var rows :- Run(lim, es[..|es| - 1]);
      Reduce(lim, rows, es[|es| - 1])
  }

  lemma {:induction false} RunValid(lim: Limits, es: seq<Event>)
    requires Run(lim, es).Success?
    ensures Valid(lim, Run(lim, es).value)
  {
    if es != [] {
      RunValid(lim, es[..|es| - 1]);
      StepKeepsValid(lim, Run(lim, es[..|es| - 1]).value, es[|es| - 1]);
    }
  }

  lemma {:induction false} RunPrefix(lim: Limits, es: seq<Event>, n: nat)
    requires Run(lim, es).Success? && n <= |es|
    ensures Run(lim, es[..n]).Success?
    ensures |Run(lim, es[..n]).value| <= |Run(lim, es).value|
    ensures forall i :: 0 <= i < |Run(lim, es[..n]).value| ==>
              SameAttempt(Run(lim, es[..n]).value[i], Run(lim, es).value[i])
    ensures forall i :: 0 <= i < |Run(lim, es[..n]).value| && !Open(Run(lim, es[..n]).value[i]) ==>
              Run(lim, es).value[i] == Run(lim, es[..n]).value[i]
  {
    if n == |es| {
      assert es[..n] == es;
    } else {
      var front := es[..|es| - 1];
      RunPrefix(lim, front, n);
      assert front[..n] == es[..n];
      RunValid(lim, front);
      StepChangesOneRow(lim, Run(lim, front).value, es[|es| - 1]);
    }
  }

  // ------------------------------------------------------------ one attempt's events

  function History(es: seq<Event>, id: Id): seq<Event> {
    if es == [] then []
    else
      var last := es[|es| - 1];
      History(es[..|es| - 1], id) + (if !last.Genesis? && last.id == id then [last] else [])
  }

  /** One dispatch at the row's wire bound, then RPCs numbered from one. */
  ghost predicate Wired(h: seq<Event>, r: Row) {
    && |h| == 1 + r.rawRpcs
    && h[0].Dispatch? && h[0].id == r.id && h[0].ib == r.ib
    && forall k :: 1 <= k < |h| ==> h[k].RawRpc? && h[k].id == r.id && h[k].ordinal == k
  }

  /** The whole row, read off its own events: one legal path from reservation to resolution. */
  ghost predicate Tells(h: seq<Event>, r: Row) {
    && |h| > 0
    && h[0] == Reserve(r.id, r.cell, r.initialIb, r.ob, r.inRate, r.outRate, r.policy)
    && match r.state
       case Reserved => |h| == 1
       case Cancelled => h[1..] == [Cancel(r.id, CANCEL_PROOF)]
       case Sent => Wired(h[1..], r)
       case Unknown =>
         || (h[1..] == [Forfeit(r.id)] && r.ib == r.initialIb && r.rawRpcs == 0)
         || (|h| > 2 && Wired(h[1..|h| - 1], r) && h[|h| - 1] == Forfeit(r.id))
       case Settled(actual) =>
         && |h| > 2 && Wired(h[1..|h| - 1], r)
         && h[|h| - 1].Settle? && h[|h| - 1].id == r.id
         && 0 <= h[|h| - 1].input <= r.ib && 0 <= h[|h| - 1].output <= r.ob
         && actual == Price(r.inRate, r.outRate, h[|h| - 1].input, h[|h| - 1].output)
  }

  lemma {:induction false} NoRowNoHistory(lim: Limits, es: seq<Event>, id: Id)
    requires Run(lim, es).Success?
    requires Find(Run(lim, es).value, id) == |Run(lim, es).value|
    ensures History(es, id) == []
  {
    if es != [] {
      var front := es[..|es| - 1];
      var rows, next := Run(lim, front).value, Run(lim, es).value;
      var e := es[|es| - 1];
      RunValid(lim, front);
      StepChangesOneRow(lim, rows, e);
      forall k | 0 <= k < |rows| ensures rows[k].id != id {
        assert next[k].id == rows[k].id;
      }
      assert e.id != id by {
        if e.Reserve? { assert next[|rows|].id == e.id; }
        else { assert next[Find(rows, e.id)].id == e.id; }
      }
      NoRowNoHistory(lim, front, id);
    }
  }

  lemma TellsExtends(lim: Limits, h: seq<Event>, r: Row, e: Event, r': Row)
    requires Tells(h, r)
    requires !e.Genesis? && !e.Reserve? && e.id == r.id
    requires r.state.Reserved? ==> r.ib == r.initialIb && r.rawRpcs == 0
    requires (if e.RawRpc? then CountRpc(r, e.ordinal) else Change(r, e)) == Success(r')
    ensures Tells(h + [e], r')
  {
    var h' := h + [e];
    assert h'[..|h|] == h;
    if r.state.Reserved? {
      assert h'[1..] == [e];
    } else {
      assert h'[1..|h'| - 1] == h[1..];
      assert h'[1..] == h[1..] + [e];
    }
  }

  /** How one accepted event moves row `i`: newly reserved, changed by its own event, or untouched. */
  lemma StepSeenByRow(lim: Limits, rows: seq<Row>, e: Event, i: nat)
    requires Valid(lim, rows) && Reduce(lim, rows, e).Success?
    requires i < |Reduce(lim, rows, e).value|
    ensures !e.Genesis?
    ensures var next := Reduce(lim, rows, e).value;
            if i == |rows| then
              && Find(rows, e.id) == |rows|
              && next[i].state == Reserved && next[i].rawRpcs == 0 && next[i].ib == next[i].initialIb
              && e == Reserve(next[i].id, next[i].cell, next[i].initialIb, next[i].ob,
                              next[i].inRate, next[i].outRate, next[i].policy)
            else if e.id == rows[i].id then
              && !e.Reserve? && next[i].id == rows[i].id
              && (if e.RawRpc? then CountRpc(rows[i], e.ordinal) else Change(rows[i], e)) == Success(next[i])
            else next[i] == rows[i]
  {
    if i < |rows| {
      FindUnique(rows, i);
    }
  }

  lemma TellsNext(lim: Limits, rows: seq<Row>, h: seq<Event>, e: Event, i: nat)
    requires Valid(lim, rows) && Reduce(lim, rows, e).Success?
    requires i < |Reduce(lim, rows, e).value|
    requires if i < |rows| then Tells(h, rows[i]) else h == []
    ensures var r' := Reduce(lim, rows, e).value[i];
            !e.Genesis? && Tells(h + (if e.id == r'.id then [e] else []), r')
  {
    StepSeenByRow(lim, rows, e, i);
    var r' := Reduce(lim, rows, e).value[i];
    if i < |rows| {
      assert RowValid(rows[i]);
      if e.id == rows[i].id {
        TellsExtends(lim, h, rows[i], e, r');
      } else {
        assert h + [] == h;
      }
    } else {
      assert h + [e] == [e];
    }
  }

  /** Each row is told by its own events: dispatched at most once, resolved at most once. */
  lemma {:induction false} HistoryTellsRow(lim: Limits, es: seq<Event>, i: nat)
    requires Run(lim, es).Success? && i < |Run(lim, es).value|
    ensures Tells(History(es, Run(lim, es).value[i].id), Run(lim, es).value[i])
  {
    var front, e := es[..|es| - 1], es[|es| - 1];
    var rows, r := Run(lim, front).value, Run(lim, es).value[i];
    RunValid(lim, front);
    StepSeenByRow(lim, rows, e, i);
    if i == |rows| {
      NoRowNoHistory(lim, front, r.id);
    } else {
      HistoryTellsRow(lim, front, i);
    }
    TellsNext(lim, rows, History(front, r.id), e, i);
  }

  // ------------------------------------------------------------ issued identifiers

  /** The identifier a controller hands out for journal position `n`. */
  function Ident(ns: string, n: nat): Id {
    ns + ":" + Decimals.Show(n)
  }

  lemma IdentInjective(ns: string, m: nat, n: nat)
    requires Ident(ns, m) == Ident(ns, n)
    ensures m == n
  {
    var k := |ns| + 1;
    assert Ident(ns, m)[k..] == Decimals.Show(m);
    assert Ident(ns, n)[k..] == Decimals.Show(n);
    Decimals.ShowInjective(m, n);
  }

  /** Event `k` sits on journal line `k + 1`, after the genesis line. */
  ghost predicate Issued(ns: string, es: seq<Event>) {
    forall k :: 0 <= k < |es| && es[k].Reserve? ==> es[k].id == Ident(ns, k + 1)
  }

  lemma {:induction false} IssuedRows(lim: Limits, ns: string, es: seq<Event>, i: nat) returns (n: nat)
    requires Run(lim, es).Success? && Issued(ns, es) && i < |Run(lim, es).value|
    ensures 1 <= n <= |es| && Run(lim, es).value[i].id == Ident(ns, n)
  {
    var front := es[..|es| - 1];
    var rows := Run(lim, front).value;
    if i == |rows| {
      n := |es|;
    } else {
      n := IssuedRows(lim, ns, front, i);
      RunValid(lim, front);
      StepChangesOneRow(lim, rows, es[|es| - 1]);
    }
  }

  /** A newly issued identifier names no row yet, whatever the run so far. */
  lemma IssuedIdsAreFresh(lim: Limits, ns: string, es: seq<Event>)
    requires Run(lim, es).Success? && Issued(ns, es)
    ensures Find(Run(lim, es).value, Ident(ns, |es| + 1)) == |Run(lim, es).value|
  {
    var rows := Run(lim, es).value;
    var name := Ident(ns, |es| + 1);
    var i := Find(rows, name);
    if i < |rows| {
      var n := IssuedRows(lim, ns, es, i);
      IdentInjective(ns, n, |es| + 1);
    }
  }
}
