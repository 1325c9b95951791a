/** A later series on an already part-spent authorisation: its cap is what the carry leaves. */
module Series {
  import opened Wrappers
  import opened Journal
  import opened CrashWorld

  datatype Scope = AllCells | GrokPair | TimeoutCell

  /** Money fields as the manifest states them; unreadable when not a finite decimal string. */
  datatype Money = Amount(value: int) | Unreadable

  datatype Manifest = Manifest(identity: string, total: Money, carry: Money, newCap: Money)

  datatype Refusal = NotSupported | ManifestRequired | NotPositive | CarryDropped | NotPinned

  predicate Positive(m: Money) {
    m.Amount? && m.value > 0
  }

  /** No manifest for the full cell set, a balanced one for the pair, the pinned one for the timeout cell. */
  function LoadSeries(scope: Scope, manifest: Option<Manifest>, cap: int, pinned: Manifest)
      : Result<Option<Manifest>, Refusal>
  {
    match (scope, manifest)
    case (AllCells, Some(_)) => Failure(NotSupported)
    case (AllCells, None) => Success(None)
    case (_, None) => Failure(ManifestRequired)
    case (_, Some(m)) =>
      if !Positive(m.total) || !Positive(m.carry) || !Positive(m.newCap) then Failure(NotPositive)
      else if m.total.value != m.carry.value + m.newCap.value || m.newCap.value != cap then Failure(CarryDropped)
      else if scope == TimeoutCell && m != pinned then Failure(NotPinned)
      else Success(Some(m))
  }

  /** Money read, and more than none of it. */
  predicate Readable(m: Manifest) {
    && m.total.Amount? && m.carry.Amount? && m.newCap.Amount?
    && m.total.value >= 1 && m.carry.value >= 1 && m.newCap.value >= 1
  }

  /**
   The full cell set takes no manifest. The other scopes take exactly a readable one whose total is what was
   committed and the new cap, which is this series' cap; the timeout cell only the pinned one.
   */
  lemma SeriesAcceptedIff(scope: Scope, manifest: Option<Manifest>, cap: int, pinned: Manifest, r: Option<Manifest>)
    ensures LoadSeries(scope, manifest, cap, pinned) == Success(r)
       <==> && r == manifest
            && (manifest == None <==> scope == AllCells)
            && (manifest.Some? ==>
                  var m := manifest.value;
                  && Readable(m) && m.newCap.value == cap && m.carry.value + cap == m.total.value
                  && (scope == GrokPair || m == pinned))
  {
  }

  /**
   What was committed before and all that this series truly spends, through any crashes and
   reopenings, stay within the authorised total.
   */
  lemma CarryAndSpendFitTotal(c: Codec, a: Authority, ws: seq<World>, n: nat,
                              scope: Scope, manifest: Option<Manifest>, cap: nat, pinned: Manifest)
    requires Sound(c) && a.genesis.Genesis? && Trace(c, a, ws) && n < |ws| && a.lim.cap == Some(cap)
    requires LoadSeries(scope, manifest, cap, pinned).Success? && manifest.Some?
    ensures Positive(manifest.value.total) && Positive(manifest.value.carry)
    ensures manifest.value.carry.value + Spend(ws[n].wire) <= manifest.value.total.value
  {
    SpendNeverPassesCap(c, a, ws, n);
  }
}
