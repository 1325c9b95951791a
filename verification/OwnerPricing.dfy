/**
 The owner's price envelope: two rates that must be the largest verified or
 assumed rate of their token categories, so that they cover every bill those
 rates can produce and no smaller rates would.
 */
module OwnerPricing {
  import opened Wrappers
  import opened Ledger

  /** A rate as the record writes it; unreadable when it is not a finite decimal string. */
  datatype Raw = Amount(value: int) | Unreadable

  datatype Category = Category(verified: seq<Raw>, assumeUnknown: bool)

  /** The priced part of a profile: its envelope rates and what it says is verified. */
  datatype Envelope = Envelope(input: int, output: int, inputsVerified: bool, outputsVerified: bool)

  datatype PricingRefusal = UnreadableRate | NegativeRate | Uncovered | WrongRate | WrongGuarantee

  /** input, cache_read, cache_write, then output, reasoning. */
  const CATEGORIES: nat := 5
  const INPUTS: nat := 3

  // ------------------------------------------------------------ what is asked of a record

  /** `rate` is verified for the category, or is the owner's assumption about its unknowns. */
  ghost predicate IsRate(c: Category, unknown: nat, rate: int) {
    Amount(rate) in c.verified || (c.assumeUnknown && rate == unknown)
  }

  ghost predicate Covered(c: Category) {
    && (forall k :: 0 <= k < |c.verified| ==> c.verified[k].Amount? && c.verified[k].value >= 0)
    && (c.verified != [] || c.assumeUnknown)
  }

  ghost predicate Bounds(c: Category, unknown: nat, rate: int) {
    forall r :: IsRate(c, unknown, r) ==> r <= rate
  }

  /** The rate covers every category of the group and is one of its rates. */
  ghost predicate Least(cats: seq<Category>, lo: nat, hi: nat, unknown: nat, rate: int)
    requires lo <= hi <= |cats|
  {
    && (forall k :: lo <= k < hi ==> Bounds(cats[k], unknown, rate))
    && exists k :: lo <= k < hi && IsRate(cats[k], unknown, rate)
  }

  predicate NoneAssumed(cats: seq<Category>, lo: nat, hi: nat)
    requires lo <= hi <= |cats|
  {
    forall k :: lo <= k < hi ==> !cats[k].assumeUnknown
  }

  /** Every category covered; one rate the least for the three input categories, one for the two output categories. */
  ghost predicate Acceptable(cats: seq<Category>, unknown: nat, e: Envelope)
    requires |cats| == CATEGORIES
  {
    && (forall k :: 0 <= k < 5 ==> Covered(cats[k]))
    && Least(cats, 0, 3, unknown, e.input)
    && Least(cats, 3, 5, unknown, e.output)
    && e.inputsVerified == NoneAssumed(cats, 0, 3)
    && e.outputsVerified == NoneAssumed(cats, 3, 5)
  }

  // ------------------------------------------------------------ the check

  /** The largest rate of one category. */
  method CategoryMaximum(c: Category, unknown: nat) returns (r: Result<int, PricingRefusal>)
    ensures r.Success? <==> Covered(c)
    ensures r.Success? ==> IsRate(c, unknown, r.value) && Bounds(c, unknown, r.value)
    ensures r == Failure(Uncovered) ==> c.verified == [] && !c.assumeUnknown
    ensures r == Failure(UnreadableRate) ==> Unreadable in c.verified
    ensures r == Failure(NegativeRate) ==> exists v :: v < 0 && Amount(v) in c.verified
  {
    var best: Option<int> := None;
    for i := 0 to |c.verified|
      invariant forall k :: 0 <= k < i ==> c.verified[k].Amount? && c.verified[k].value >= 0
      invariant best.None? <==> i == 0
      invariant best.Some? ==> Amount(best.value) in c.verified
      invariant best.Some? ==> forall k :: 0 <= k < i ==> c.verified[k].value <= best.value
    {
      if c.verified[i].Unreadable? {
        return Failure(UnreadableRate);
      }
      var value := c.verified[i].value;
      if value < 0 {
        assert c.verified[i] == Amount(value);
        return Failure(NegativeRate);
      }
      if best.None? || best.value < value {
        assert c.verified[i] == Amount(value);
        best := Some(value);
      }
    }
    if c.assumeUnknown && (best.None? || best.value < unknown) {
      best := Some(unknown);
    }
    if best.None? {
      return Failure(Uncovered);
    }
    r := Success(best.value);
  }

  /** The largest of a group's maxima. */
  method GroupMaximum(maxima: seq<int>, lo: nat, hi: nat) returns (m: int)
    requires lo < hi <= |maxima|
    ensures exists k :: lo <= k < hi && maxima[k] == m
    ensures forall k :: lo <= k < hi ==> maxima[k] <= m
  {
    m := maxima[lo];
    for i := lo + 1 to hi
      invariant exists k :: lo <= k < i && maxima[k] == m
      invariant forall k :: lo <= k < i ==> maxima[k] <= m
    {
      if maxima[i] > m {
        m := maxima[i];
      }
    }
  }

  /** These are the maxima of the first `n` categories. */
  ghost predicate Maxima(cats: seq<Category>, unknown: nat, maxima: seq<int>, n: nat)
    requires n <= |cats|
  {
    && |maxima| == n
    && forall k :: 0 <= k < n ==> IsRate(cats[k], unknown, maxima[k]) && Bounds(cats[k], unknown, maxima[k])
  }

  lemma BoundsUp(c: Category, unknown: nat, rate: int, rate': int)
    requires Bounds(c, unknown, rate) && rate <= rate'
    ensures Bounds(c, unknown, rate')
  {
  }

  lemma LeastIsUnique(cats: seq<Category>, lo: nat, hi: nat, unknown: nat, rate: int, rate': int)
    requires lo <= hi <= |cats| && Least(cats, lo, hi, unknown, rate) && Least(cats, lo, hi, unknown, rate')
    ensures rate == rate'
  {
    var k :| lo <= k < hi && IsRate(cats[k], unknown, rate);
    var n :| lo <= n < hi && IsRate(cats[n], unknown, rate');
    assert Bounds(cats[k], unknown, rate') && Bounds(cats[n], unknown, rate);
  }

  lemma MaximumIsLeast(cats: seq<Category>, unknown: nat, maxima: seq<int>, lo: nat, hi: nat, m: int)
    requires lo < hi <= |cats| && Maxima(cats, unknown, maxima, |cats|)
    requires (exists k :: lo <= k < hi && maxima[k] == m) && forall k :: lo <= k < hi ==> maxima[k] <= m
    ensures Least(cats, lo, hi, unknown, m)
  {
    hide IsRate, Bounds;
    var k :| lo <= k < hi && maxima[k] == m;
    assert IsRate(cats[k], unknown, m);
    forall n | lo <= n < hi ensures Bounds(cats[n], unknown, m) {
      BoundsUp(cats[n], unknown, maxima[n], m);
    }
  }

  /** Whether some category of the group rests on the owner's assumption. */
  method AnyAssumed(cats: seq<Category>, lo: nat, hi: nat) returns (b: bool)
    requires lo <= hi <= |cats|
    ensures b == !NoneAssumed(cats, lo, hi)
  {
    b := false;
    for i := lo to hi
      invariant b == !NoneAssumed(cats, lo, i)
    {
      b := b || cats[i].assumeUnknown;
    }
  }

  /** One group: its rate is the maximum, and the guarantee says whether anything was assumed. */
  method CheckGroup(cats: seq<Category>, unknown: nat, maxima: seq<int>, lo: nat, hi: nat, rate: int, verified: bool)
      returns (refusal: Option<PricingRefusal>)
    requires lo < hi <= |cats| && Maxima(cats, unknown, maxima, |cats|)
    ensures refusal.None? <==> Least(cats, lo, hi, unknown, rate) && verified == NoneAssumed(cats, lo, hi)
    ensures refusal == Some(WrongRate) <==> !Least(cats, lo, hi, unknown, rate)
  {
    var m := GroupMaximum(maxima, lo, hi);
    MaximumIsLeast(cats, unknown, maxima, lo, hi, m);
    hide Least, Maxima, NoneAssumed;
    if rate != m {
      if Least(cats, lo, hi, unknown, rate) { LeastIsUnique(cats, lo, hi, unknown, rate, m); }
      return Some(WrongRate);
    }
    var assumed := AnyAssumed(cats, lo, hi);
    refusal := if verified == assumed then Some(WrongGuarantee) else None;
  }

  /** The whole check: category maxima first, then the two envelope rates. */
  method ValidateOwnerPricing(cats: seq<Category>, unknown: nat, e: Envelope) returns (refusal: Option<PricingRefusal>)
    requires |cats| == CATEGORIES
    ensures refusal.None? <==> Acceptable(cats, unknown, e)
  {
    hide Covered, Least, NoneAssumed, IsRate, Bounds;
    var maxima: seq<int> := [];
    for i := 0 to CATEGORIES
      invariant Maxima(cats, unknown, maxima, i)
      invariant forall k :: 0 <= k < i ==> Covered(cats[k])
    {
      var r := CategoryMaximum(cats[i], unknown);
      if r.Failure? {
        return Some(r.error);
      }
      maxima := maxima + [r.value];
    }
    refusal := CheckGroup(cats, unknown, maxima, 0, INPUTS, e.input, e.inputsVerified);
    if refusal.None? {
      refusal := CheckGroup(cats, unknown, maxima, INPUTS, CATEGORIES, e.output, e.outputsVerified);
    }
  }

  // ------------------------------------------------------------ bills

  /** Some tokens of one category, charged at one of its rates. */
  datatype Line = Line(category: nat, rate: nat, tokens: nat)

  ghost predicate Chargeable(cats: seq<Category>, unknown: nat, bill: seq<Line>) {
    forall k :: 0 <= k < |bill| ==> bill[k].category < |cats| && IsRate(cats[bill[k].category], unknown, bill[k].rate)
  }

  function Cost(bill: seq<Line>): nat {
    if bill == [] then 0 else bill[0].rate * bill[0].tokens + Cost(bill[1..])
  }

  function InputTokens(bill: seq<Line>): nat {
    if bill == [] then 0 else (if bill[0].category < INPUTS then bill[0].tokens else 0) + InputTokens(bill[1..])
  }

  function OutputTokens(bill: seq<Line>): nat {
    if bill == [] then 0 else (if bill[0].category < INPUTS then 0 else bill[0].tokens) + OutputTokens(bill[1..])
  }

  lemma AcceptedRates(cats: seq<Category>, unknown: nat, e: Envelope, category: nat, rate: int)
    requires |cats| == CATEGORIES && Acceptable(cats, unknown, e)
    requires category < CATEGORIES && IsRate(cats[category], unknown, rate)
    ensures 0 <= rate <= (if category < INPUTS then e.input else e.output)
  {
    assert Covered(cats[category]);
    assert category < INPUTS ==> Bounds(cats[category], unknown, e.input);
    assert category >= INPUTS ==> Bounds(cats[category], unknown, e.output);
  }

  lemma AcceptedIsNonNegative(cats: seq<Category>, unknown: nat, e: Envelope)
    requires |cats| == CATEGORIES && Acceptable(cats, unknown, e)
    ensures e.input >= 0 && e.output >= 0
  {
    var k :| 0 <= k < INPUTS && IsRate(cats[k], unknown, e.input);
    var n :| INPUTS <= n < CATEGORIES && IsRate(cats[n], unknown, e.output);
    AcceptedRates(cats, unknown, e, k, e.input);
    AcceptedRates(cats, unknown, e, n, e.output);
  }

  /** However the tokens split over categories and tiers, the reducer's price covers the bill. */
  lemma {:induction false} PriceCoversEveryBill(cats: seq<Category>, unknown: nat, e: Envelope, bill: seq<Line>)
    requires |cats| == CATEGORIES && Acceptable(cats, unknown, e) && Chargeable(cats, unknown, bill)
    ensures e.input >= 0 && e.output >= 0
    ensures Cost(bill) <= Price(e.input, e.output, InputTokens(bill), OutputTokens(bill))
  {
    AcceptedIsNonNegative(cats, unknown, e);
    if bill != [] {
      var line := bill[0];
      hide Acceptable, IsRate;
      AcceptedRates(cats, unknown, e, line.category, line.rate);
      PriceCoversEveryBill(cats, unknown, e, bill[1..]);
      PriceIsLinear(e.input, e.output, InputTokens(bill), OutputTokens(bill));
      PriceIsLinear(e.input, e.output, InputTokens(bill[1..]), OutputTokens(bill[1..]));
      hide Price;
      if line.category < INPUTS {
        LineCovered(line.rate, e.input, line.tokens, InputTokens(bill[1..]));
      } else {
        LineCovered(line.rate, e.output, line.tokens, OutputTokens(bill[1..]));
      }
    }
  }

  lemma LineCovered(rate: nat, envelope: nat, tokens: nat, rest: nat)
    requires rate <= envelope
    ensures rate * tokens + rest * envelope <= (tokens + rest) * envelope
  {
    assert rate * tokens <= envelope * tokens;
    assert (tokens + rest) * envelope == tokens * envelope + rest * envelope;
  }

  /** The bound a reservation takes covers every bill that stays within its token bounds. */
  lemma ReservedBoundCoversBill(cats: seq<Category>, unknown: nat, e: Envelope, bill: seq<Line>, ib: nat, ob: nat)
    requires |cats| == CATEGORIES && Acceptable(cats, unknown, e) && Chargeable(cats, unknown, bill)
    requires InputTokens(bill) <= ib && OutputTokens(bill) <= ob
    ensures e.input >= 0 && e.output >= 0 && Cost(bill) <= Price(e.input, e.output, ib, ob)
  {
    PriceCoversEveryBill(cats, unknown, e, bill);
    PriceMonotone(e.input, e.output, InputTokens(bill), OutputTokens(bill), ib, ob);
  }

  /** The price is attained: some bill with exactly these tokens costs exactly that. */
  lemma PriceIsAttained(cats: seq<Category>, unknown: nat, e: Envelope, i: nat, o: nat) returns (bill: seq<Line>)
    requires |cats| == CATEGORIES && Acceptable(cats, unknown, e)
    ensures e.input >= 0 && e.output >= 0 && Chargeable(cats, unknown, bill)
    ensures InputTokens(bill) == i && OutputTokens(bill) == o
    ensures Cost(bill) == Price(e.input, e.output, i, o)
  {
    hide Cost, InputTokens, OutputTokens, Price, IsRate, Covered, Bounds, NoneAssumed;
    AcceptedIsNonNegative(cats, unknown, e);
    var k :| 0 <= k < INPUTS && IsRate(cats[k], unknown, e.input);
    var n :| INPUTS <= n < CATEGORIES && IsRate(cats[n], unknown, e.output);
    TwoLines(k, e.input, i, n, e.output, o);
    bill := [Line(k, e.input, i), Line(n, e.output, o)];
  }

  /** An input line and an output line cost the price of their tokens. */
  lemma TwoLines(k: nat, inRate: nat, i: nat, n: nat, outRate: nat, o: nat)
    requires k < INPUTS <= n
    ensures var bill := [Line(k, inRate, i), Line(n, outRate, o)];
            && InputTokens(bill) == i && OutputTokens(bill) == o
            && Cost(bill) == Price(inRate, outRate, i, o)
  {
    var bill := [Line(k, inRate, i), Line(n, outRate, o)];
    assert bill[1..] == [Line(n, outRate, o)];
    OneLine(Line(n, outRate, o));
    PriceIsLinear(inRate, outRate, i, o);
  }

  lemma OneLine(line: Line)
    ensures Cost([line]) == line.rate * line.tokens
    ensures InputTokens([line]) == if line.category < INPUTS then line.tokens else 0
    ensures OutputTokens([line]) == if line.category < INPUTS then 0 else line.tokens
  {
    assert [line][1..] == [];
  }

  /** Rates cover every chargeable bill exactly when they are at least the accepted envelope. */
  lemma EnvelopeIsLeast(cats: seq<Category>, unknown: nat, e: Envelope, input: nat, output: nat)
    requires |cats| == CATEGORIES && Acceptable(cats, unknown, e)
    ensures e.input <= input && e.output <= output
       <==> forall bill :: Chargeable(cats, unknown, bill) ==>
              Cost(bill) <= Price(input, output, InputTokens(bill), OutputTokens(bill))
  {
    hide Acceptable, Chargeable, Cost, InputTokens, OutputTokens;
    AcceptedIsNonNegative(cats, unknown, e);
    if e.input <= input && e.output <= output {
      forall bill | Chargeable(cats, unknown, bill)
        ensures Cost(bill) <= Price(input, output, InputTokens(bill), OutputTokens(bill))
      {
        PriceCoversEveryBill(cats, unknown, e, bill);
        RatesUp(e.input, e.output, input, output, InputTokens(bill), OutputTokens(bill));
      }
    } else {
      var oneIn := PriceIsAttained(cats, unknown, e, 1, 0);
      var oneOut := PriceIsAttained(cats, unknown, e, 0, 1);
      OneToken(e.input, e.output);
      OneToken(input, output);
      hide Price;
    }
  }

  lemma OneToken(inRate: nat, outRate: nat)
    ensures Price(inRate, outRate, 1, 0) == inRate && Price(inRate, outRate, 0, 1) == outRate
  {
    PriceIsLinear(inRate, outRate, 1, 0);
    PriceIsLinear(inRate, outRate, 0, 1);
  }

  lemma RatesUp(inRate: nat, outRate: nat, inRate': nat, outRate': nat, i: nat, o: nat)
    requires inRate <= inRate' && outRate <= outRate'
    ensures Price(inRate, outRate, i, o) <= Price(inRate', outRate', i, o)
  {
    PriceIsLinear(inRate, outRate, i, o);
    PriceIsLinear(inRate', outRate', i, o);
    hide Price;
    assert i * inRate <= i * inRate' && o * outRate <= o * outRate';
  }
}
