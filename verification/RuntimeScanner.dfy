/**
 The runtime gate a card pattern passes before it is ever compiled: one left to
 right scan, written once as functions on positions and once as the loop.
 */
module RuntimeScanner {
  import opened Wrappers
  import opened Decimals
  import opened SafePattern

  // ------------------------------------------------------------ escapes and classes

  /** Position after the escape at `i`, if it is an approved one. */
  function ConsumeEscape(p: string, i: nat): (e: Option<nat>)
    requires i < |p|
    ensures e.Some? ==> i < e.value <= |p|
  {
    if i + 1 >= |p| then None
    else if IsAlnum(p[i + 1]) && !IsShorthand(p[i + 1]) then None
    else Some(i + 2)
  }

  /** The class body from `k` on, knowing whether it has an atom yet and whether a range is pending. */
  function ClassLoop(p: string, k: nat, hasAtom: bool, pending: bool): (e: Option<nat>)
    requires k <= |p|
    ensures e.Some? ==> k < e.value <= |p|
    decreases |p| - k
  {
    if k == |p| || p[k] == '[' then None
    else if p[k] == ']' then if !hasAtom || pending then None else Some(k + 1)
    else if p[k] == '\\' then
      match ConsumeEscape(p, k)
      case None => None
      case Some(e) => ClassLoop(p, e, true, false)
    else if p[k] == '-' && pending then None
    else if p[k] == '-' && hasAtom && k + 1 < |p| && p[k + 1] != ']' then ClassLoop(p, k + 1, hasAtom, true)
    else ClassLoop(p, k + 1, true, false)
  }

  function ConsumeClass(p: string, i: nat): (e: Option<nat>)
    requires i < |p|
    ensures e.Some? ==> i < e.value <= |p|
  {
    ClassLoop(p, if i + 1 < |p| && p[i + 1] == '^' then i + 2 else i + 1, false, false)
  }

  predicate IsMeta(c: char) {
    c == '(' || c == ')' || c == '|' || c == '.' || c == '*' || c == '+' || c == '?' || c == '{' || c == '}' || c == ']'
  }

  /** One atom that is not an anchor. */
  function ConsumeAtom(p: string, i: nat): (e: Option<nat>)
    requires i < |p|
    ensures e.Some? ==> i < e.value <= |p|
  {
    if p[i] == '[' then ConsumeClass(p, i)
    else if p[i] == '\\' then ConsumeEscape(p, i)
    else if IsMeta(p[i]) then None
    else Some(i + 1)
  }

  // ------------------------------------------------------------ quantifiers

  /** Where a quantifier ends and its bounds; no upper bound when it is open. */
  datatype Quantifier = Quantifier(end: nat, lo: nat, hi: Option<nat>)

  function EffectiveMax(q: Quantifier): nat {
    match q.hi case Some(n) => n case None => REPEAT_MAXIMUM
  }

  predicate Varies(q: Quantifier) {
    q.lo != EffectiveMax(q)
  }

  predicate StartsQuantifier(p: string, i: nat) {
    i < |p| && (p[i] == '*' || p[i] == '+' || p[i] == '?' || p[i] == '{')
  }

  /** Position of the first `c` at or after `i`, or the length. */
  function IndexOf(p: string, c: char, i: nat): (e: nat)
    requires i <= |p|
    ensures i <= e <= |p|
    ensures e < |p| ==> p[e] == c
    ensures forall k :: i <= k < e ==> p[k] != c
    decreases |p| - i
  {
    if i == |p| || p[i] == c then i else IndexOf(p, c, i + 1)
  }

  predicate IsNumeral(d: string) {
    |d| > 0 && AllDigits(d)
  }

  /** The bounds between the braces: one number, or a number and an optional second. */
  function Bounds(inner: string, end: nat): Option<Quantifier> {
    var comma := IndexOf(inner, ',', 0);
    var d := inner[..comma];
    if !IsNumeral(d) then None
    else if comma == |inner| then Some(Quantifier(end, Value(d), Some(Value(d))))
    else
      var e := inner[comma + 1..];
      if e == "" then Some(Quantifier(end, Value(d), None))
      else if !IsNumeral(e) then None
      else Some(Quantifier(end, Value(d), Some(Value(e))))
  }

  function ConsumeQuantifier(p: string, i: nat): (q: Option<Quantifier>)
    requires StartsQuantifier(p, i)
    ensures q.Some? ==> i < q.value.end <= |p|
  {
    if p[i] == '*' then Some(Quantifier(i + 1, 0, None))
    else if p[i] == '+' then Some(Quantifier(i + 1, 1, None))
    else if p[i] == '?' then Some(Quantifier(i + 1, 0, Some(1)))
    else
      var close := IndexOf(p, '}', i + 1);
      if close == |p| then None
      else
        match Bounds(p[i + 1..close], close + 1)
        case None => None
        case Some(q) =>
          if EffectiveMax(q) < q.lo || EffectiveMax(q) > REPEAT_MAXIMUM then None
          else Some(Quantifier(close + 1, q.lo, q.hi))
  }

  // ------------------------------------------------------------ the scan

  datatype Scan = Refuse | Continue(index: nat, previousQuantified: bool, hasVariable: bool)

  /** One turn: an anchor in its place, or an atom and its quantifier. */
  function Turn(p: string, index: nat, previousQuantified: bool, hasVariable: bool): (t: Scan)
    requires index < |p|
    ensures t.Continue? ==> index < t.index <= |p|
  {
    if p[index] == '^' then
      if index != 0 then Refuse else Continue(index + 1, previousQuantified, hasVariable)
    else if p[index] == '$' then
      if index != |p| - 1 then Refuse else Continue(index + 1, previousQuantified, hasVariable)
    else
      match ConsumeAtom(p, index)
      case None => Refuse
      case Some(e) =>
        if !StartsQuantifier(p, e) then Continue(e, false, hasVariable)
        else if previousQuantified then Refuse
        else
          match ConsumeQuantifier(p, e)
          case None => Refuse
          case Some(q) =>
            if Varies(q) && hasVariable then Refuse
            else if StartsQuantifier(p, q.end) then Refuse
            else Continue(q.end, true, hasVariable || Varies(q))
  }

  predicate ScanFrom(p: string, index: nat, previousQuantified: bool, hasVariable: bool)
    requires index <= |p|
    decreases |p| - index
  {
    index == |p| ||
    var t := Turn(p, index, previousQuantified, hasVariable);
    t.Continue? && ScanFrom(p, t.index, t.previousQuantified, t.hasVariable)
  }

  predicate AllPrintable(p: string) {
    forall i :: 0 <= i < |p| ==> IsPrintable(p[i])
  }

  /** Bytes of one character in UTF-8. */
  function Utf8Width(c: char): nat {
    var n := c as int;
    if n < 0x80 then 1 else if n < 0x800 then 2 else if n < 0x1_0000 then 3 else 4
  }

  function Utf8Length(p: string): nat {
    if p == "" then 0 else Utf8Length(p[..|p| - 1]) + Utf8Width(p[|p| - 1])
  }

  predicate RuntimeAccepts(p: string) {
    && AllPrintable(p)
    && |p| <= PATTERN_MAX_CHARACTERS
    && Utf8Length(p) <= PATTERN_MAX_CHARACTERS
    && ScanFrom(p, 0, false, false)
  }

  /** Printable ASCII takes one byte a character, so the two length limits are one limit. */
  lemma {:induction false} PrintableIsOneByteEach(p: string)
    requires AllPrintable(p)
    ensures Utf8Length(p) == |p|
  {
    if p != "" {
      PrintableIsOneByteEach(p[..|p| - 1]);
    }
  }
}
