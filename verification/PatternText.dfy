/**
 The pattern languages, as text: what an atom and a quantifier are to the published grammar
 (`Authored`) and to the runtime gate (`Gate`), without any expression or scan.
 */
module PatternText {
  import opened Wrappers
  import opened Decimals

  // ------------------------------------------------------------ characters

  predicate Printable(c: char) {
    ' ' <= c <= '~'
  }

  predicate Alphanumeric(c: char) {
    '0' <= c <= '9' || 'A' <= c <= 'Z' || 'a' <= c <= 'z'
  }

  const CATEGORY: set<char> := {'d', 'D', 's', 'S', 'w', 'W'}

  const ANCHORS: set<char> := {'^', '$'}

  const QUANTIFIERS: set<char> := {'*', '+', '?', '{'}

  const META: set<char> := {'(', ')', '|', '.', '*', '+', '?', '{', '}', ']'}

  const CLASS_SYNTAX: set<char> := {'[', ']', '\\', '-'}

  function Concat(parts: seq<string>): string {
    if parts == [] then "" else parts[0] + Concat(parts[1..])
  }

  function Hyphen(there: bool): string {
    if there then "-" else ""
  }

  function Negation(there: bool): string {
    if there then "^" else ""
  }

  // ------------------------------------------------------------ atoms of the published grammar

  /** A backslash before a category letter or a printable character that is no letter or digit. */
  predicate AuthoredEscape(t: string) {
    |t| == 2 && t[0] == '\\' && (t[1] in CATEGORY || (Printable(t[1]) && !Alphanumeric(t[1])))
  }

  /** A plain character, an escape, or one of the four ranges. */
  predicate AuthoredItem(t: string) {
    || (|t| == 1 && Printable(t[0]) && t[0] !in CLASS_SYNTAX)
    || AuthoredEscape(t)
    || t == "0-9" || t == "A-Z" || t == "a-z" || t == " -~"
  }

  function AuthoredClassText(hat: bool, lead: bool, items: seq<string>, tail: bool): string {
    "[" + Negation(hat) + Hyphen(lead) + Concat(items) + Hyphen(tail) + "]"
  }

  /** The parts of a class: something in it, and no bare `^` where it would negate. */
  predicate AuthoredParts(hat: bool, lead: bool, items: seq<string>) {
    && (lead || items != [])
    && (forall k :: 0 <= k < |items| ==> AuthoredItem(items[k]))
    && (!hat && !lead && items != [] ==> items[0] != "^")
  }

  ghost predicate AuthoredClass(t: string) {
    exists hat, lead, items, tail ::
      AuthoredParts(hat, lead, items) && t == AuthoredClassText(hat, lead, items, tail)
  }

  predicate AuthoredLiteral(t: string) {
    |t| == 1 && Printable(t[0]) && t[0] !in META && t[0] !in ANCHORS && t[0] != '[' && t[0] != '\\'
  }

  ghost predicate AuthoredAtom(t: string) {
    AuthoredLiteral(t) || AuthoredEscape(t) || AuthoredClass(t)
  }

  // ------------------------------------------------------------ quantifiers of the published grammar

  ghost predicate AuthoredFixed(t: string) {
    t == "{4096,}" || exists d :: Canonical(d) && Value(d) <= 4096 && t == "{" + d + "}"
  }

  /** Numerals of a pair: canonical and in order, of a published form. */
  predicate PublishedPair(d: string, e: string) {
    && Canonical(d) && Canonical(e)
    && Value(d) < Value(e) <= 4096
    && (Value(d) == 0 || Value(e) == 4096 || |d| < |e| || |d| == |e| == 1)
  }

  ghost predicate AuthoredVariable(t: string) {
    || t == "?" || t == "*" || t == "+"
    || (exists d :: Canonical(d) && Value(d) < 4096 && t == "{" + d + ",}")
    || exists d, e :: PublishedPair(d, e) && t == "{" + d + "," + e + "}"
  }

  // ------------------------------------------------------------ atoms of the gate

  /** A backslash before a category letter or anything that is no letter or digit. */
  predicate GateEscape(t: string) {
    |t| == 2 && t[0] == '\\' && (t[1] in CATEGORY || !Alphanumeric(t[1]))
  }

  /** One end of a range, or a member by itself. */
  predicate GateMember(t: string) {
    GateEscape(t) || (|t| == 1 && t[0] !in CLASS_SYNTAX)
  }

  /** A member, or a hyphen and the member it ranges to. */
  predicate GateStep(t: string) {
    GateMember(t) || (t != "" && t[0] == '-' && GateMember(t[1..]))
  }

  function GateClassText(hat: bool, first: string, steps: seq<string>, tail: bool): string {
    "[" + Negation(hat) + first + Concat(steps) + Hyphen(tail) + "]"
  }

  predicate GateParts(hat: bool, first: string, steps: seq<string>) {
    && (GateMember(first) || first == "-")
    && (!hat ==> first != "^")
    && forall k :: 0 <= k < |steps| ==> GateStep(steps[k])
  }

  ghost predicate GateClass(t: string) {
    exists hat, first, steps, tail :: GateParts(hat, first, steps) && t == GateClassText(hat, first, steps, tail)
  }

  predicate GateLiteral(t: string) {
    |t| == 1 && t[0] !in META && t[0] !in ANCHORS && t[0] != '[' && t[0] != '\\'
  }

  ghost predicate GateAtom(t: string) {
    GateLiteral(t) || GateEscape(t) || GateClass(t)
  }

  // ------------------------------------------------------------ quantifiers of the gate

  predicate Numeral(d: string) {
    |d| > 0 && AllDigits(d)
  }

  /** The text of these repeat bounds, the upper one left out when it is open. */
  ghost predicate Written(t: string, lo: nat, hi: Option<nat>) {
    || (t == "*" && lo == 0 && hi == None)
    || (t == "+" && lo == 1 && hi == None)
    || (t == "?" && lo == 0 && hi == Some(1))
    || (exists d :: Numeral(d) && t == "{" + d + "}" && lo == Value(d) && hi == Some(lo))
    || (exists d :: Numeral(d) && t == "{" + d + ",}" && lo == Value(d) && hi == None)
    || exists d, e :: Numeral(d) && Numeral(e) && t == "{" + d + "," + e + "}" && lo == Value(d) && hi == Some(Value(e))
  }

  /** How often an open quantifier may repeat after all. */
  function Top(hi: Option<nat>): nat {
    match hi case Some(n) => n case None => 4096
  }

  ghost predicate GateQuantifier(t: string, lo: nat, hi: Option<nat>) {
    Written(t, lo, hi) && lo <= Top(hi) <= 4096
  }

  ghost predicate GateFixed(t: string) {
    exists lo, hi :: GateQuantifier(t, lo, hi) && lo == Top(hi)
  }

  ghost predicate GateVariable(t: string) {
    exists lo, hi :: GateQuantifier(t, lo, hi) && lo != Top(hi)
  }
}
