/**
 * The sed-style address engine: an address selects lines by number, by a
 * pattern in the text, or by a range between two such components, and a
 * range carries state from one line to the next.
 */
module Addresses {
  import opened Text

  /** One end of an address: an absolute line number, a `+N` offset, or a pattern. */
  datatype AddressComponent = Line(n: nat) | Relative(count: nat) | RegexPattern(re: string)

  /** An address with no component selects every line. */
  datatype Address =
    | ZeroAddress
    | OneAddress(component: AddressComponent)
    | AddressRange(first: AddressComponent, last: AddressComponent)

  /**
   * The line on which the current range was opened and the line on which the
   * most recent range was closed.
   */
  datatype MatchState = MatchState(leftMatch: Option<nat>, rightMatch: Option<nat>)

  /** The state before the first line: nothing opened, nothing closed. */
  const EMPTY_STATE := MatchState(None, None)

  /** An address together with the `!` flag that inverts its selection. */
  datatype AddressPattern = AddressPattern(pattern: Address, negated: bool)

  /** A range is open once it was opened and not closed since. */
  predicate IsOpen(st: MatchState) {
    st.leftMatch.Some? && (st.rightMatch.None? || st.rightMatch.value < st.leftMatch.value)
  }

  /** Every line number the state records is before line `line`. */
  predicate RecordsBefore(st: MatchState, line: nat) {
    (st.leftMatch.Some? ==> st.leftMatch.value < line) && (st.rightMatch.Some? ==> st.rightMatch.value < line)
  }

  /** Pattern matching, modelled as containment of the pattern taken literally. */
  predicate ReMatch(re: string, text: string) {
    Contains(text, re)
  }

  /** Whether one component on its own selects a line. */
  predicate ComponentMatches(c: AddressComponent, line: nat, text: string) {
    match c
    case Line(n) => line == n
    case RegexPattern(re) => ReMatch(re, text)
    case Relative(_) => false
  }

  /**
   * A range that starts at a pattern and ends at a line number (`end`
   * absolute, or `left + count` for a relative end). Inside an open range
   * a line is selected up to and including the end, and the range closes on
   * reaching it; otherwise a line matching the start pattern opens a new
   * range, which closes at once when the end is not after it.
   *
   * A line that is not selected leaves the state alone. A selected line
   * outside a range opens one on itself. When the state records only
   * earlier lines, the range is still open after a selected line exactly
   * when that line comes before the range's end.
   */
  function PatternToNumber(start: string, last: AddressComponent, line: nat, text: string, st: MatchState): (r: (bool, MatchState))
    requires !last.RegexPattern?
    ensures !r.0 ==> r.1 == st
    ensures r.0 && !IsOpen(st) ==> r.1.leftMatch == Some(line)
    ensures r.0 && RecordsBefore(st, line) ==>
      r.1.leftMatch.Some? && (IsOpen(r.1) <==> line < EndOf(last, r.1.leftMatch.value))
  {
    if IsOpen(st) && line <= EndOf(last, st.leftMatch.value) then
      var end := EndOf(last, st.leftMatch.value);
      (true, if line >= end then st.(rightMatch := Some(line)) else st)
    else if ReMatch(start, text) then
      var end := EndOf(last, line);
      (true, MatchState(Some(line), if line >= end then Some(line) else st.rightMatch))
    else
      (false, st)
  }

  /** The last line of a range opened on line `left` whose end is a number. */
  function EndOf(last: AddressComponent, left: nat): nat {
    match last
    case Line(e) => e
    case Relative(c) => left + c
    case RegexPattern(_) => left
  }

  /** The selection of one line, before `negated` is applied, and the state for the next line. */
  function RawMatch(pattern: Address, line: nat, text: string, st: MatchState): (r: (bool, MatchState))
    ensures r.1.leftMatch == st.leftMatch || r.1.leftMatch == Some(line)
    ensures r.1.rightMatch == st.rightMatch || r.1.rightMatch == Some(line)
  {
    match pattern
    case ZeroAddress => (true, st)
    case OneAddress(c) => (ComponentMatches(c, line, text), st)
    case AddressRange(Line(s), Line(e)) => (s <= line <= e, st)
    case AddressRange(Line(s), Relative(c)) => (s <= line <= s + c, st)
    case AddressRange(Line(s), RegexPattern(e)) =>
      var selected := s <= line && st.rightMatch.None?;
      (selected, if selected && line > s && ReMatch(e, text) then st.(rightMatch := Some(line)) else st)
    case AddressRange(RegexPattern(s), RegexPattern(e)) =>
      if ReMatch(s, text) then (true, st.(leftMatch := Some(line)))
      else if IsOpen(st) then (true, if ReMatch(e, text) then st.(rightMatch := Some(line)) else st)
      else (false, st)
    case AddressRange(RegexPattern(s), last) => PatternToNumber(s, last, line, text, st)
    case AddressRange(Relative(_), _) => (false, st)
  }

  /**
   * `match_range2`: whether line number `line` with contents `text` is
   * selected, given the state left by the previous line, and the new state.
   */
  function MatchRange2(p: AddressPattern, line: nat, text: string, st: MatchState): (r: (bool, MatchState))
    ensures r.1.leftMatch == st.leftMatch || r.1.leftMatch == Some(line)
    ensures r.1.rightMatch == st.rightMatch || r.1.rightMatch == Some(line)
  {
    var (selected, next) := RawMatch(p.pattern, line, text, st);
    (selected != p.negated, next)
  }

  /**
   * `matches`: the selection part of MatchRange2. The first component of a
   * range gates it: a range from line `s` selects nothing before `s`, and
   * nothing at all once a pattern end has closed it; a range from a pattern
   * selects only lines holding that pattern and lines of an open range.
   */
  predicate Matches(p: AddressPattern, line: nat, text: string, st: MatchState): (r: bool)
    ensures p.pattern.AddressRange? && p.pattern.first.Line? && line < p.pattern.first.n ==> r == p.negated
    ensures p.pattern.AddressRange? && p.pattern.first.Line? && p.pattern.last.RegexPattern? && st.rightMatch.Some?
      ==> r == p.negated
    ensures p.pattern.AddressRange? && p.pattern.first.RegexPattern? && r != p.negated
      ==> ReMatch(p.pattern.first.re, text) || IsOpen(st)
  {
    MatchRange2(p, line, text, st).0
  }

  /** Setting `negated` inverts the selection of every line and leaves the state alone. */
  lemma NegationComplements(pattern: Address, line: nat, text: string, st: MatchState)
    ensures MatchRange2(AddressPattern(pattern, true), line, text, st).0
        <==> !MatchRange2(AddressPattern(pattern, false), line, text, st).0
    ensures MatchRange2(AddressPattern(pattern, true), line, text, st).1
         == MatchRange2(AddressPattern(pattern, false), line, text, st).1
  {
  }

  /** Addresses whose selection depends on the line number only. */
  predicate Stateless(a: Address) {
    match a
    case ZeroAddress => true
    case OneAddress(c) => !c.RegexPattern?
    case AddressRange(Line(_), Line(_)) => true
    case AddressRange(Line(_), Relative(_)) => true
    case AddressRange(_, _) => false
  }

  /** The set of line numbers a stateless address selects, given independently of the engine. */
  predicate InStatelessSelection(a: Address, line: nat) {
    match a
    case ZeroAddress => true
    case OneAddress(Line(n)) => line == n
    case AddressRange(Line(s), Line(e)) => s <= line && line <= e
    case AddressRange(Line(s), Relative(c)) => s <= line && line <= s + c
    case _ => false
  }

  /**
   * A stateless address selects exactly the lines of its line-number set
   * (bounds included), whatever the text and the state, and does not touch
   * the state; the negated address selects exactly the others.
   */
  lemma StatelessSelection(p: AddressPattern, line: nat, text: string, st: MatchState)
    requires Stateless(p.pattern)
    ensures Matches(p, line, text, st) <==> (InStatelessSelection(p.pattern, line) != p.negated)
    ensures MatchRange2(p, line, text, st).1 == st
  {
  }

  /** A single pattern address selects exactly the lines that contain the pattern. */
  lemma SinglePatternSelection(p: AddressPattern, line: nat, text: string, st: MatchState)
    requires p.pattern.OneAddress? && p.pattern.component.RegexPattern?
    ensures Matches(p, line, text, st) <==> (Contains(text, p.pattern.component.re) != p.negated)
    ensures MatchRange2(p, line, text, st).1 == st
  {
  }

  /** An address whose first component is a relative offset selects nothing. */
  lemma RelativeFirstSelectsNothing(p: AddressPattern, line: nat, text: string, st: MatchState)
    requires p.pattern.AddressRange? && p.pattern.first.Relative?
    ensures Matches(p, line, text, st) <==> p.negated
    ensures MatchRange2(p, line, text, st).1 == st
  {
  }
}
