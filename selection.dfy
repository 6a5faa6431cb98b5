/**
 * Selecting lines of a whole file: the address engine is run on lines
 * 1, 2, ... in order, each line seeing the state the previous one left, and
 * the selection is then cut into maximal runs of equally selected lines.
 */
module Selection {
  import opened Text
  import opened Addresses

  /** Every line number recorded in the state is one of the first `n` lines. */
  predicate Bounded(st: MatchState, n: nat) {
    (st.leftMatch.Some? ==> 1 <= st.leftMatch.value <= n)
    && (st.rightMatch.Some? ==> 1 <= st.rightMatch.value <= n)
  }

  /**
   * The selection flag of every line and the state after the last one, the
   * first line being line number 1 and starting from EMPTY_STATE.
   */
  function Scan(p: AddressPattern, lines: seq<string>): (r: (seq<bool>, MatchState))
    ensures |r.0| == |lines|
    ensures Bounded(r.1, |lines|)
  {
    if lines == [] then ([], EMPTY_STATE)
    else
      var (flags, st) := Scan(p, lines[..|lines| - 1]);
      var (selected, next) := MatchRange2(p, |lines|, lines[|lines| - 1], st);
      (flags + [selected], next)
  }

  /**
   * The selection flag of every line: line `i + 1` is selected exactly when
   * match_range2 selects it in the state the earlier lines left.
   */
  function Selections(p: AddressPattern, lines: seq<string>): (r: seq<bool>)
    ensures |r| == |lines|
    ensures forall i :: 0 <= i < |lines| ==> r[i] == MatchRange2(p, i + 1, lines[i], StateBefore(p, lines, i)).0
  {
    assert forall i :: 0 <= i < |lines| ==>
      Scan(p, lines).0[i] == MatchRange2(p, i + 1, lines[i], StateBefore(p, lines, i)).0 by {
      forall i | 0 <= i < |lines|
        ensures Scan(p, lines).0[i] == MatchRange2(p, i + 1, lines[i], StateBefore(p, lines, i)).0
      {
        ScanIsStep(p, lines, i);
      }
    }
    Scan(p, lines).0
  }

  /** The state in which line `i + 1` (index `i`) is judged. */
  function StateBefore(p: AddressPattern, lines: seq<string>, i: nat): MatchState
    requires i <= |lines|
  {
    Scan(p, lines[..i]).1
  }

  /** Scanning one more line extends the flags by that line's verdict. */
  lemma ScanStep(p: AddressPattern, lines: seq<string>, n: nat)
    requires n < |lines|
    ensures Scan(p, lines[..n + 1]).0
         == Scan(p, lines[..n]).0 + [MatchRange2(p, n + 1, lines[n], StateBefore(p, lines, n)).0]
    ensures StateBefore(p, lines, n + 1) == MatchRange2(p, n + 1, lines[n], StateBefore(p, lines, n)).1
  {
    assert lines[..n + 1][..n] == lines[..n];
  }

  /** The flags of a prefix of the file are the prefix of the flags: no line looks ahead. */
  lemma {:induction false} ScanPrefix(p: AddressPattern, lines: seq<string>, n: nat)
    requires n <= |lines|
    ensures Scan(p, lines[..n]).0 == Scan(p, lines).0[..n]
    decreases |lines| - n
  {
    if n < |lines| {
      ScanPrefix(p, lines, n + 1);
      ScanStep(p, lines, n);
      assert lines[..|lines|] == lines;
      assert Scan(p, lines[..n + 1]).0[..n] == Scan(p, lines[..n]).0;
    } else {
      assert lines[..n] == lines;
    }
  }

  /** The flag of line `i + 1` is the engine's verdict in the state the earlier lines left. */
  lemma ScanIsStep(p: AddressPattern, lines: seq<string>, i: nat)
    requires i < |lines|
    ensures Scan(p, lines).0[i] == MatchRange2(p, i + 1, lines[i], StateBefore(p, lines, i)).0
  {
    ScanPrefix(p, lines, i + 1);
    ScanStep(p, lines, i);
    var flags := Scan(p, lines[..i]).0;
    assert |flags| == i;
    assert Scan(p, lines).0[i] == Scan(p, lines).0[..i + 1][i];
  }

  /** Negating the address complements every flag and leaves the final state as it was. */
  lemma {:induction false} NegatedSelections(pattern: Address, lines: seq<string>)
    ensures |Selections(AddressPattern(pattern, true), lines)| == |lines|
    ensures forall i :: 0 <= i < |lines| ==>
      Selections(AddressPattern(pattern, true), lines)[i] == !Selections(AddressPattern(pattern, false), lines)[i]
    ensures Scan(AddressPattern(pattern, true), lines).1 == Scan(AddressPattern(pattern, false), lines).1
  {
    if lines != [] {
      var init := lines[..|lines| - 1];
      NegatedSelections(pattern, init);
      var st := Scan(AddressPattern(pattern, false), init).1;
      NegationComplements(pattern, |lines|, lines[|lines| - 1], st);
    }
  }

  /** A stateless address selects line `i + 1` exactly when `i + 1` is in its line-number set (negated: when not). */
  lemma StatelessSelections(p: AddressPattern, lines: seq<string>)
    requires Stateless(p.pattern)
    ensures forall i :: 0 <= i < |lines| ==>
      Selections(p, lines)[i] == (InStatelessSelection(p.pattern, i + 1) != p.negated)
  {
    forall i | 0 <= i < |lines|
      ensures Selections(p, lines)[i] == (InStatelessSelection(p.pattern, i + 1) != p.negated)
    {
      ScanIsStep(p, lines, i);
      StatelessSelection(p, i + 1, lines[i], StateBefore(p, lines, i));
    }
  }

  // ---------------------------------------------------------------------
  // /start/,/end/

  /** Reference for `/start/,/end/`: some line at or before index `i` holds the start, and no line strictly between holds the end. */
  predicate InDoubleRegexRange(start: string, end: string, lines: seq<string>, i: nat)
    requires i < |lines|
  {
    exists j :: 0 <= j <= i && Contains(lines[j], start) && forall k :: j < k < i ==> !Contains(lines[k], end)
  }

  /** The range is open after the first `n` lines. */
  predicate DoubleRegexOpen(start: string, end: string, lines: seq<string>, n: nat)
    requires n <= |lines|
  {
    exists j :: 0 <= j < n && Contains(lines[j], start) && forall k :: j < k < n ==> !Contains(lines[k], end)
  }

  /** One line of `/start/,/end/` keeps the state in step with DoubleRegexOpen. */
  lemma DoubleRegexStep(start: string, end: string, negated: bool, lines: seq<string>, m: nat, st: MatchState)
    requires m < |lines| && Bounded(st, m)
    requires IsOpen(st) <==> DoubleRegexOpen(start, end, lines, m)
    ensures var next := MatchRange2(AddressPattern(AddressRange(RegexPattern(start), RegexPattern(end)), negated), m + 1, lines[m], st).1;
      IsOpen(next) <==> DoubleRegexOpen(start, end, lines, m + 1)
  {
    var n := m + 1;
    if Contains(lines[m], start) {
      assert DoubleRegexOpen(start, end, lines, n);
    } else if IsOpen(st) && !Contains(lines[m], end) {
      var j :| 0 <= j < m && Contains(lines[j], start) && forall k :: j < k < m ==> !Contains(lines[k], end);
      assert forall k :: j < k < n ==> !Contains(lines[k], end);
    } else {
      forall j | 0 <= j < n && Contains(lines[j], start)
        ensures exists k :: j < k < n && Contains(lines[k], end)
      {
        assert j < m;
      }
    }
  }

  lemma {:induction false} DoubleRegexState(start: string, end: string, negated: bool, lines: seq<string>, n: nat)
    requires n <= |lines|
    ensures IsOpen(StateBefore(AddressPattern(AddressRange(RegexPattern(start), RegexPattern(end)), negated), lines, n))
        <==> DoubleRegexOpen(start, end, lines, n)
  {
    var p := AddressPattern(AddressRange(RegexPattern(start), RegexPattern(end)), negated);
    if n == 0 {
      assert lines[..0] == [];
    } else {
      DoubleRegexState(start, end, negated, lines, n - 1);
      ScanStep(p, lines, n - 1);
      DoubleRegexStep(start, end, negated, lines, n - 1, StateBefore(p, lines, n - 1));
    }
  }

  /** Line `i + 1` is in the reference range exactly when it holds the start or the range is open before it. */
  lemma InDoubleRegexRangeCases(start: string, end: string, lines: seq<string>, i: nat)
    requires i < |lines|
    ensures InDoubleRegexRange(start, end, lines, i) <==> Contains(lines[i], start) || DoubleRegexOpen(start, end, lines, i)
  {
    if Contains(lines[i], start) {
      assert InDoubleRegexRange(start, end, lines, i);
    }
    if DoubleRegexOpen(start, end, lines, i) {
      var j :| 0 <= j < i && Contains(lines[j], start) && forall k :: j < k < i ==> !Contains(lines[k], end);
      assert InDoubleRegexRange(start, end, lines, i);
    }
    if InDoubleRegexRange(start, end, lines, i) && !Contains(lines[i], start) {
      var j :| 0 <= j <= i && Contains(lines[j], start) && forall k :: j < k < i ==> !Contains(lines[k], end);
      assert j != i;
      assert DoubleRegexOpen(start, end, lines, i);
    }
  }

  /** `/start/,/end/` selects exactly the lines of the reference; negated, exactly the others. */
  lemma DoubleRegexSelections(start: string, end: string, negated: bool, lines: seq<string>)
    ensures forall i :: 0 <= i < |lines| ==>
      Selections(AddressPattern(AddressRange(RegexPattern(start), RegexPattern(end)), negated), lines)[i]
      == (InDoubleRegexRange(start, end, lines, i) != negated)
  {
    var p := AddressPattern(AddressRange(RegexPattern(start), RegexPattern(end)), negated);
    forall i | 0 <= i < |lines|
      ensures Selections(p, lines)[i] == (InDoubleRegexRange(start, end, lines, i) != negated)
    {
      ScanIsStep(p, lines, i);
      DoubleRegexState(start, end, negated, lines, i);
      InDoubleRegexRangeCases(start, end, lines, i);
    }
  }

  // ---------------------------------------------------------------------
  // s,/end/

  /** Reference for `s,/end/`: line `i + 1` is at or after line `s` and no line after `s` and before it holds the end. */
  predicate InLineToRegexRange(s: nat, end: string, lines: seq<string>, i: nat)
    requires i < |lines|
  {
    s <= i + 1 && forall k :: 0 <= k < i && s < k + 1 ==> !Contains(lines[k], end)
  }

  lemma {:induction false} LineToRegexState(s: nat, end: string, negated: bool, lines: seq<string>, n: nat)
    requires n <= |lines|
    ensures StateBefore(AddressPattern(AddressRange(Line(s), RegexPattern(end)), negated), lines, n).rightMatch.None?
        <==> forall k :: 0 <= k < n && s < k + 1 ==> !Contains(lines[k], end)
  {
    var p := AddressPattern(AddressRange(Line(s), RegexPattern(end)), negated);
    if n == 0 {
      assert lines[..0] == [];
    } else {
      LineToRegexState(s, end, negated, lines, n - 1);
      ScanStep(p, lines, n - 1);
    }
  }

  /** `s,/end/` selects from line `s` through the first later line holding the end, and nothing after it. */
  lemma LineToRegexSelections(s: nat, end: string, negated: bool, lines: seq<string>)
    ensures forall i :: 0 <= i < |lines| ==>
      Selections(AddressPattern(AddressRange(Line(s), RegexPattern(end)), negated), lines)[i]
      == (InLineToRegexRange(s, end, lines, i) != negated)
  {
    var p := AddressPattern(AddressRange(Line(s), RegexPattern(end)), negated);
    forall i | 0 <= i < |lines|
      ensures Selections(p, lines)[i] == (InLineToRegexRange(s, end, lines, i) != negated)
    {
      ScanIsStep(p, lines, i);
      LineToRegexState(s, end, negated, lines, i);
    }
  }

  // ---------------------------------------------------------------------
  // /start/,e

  /** Reference for `/start/,e`: line `i + 1` holds the start, or it is not after line `e` and an earlier line holds the start. */
  predicate InRegexToLineRange(start: string, e: nat, lines: seq<string>, i: nat)
    requires i < |lines|
  {
    Contains(lines[i], start) || (i + 1 <= e && exists j :: 0 <= j < i && Contains(lines[j], start))
  }

  /** Some line among the first `n` holds the start. */
  predicate StartSeen(start: string, lines: seq<string>, n: nat)
    requires n <= |lines|
  {
    exists j :: 0 <= j < n && Contains(lines[j], start)
  }

  /** One line of `/start/,e` keeps the state open exactly while a start was seen and line `e` not yet reached. */
  lemma RegexToLineStep(start: string, e: nat, negated: bool, lines: seq<string>, m: nat, st: MatchState)
    requires m < |lines| && Bounded(st, m)
    requires IsOpen(st) <==> m < e && StartSeen(start, lines, m)
    ensures var next := MatchRange2(AddressPattern(AddressRange(RegexPattern(start), Line(e)), negated), m + 1, lines[m], st).1;
      IsOpen(next) <==> m + 1 < e && StartSeen(start, lines, m + 1)
  {
    if Contains(lines[m], start) {
      assert StartSeen(start, lines, m + 1);
    } else {
      forall j | 0 <= j < m + 1 && Contains(lines[j], start)
        ensures StartSeen(start, lines, m)
      {
        assert j < m;
      }
      if StartSeen(start, lines, m) {
        var j :| 0 <= j < m && Contains(lines[j], start);
        assert StartSeen(start, lines, m + 1);
      }
    }
  }

  lemma {:induction false} RegexToLineState(start: string, e: nat, negated: bool, lines: seq<string>, n: nat)
    requires n <= |lines|
    ensures IsOpen(StateBefore(AddressPattern(AddressRange(RegexPattern(start), Line(e)), negated), lines, n))
        <==> n < e && StartSeen(start, lines, n)
  {
    var p := AddressPattern(AddressRange(RegexPattern(start), Line(e)), negated);
    if n == 0 {
      assert lines[..0] == [];
    } else {
      RegexToLineState(start, e, negated, lines, n - 1);
      ScanStep(p, lines, n - 1);
      RegexToLineStep(start, e, negated, lines, n - 1, StateBefore(p, lines, n - 1));
    }
  }

  /** `/start/,e` opens on a start line and selects through line `e`; when `e` is not after the start line, only that line. */
  lemma RegexToLineSelections(start: string, e: nat, negated: bool, lines: seq<string>)
    ensures forall i :: 0 <= i < |lines| ==>
      Selections(AddressPattern(AddressRange(RegexPattern(start), Line(e)), negated), lines)[i]
      == (InRegexToLineRange(start, e, lines, i) != negated)
  {
    var p := AddressPattern(AddressRange(RegexPattern(start), Line(e)), negated);
    forall i | 0 <= i < |lines|
      ensures Selections(p, lines)[i] == (InRegexToLineRange(start, e, lines, i) != negated)
    {
      ScanIsStep(p, lines, i);
      RegexToLineState(start, e, negated, lines, i);
    }
  }

  // ---------------------------------------------------------------------
  // /start/,+c

  /** Index `i` opens a range of `/start/,+c`: it holds the start and is not inside a range opened before. */
  predicate OpensRelative(start: string, c: nat, lines: seq<string>, i: nat)
    decreases i, 1
  {
    i < |lines| && Contains(lines[i], start) && !CoveredRelative(start, c, lines, i)
  }

  /** Index `i` lies within the `c` lines after the opening line of a range. */
  predicate CoveredRelative(start: string, c: nat, lines: seq<string>, i: nat)
    decreases i, 0
  {
    exists j :: 0 <= j < i && OpensRelative(start, c, lines, j) && i <= j + c
  }

  /** Reference for `/start/,+c`: line `i + 1` holds the start or lies within a range. */
  predicate InRegexRelativeRange(start: string, c: nat, lines: seq<string>, i: nat)
    requires i < |lines|
  {
    Contains(lines[i], start) || CoveredRelative(start, c, lines, i)
  }

  /** Two ranges never overlap: of two opening lines, the later lies past the end of the earlier. */
  lemma OpeningsApart(start: string, c: nat, lines: seq<string>, a: nat, b: nat)
    requires a != b && OpensRelative(start, c, lines, a) && OpensRelative(start, c, lines, b)
    ensures a < b ==> b > a + c
    ensures b < a ==> a > b + c
  {
  }

  /** The state of `/start/,+c` after `n` lines: open exactly when line `n + 1` is covered, and then by the range opened at `leftMatch`. */
  predicate RelativeInvariant(start: string, c: nat, lines: seq<string>, n: nat, st: MatchState) {
    (IsOpen(st) <==> CoveredRelative(start, c, lines, n))
    && (IsOpen(st) ==> 1 <= st.leftMatch.value && OpensRelative(start, c, lines, st.leftMatch.value - 1)
                       && n <= st.leftMatch.value - 1 + c)
  }

  lemma RegexRelativeStep(start: string, c: nat, negated: bool, lines: seq<string>, m: nat, st: MatchState)
    requires m < |lines| && Bounded(st, m)
    requires RelativeInvariant(start, c, lines, m, st)
    ensures RelativeInvariant(start, c, lines, m + 1,
      MatchRange2(AddressPattern(AddressRange(RegexPattern(start), Relative(c)), negated), m + 1, lines[m], st).1)
  {
    var n := m + 1;
    if IsOpen(st) {
      var j := st.leftMatch.value - 1;
      if m == j + c {
        forall j' | 0 <= j' < n && OpensRelative(start, c, lines, j')
          ensures n > j' + c
        {
          if j' != j {
            OpeningsApart(start, c, lines, j, j');
          }
        }
      } else {
        assert CoveredRelative(start, c, lines, n);
      }
    } else if Contains(lines[m], start) {
      assert OpensRelative(start, c, lines, m);
      if c > 0 {
        assert CoveredRelative(start, c, lines, n);
      }
    } else {
      forall j' | 0 <= j' < n && OpensRelative(start, c, lines, j')
        ensures n > j' + c
      {
        assert j' != m;
      }
    }
  }

  lemma {:induction false} RegexRelativeState(start: string, c: nat, negated: bool, lines: seq<string>, n: nat)
    requires n <= |lines|
    ensures RelativeInvariant(start, c, lines, n,
      StateBefore(AddressPattern(AddressRange(RegexPattern(start), Relative(c)), negated), lines, n))
  {
    var p := AddressPattern(AddressRange(RegexPattern(start), Relative(c)), negated);
    if n == 0 {
      assert lines[..0] == [];
    } else {
      RegexRelativeState(start, c, negated, lines, n - 1);
      ScanStep(p, lines, n - 1);
      RegexRelativeStep(start, c, negated, lines, n - 1, StateBefore(p, lines, n - 1));
    }
  }

  /** `/start/,+c` selects each opening line and the `c` lines after it; a start line inside a range does not restart it. */
  lemma RegexRelativeSelections(start: string, c: nat, negated: bool, lines: seq<string>)
    ensures forall i :: 0 <= i < |lines| ==>
      Selections(AddressPattern(AddressRange(RegexPattern(start), Relative(c)), negated), lines)[i]
      == (InRegexRelativeRange(start, c, lines, i) != negated)
  {
    var p := AddressPattern(AddressRange(RegexPattern(start), Relative(c)), negated);
    forall i | 0 <= i < |lines|
      ensures Selections(p, lines)[i] == (InRegexRelativeRange(start, c, lines, i) != negated)
    {
      ScanIsStep(p, lines, i);
      RegexRelativeState(start, c, negated, lines, i);
    }
  }

  // ---------------------------------------------------------------------
  // get_matches

  /** A run: a selection flag and the consecutive lines that share it. */
  type Run = (bool, seq<string>)

  /** The lines of the runs, in order. */
  function Concat(runs: seq<Run>): seq<string> {
    if |runs| == 0 then [] else runs[0].1 + Concat(runs[1..])
  }

  /** `n` copies of a flag. */
  function Repeat(f: bool, n: nat): (r: seq<bool>)
    ensures |r| == n
  {
    if n == 0 then [] else [f] + Repeat(f, n - 1)
  }

  /** The flag of every line of the runs, in order. */
  function Expand(runs: seq<Run>): seq<bool> {
    if |runs| == 0 then [] else Repeat(runs[0].0, |runs[0].1|) + Expand(runs[1..])
  }

  /** No run is empty and neighbouring runs differ in their flag. */
  predicate Maximal(runs: seq<Run>) {
    (forall i :: 0 <= i < |runs| ==> runs[i].1 != [])
    && (forall i :: 0 <= i < |runs| - 1 ==> runs[i].0 != runs[i + 1].0)
  }

  /** Dropping the run put in front gives the runs back. */
  lemma TailOfCons(run: Run, runs: seq<Run>)
    ensures ([run] + runs)[1..] == runs
  {
  }

  /** A non-empty list of runs is its first run in front of the rest. */
  lemma ConsOfParts(runs: seq<Run>)
    requires |runs| > 0
    ensures [runs[0]] + runs[1..] == runs
  {
  }

  /** Concat and Expand of a list of runs with a run in front. */
  lemma RunsCons(run: Run, runs: seq<Run>)
    ensures Concat([run] + runs) == run.1 + Concat(runs)
    ensures Expand([run] + runs) == Repeat(run.0, |run.1|) + Expand(runs)
  {
    TailOfCons(run, runs);
  }

  /** One step of Concat and Expand on a non-empty list of runs. */
  lemma Unfold(runs: seq<Run>)
    requires |runs| > 0
    ensures Concat(runs) == runs[0].1 + Concat(runs[1..])
    ensures Expand(runs) == Repeat(runs[0].0, |runs[0].1|) + Expand(runs[1..])
  {
  }

  lemma RepeatSucc(f: bool, n: nat)
    ensures Repeat(f, n + 1) == [f] + Repeat(f, n)
  {
  }

  lemma AppendAssoc<T>(x: seq<T>, y: seq<T>, z: seq<T>)
    ensures (x + y) + z == x + (y + z)
  {
  }

  /** Concat and Expand when the run in front has one more line at its head. */
  lemma ConcatLonger(f: bool, line: string, block: seq<string>, runs: seq<Run>)
    ensures Concat([(f, [line] + block)] + runs) == [line] + (block + Concat(runs))
  {
    RunsCons((f, [line] + block), runs);
    AppendAssoc([line], block, Concat(runs));
  }

  lemma ExpandLonger(f: bool, line: string, block: seq<string>, runs: seq<Run>)
    ensures Expand([(f, [line] + block)] + runs) == [f] + (Repeat(f, |block|) + Expand(runs))
  {
    RunsCons((f, [line] + block), runs);
    assert |[line] + block| == |block| + 1;
    RepeatSucc(f, |block|);
    AppendAssoc([f], Repeat(f, |block|), Expand(runs));
  }

  /** Putting a line at the front of the first run, when it has the same flag. */
  lemma MergeFront(f: bool, line: string, rest: seq<Run>)
    requires |rest| > 0 && rest[0].0 == f
    ensures var r := [(f, [line] + rest[0].1)] + rest[1..];
      Concat(r) == [line] + Concat(rest) && Expand(r) == [f] + Expand(rest)
  {
    ConcatLonger(f, line, rest[0].1, rest[1..]);
    ExpandLonger(f, line, rest[0].1, rest[1..]);
    Unfold(rest);
  }

  /** Putting a line in a run of its own in front. */
  lemma PushFront(f: bool, line: string, rest: seq<Run>)
    ensures var r := [(f, [line])] + rest;
      Concat(r) == [line] + Concat(rest) && Expand(r) == [f] + Expand(rest)
  {
    RunsCons((f, [line]), rest);
    RepeatSucc(f, 0);
  }

  /** Maximality survives merging a line into the first run and pushing a run of its own. */
  lemma MaximalMerge(f: bool, line: string, rest: seq<Run>)
    requires Maximal(rest) && |rest| > 0 && rest[0].0 == f
    ensures Maximal([(f, [line] + rest[0].1)] + rest[1..])
  {
  }

  lemma MaximalPush(f: bool, line: string, rest: seq<Run>)
    requires Maximal(rest) && (|rest| > 0 ==> rest[0].0 != f)
    ensures Maximal([(f, [line])] + rest)
  {
  }

  lemma Halves<T>(s: seq<T>)
    requires |s| > 0
    ensures s == [s[0]] + s[1..]
  {
  }

  /** Cuts the lines into maximal runs of equal flag. */
  function Runs(flags: seq<bool>, lines: seq<string>): (r: seq<Run>)
    requires |flags| == |lines|
    ensures Concat(r) == lines
    ensures Expand(r) == flags
    ensures Maximal(r)
    ensures |r| > 0 ==> r[0].0 == flags[0]
  {
    if |lines| == 0 then []
    else
      var rest := Runs(flags[1..], lines[1..]);
      Halves(lines);
      Halves(flags);
      if |rest| > 0 && rest[0].0 == flags[0] then
        MergeFront(flags[0], lines[0], rest);
        MaximalMerge(flags[0], lines[0], rest);
        [(flags[0], [lines[0]] + rest[0].1)] + rest[1..]
      else
        PushFront(flags[0], lines[0], rest);
        MaximalPush(flags[0], lines[0], rest);
        [(flags[0], [lines[0]])] + rest
  }

  lemma DropFront<T>(x: seq<T>, y: seq<T>)
    requires |x| > 0
    ensures (x + y)[1..] == x[1..] + y
  {
  }

  /** Maximality survives dropping the first line of a longer first run, and dropping the first run. */
  lemma MaximalShrink(r: seq<Run>)
    requires Maximal(r) && |r| > 0 && |r[0].1| > 1
    ensures Maximal([(r[0].0, r[0].1[1..])] + r[1..])
  {
  }

  lemma MaximalTail(r: seq<Run>)
    requires Maximal(r) && |r| > 0
    ensures Maximal(r[1..])
    ensures |r| > 1 ==> r[0].0 != r[1].0
    ensures r[0].1 != []
  {
  }

  /** What the first run of a cut tells about the first line and the remaining ones. */
  lemma FirstRun(flags: seq<bool>, lines: seq<string>, r: seq<Run>)
    requires Concat(r) == lines && Expand(r) == flags && Maximal(r) && |r| > 0
    ensures |lines| > 0 && |flags| > 0
    ensures lines[0] == r[0].1[0] && flags[0] == r[0].0
    ensures lines[1..] == r[0].1[1..] + Concat(r[1..])
    ensures flags[1..] == Repeat(r[0].0, |r[0].1| - 1) + Expand(r[1..])
  {
    MaximalTail(r);
    Unfold(r);
    FirstRunLines(r[0].1, Concat(r[1..]));
    FirstRunFlags(r[0].0, |r[0].1| - 1, Expand(r[1..]));
  }

  /** The lines of a non-empty first block followed by the rest. */
  lemma FirstRunLines(block: seq<string>, rest: seq<string>)
    requires block != []
    ensures (block + rest)[0] == block[0]
    ensures (block + rest)[1..] == block[1..] + rest
  {
    DropFront(block, rest);
  }

  /** The flags of a run of `n + 1` lines followed by the rest. */
  lemma FirstRunFlags(f: bool, n: nat, rest: seq<bool>)
    ensures (Repeat(f, n + 1) + rest)[0] == f
    ensures (Repeat(f, n + 1) + rest)[1..] == Repeat(f, n) + rest
  {
    RepeatSucc(f, n);
    AppendAssoc([f], Repeat(f, n), rest);
    DropFront([f], Repeat(f, n) + rest);
  }

  /** Runs is the only way to cut the lines into maximal runs carrying the given flags. */
  lemma {:induction false} RunsUnique(flags: seq<bool>, lines: seq<string>, r: seq<Run>)
    requires |flags| == |lines|
    requires Concat(r) == lines && Expand(r) == flags && Maximal(r)
    ensures r == Runs(flags, lines)
    decreases |lines|, 1
  {
    if |r| > 0 {
      FirstRun(flags, lines, r);
      if |r[0].1| == 1 {
        UniqueSingle(flags, lines, r);
      } else {
        UniqueLonger(flags, lines, r);
      }
    }
  }

  /** The two cases of RunsUnique: the first run holds one line, or more. */
  lemma {:induction false} UniqueSingle(flags: seq<bool>, lines: seq<string>, r: seq<Run>)
    requires |flags| == |lines|
    requires Concat(r) == lines && Expand(r) == flags && Maximal(r)
    requires |r| > 0 && |r[0].1| == 1
    ensures r == Runs(flags, lines)
    decreases |lines|, 0
  {
    FirstRun(flags, lines, r);
    MaximalTail(r);
    RunsUnique(flags[1..], lines[1..], r[1..]);
    var block := r[0].1;
    Halves(block);
    assert block[1..] == [];
    assert block == [lines[0]];
    assert r[0] == (flags[0], [lines[0]]);
    ConsOfParts(r);
  }

  lemma {:induction false} UniqueLonger(flags: seq<bool>, lines: seq<string>, r: seq<Run>)
    requires |flags| == |lines|
    requires Concat(r) == lines && Expand(r) == flags && Maximal(r)
    requires |r| > 0 && |r[0].1| > 1
    ensures r == Runs(flags, lines)
    decreases |lines|, 0
  {
    var f := r[0].0;
    var block := r[0].1;
    FirstRun(flags, lines, r);
    var r' := [(f, block[1..])] + r[1..];
    RunsCons((f, block[1..]), r[1..]);
    MaximalShrink(r);
    RunsUnique(flags[1..], lines[1..], r');
    TailOfCons((f, block[1..]), r[1..]);
    Halves(block);
    assert r[0] == (flags[0], [lines[0]] + r'[0].1);
    ConsOfParts(r);
  }

  /** `get_matches`: the lines in order, cut into maximal runs of lines that are all selected or all not. */
  function GetMatches(p: AddressPattern, lines: seq<string>): (r: seq<Run>)
    ensures Concat(r) == lines
    ensures Expand(r) == Selections(p, lines)
    ensures Maximal(r)
  {
    Runs(Selections(p, lines), lines)
  }
}
