/** The concrete cases fixed for the address engine. */
module AddressVectors {
  import opened Text
  import opened Addresses

  /** A text without an `f` or a `b` holds neither pattern. */
  lemma MissesBoth(text: string)
    requires 'f' !in text && 'b' !in text
    ensures !Contains(text, "foo") && !Contains(text, "bar")
  {
    NotContainsWithoutFirst(text, "foo");
    NotContainsWithoutFirst(text, "bar");
  }

  /** The texts of the cases below that hold neither pattern. */
  lemma TextsMiss()
    ensures !Contains("un-match", "foo") && !Contains("un-match", "bar")
    ensures !Contains("match", "foo") && !Contains("match", "bar")
  {
    MissesBoth("un-match");
    MissesBoth("match");
  }

  /** Each of `foo` and `bar` misses the other. */
  lemma WordMisses()
    ensures !Contains("bar", "foo") && !Contains("foo", "bar")
  {
    NotContainsWithoutFirst("bar", "foo");
    NotContainsWithoutFirst("foo", "bar");
  }

  lemma ZeroAddressAlwaysMatches()
    ensures forall l :: 1 <= l <= 5 ==> Matches(AddressPattern(ZeroAddress, false), l, "", EMPTY_STATE)
  {
  }

  lemma ZeroAddressInvertNeverMatches()
    ensures forall l :: 1 <= l <= 5 ==> !Matches(AddressPattern(ZeroAddress, true), l, "", EMPTY_STATE)
  {
  }

  lemma OneAddressMatchesOneLine()
    ensures Matches(AddressPattern(OneAddress(Line(3)), false), 3, "", EMPTY_STATE)
    ensures forall l :: l in {1, 2, 4, 5} ==> !Matches(AddressPattern(OneAddress(Line(3)), false), l, "", EMPTY_STATE)
  {
  }

  lemma OneAddressInvertedMatchesButOneLine()
    ensures !Matches(AddressPattern(OneAddress(Line(3)), true), 3, "", EMPTY_STATE)
    ensures forall l :: l in {1, 2, 4, 5} ==> Matches(AddressPattern(OneAddress(Line(3)), true), l, "", EMPTY_STATE)
  {
  }

  lemma MatchesRangeLines()
    ensures forall l :: l in {3, 4, 5} ==> Matches(AddressPattern(AddressRange(Line(3), Line(5)), false), l, "", EMPTY_STATE)
    ensures forall l :: l in {2, 9} ==> !Matches(AddressPattern(AddressRange(Line(3), Line(5)), false), l, "", EMPTY_STATE)
  {
  }

  lemma MatchesRangeLinesInvert()
    ensures forall l :: l in {3, 4, 5} ==> !Matches(AddressPattern(AddressRange(Line(3), Line(5)), true), l, "", EMPTY_STATE)
    ensures forall l :: l in {2, 9} ==> Matches(AddressPattern(AddressRange(Line(3), Line(5)), true), l, "", EMPTY_STATE)
  {
  }

  lemma MatchesRangeRelativeLines()
    ensures forall l :: l in {3, 8} ==> Matches(AddressPattern(AddressRange(Line(3), Relative(5)), false), l, "", EMPTY_STATE)
    ensures forall l :: l in {2, 9} ==> !Matches(AddressPattern(AddressRange(Line(3), Relative(5)), false), l, "", EMPTY_STATE)
  {
  }

  lemma MatchesRangeRelativeLinesInvert()
    ensures forall l :: l in {3, 8} ==> !Matches(AddressPattern(AddressRange(Line(3), Relative(5)), true), l, "", EMPTY_STATE)
    ensures forall l :: l in {2, 9} ==> Matches(AddressPattern(AddressRange(Line(3), Relative(5)), true), l, "", EMPTY_STATE)
  {
  }

  /** `/foo/,+3`: opens on the `foo` line and selects the three lines after it. */
  lemma MatchesRegexRelativeRange()
    ensures Matches(AddressPattern(AddressRange(RegexPattern("foo"), Relative(3)), false), 1, "foo", EMPTY_STATE)
    ensures forall l :: l in {2, 3, 4} ==>
      Matches(AddressPattern(AddressRange(RegexPattern("foo"), Relative(3)), false), l, "match", MatchState(Some(1), None))
    ensures !Matches(AddressPattern(AddressRange(RegexPattern("foo"), Relative(3)), false), 5, "un-match", MatchState(Some(1), None))
  {
    TextsMiss();
    WordMisses();
  }

  /** `/foo/,4`: opens on the `foo` line and selects through line 4. */
  lemma MatchesRegexAbsoluteRange()
    ensures Matches(AddressPattern(AddressRange(RegexPattern("foo"), Line(4)), false), 1, "foo", EMPTY_STATE)
    ensures forall l :: l in {2, 3, 4} ==>
      Matches(AddressPattern(AddressRange(RegexPattern("foo"), Line(4)), false), l, "match", MatchState(Some(1), None))
    ensures !Matches(AddressPattern(AddressRange(RegexPattern("foo"), Line(4)), false), 5, "un-match", MatchState(Some(1), None))
  {
    TextsMiss();
    WordMisses();
  }

  /**
   * `/foo/,2` with `foo` on line 3: only the opening line is selected, and the
   * later lines stay unselected both under the state the case writes by hand
   * and under the one the engine records.
   */
  lemma MatchesRegexEmptyAbsoluteRange()
    ensures !Matches(AddressPattern(AddressRange(RegexPattern("foo"), Line(2)), false), 1, "un-match", EMPTY_STATE)
    ensures !Matches(AddressPattern(AddressRange(RegexPattern("foo"), Line(2)), false), 2, "un-match", EMPTY_STATE)
    ensures Matches(AddressPattern(AddressRange(RegexPattern("foo"), Line(2)), false), 3, "foo", EMPTY_STATE)
    ensures MatchRange2(AddressPattern(AddressRange(RegexPattern("foo"), Line(2)), false), 3, "foo", EMPTY_STATE).1
         == MatchState(Some(3), Some(3))
    ensures forall l :: l in {4, 5} ==>
      !Matches(AddressPattern(AddressRange(RegexPattern("foo"), Line(2)), false), l, "un-match", MatchState(Some(3), None))
    ensures forall l :: l in {4, 5} ==>
      !Matches(AddressPattern(AddressRange(RegexPattern("foo"), Line(2)), false), l, "un-match", MatchState(Some(3), Some(3)))
  {
    TextsMiss();
    WordMisses();
  }

  /** `2,/foo/`: selects from line 2 through the `foo` line, and nothing once that range has closed. */
  lemma MatchesAbsoluteRegexEndRange()
    ensures !Matches(AddressPattern(AddressRange(Line(2), RegexPattern("foo")), false), 1, "un-match", EMPTY_STATE)
    ensures forall l :: l in {2, 3} ==>
      Matches(AddressPattern(AddressRange(Line(2), RegexPattern("foo")), false), l, "match", EMPTY_STATE)
    ensures Matches(AddressPattern(AddressRange(Line(2), RegexPattern("foo")), false), 4, "foo", EMPTY_STATE)
    ensures MatchRange2(AddressPattern(AddressRange(Line(2), RegexPattern("foo")), false), 4, "foo", EMPTY_STATE).1
         == MatchState(None, Some(4))
    ensures !Matches(AddressPattern(AddressRange(Line(2), RegexPattern("foo")), false), 5, "un-match", MatchState(None, Some(4)))
  {
    TextsMiss();
    WordMisses();
  }

  const FOO_BAR := AddressPattern(AddressRange(RegexPattern("foo"), RegexPattern("bar")), false)

  /** `/foo/,/bar/` evaluated against the states written out by hand. */
  lemma MatchesDoubleRegexRange()
    ensures !Matches(FOO_BAR, 1, "un-match", EMPTY_STATE)
    ensures Matches(FOO_BAR, 2, "foo", EMPTY_STATE)
    ensures Matches(FOO_BAR, 3, "match", MatchState(Some(2), None))
    ensures Matches(FOO_BAR, 4, "bar", MatchState(Some(2), None))
    ensures !Matches(FOO_BAR, 5, "un-match", MatchState(Some(2), Some(4)))
  {
    TextsMiss();
    WordMisses();
  }

  /** `/foo/,/bar/` with the state threaded from line to line: lines 2 to 4 are selected. */
  lemma MatchesDoubleRegexRangeUpdate()
    ensures var (m1, s1) := MatchRange2(FOO_BAR, 1, "un-match", EMPTY_STATE);
            var (m2, s2) := MatchRange2(FOO_BAR, 2, "foo", s1);
            var (m3, s3) := MatchRange2(FOO_BAR, 3, "match", s2);
            var (m4, s4) := MatchRange2(FOO_BAR, 4, "bar", s3);
            var (m5, _) := MatchRange2(FOO_BAR, 5, "un-match", s4);
            !m1 && m2 && m3 && m4 && !m5
  {
    TextsMiss();
    WordMisses();
  }

  lemma FooBarHasBoth()
    ensures Contains("foo bar", "foo") && Contains("foo bar", "bar")
  {
    assert OccursAt("foo bar", "bar", 4);
  }

  /**
   * `/foo/,/bar/` where a line holds both patterns: the start wins, so the
   * range stays open and the following line is selected too.
   */
  lemma MatchesDoubleRegexRangeWithMultipleMatchesOnSameLine()
    ensures var (m1, s1) := MatchRange2(FOO_BAR, 1, "foo", EMPTY_STATE);
            var (m2, s2) := MatchRange2(FOO_BAR, 2, "bar", s1);
            var (m3, s3) := MatchRange2(FOO_BAR, 3, "bar", s2);
            var (m4, s4) := MatchRange2(FOO_BAR, 4, "foo bar", s3);
            var (m5, _) := MatchRange2(FOO_BAR, 5, "match", s4);
            m1 && m2 && !m3 && m4 && m5
  {
    TextsMiss();
    WordMisses();
    FooBarHasBoth();
  }
}
