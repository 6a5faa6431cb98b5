/** The concrete cases fixed for get_matches. */
module SelectionVectors {
  import opened Text
  import opened Addresses
  import opened Selection

  /** Address `2` on three lines selects only the middle one. */
  lemma LineTwoSelections()
    ensures Selections(AddressPattern(OneAddress(Line(2)), false), ["one", "two", "three"]) == [false, true, false]
  {
    var lines := ["one", "two", "three"];
    StatelessSelections(AddressPattern(OneAddress(Line(2)), false), lines);
  }

  /** get_matches with address `2`: three runs, the middle one selected and holding `two`. */
  lemma LineAddressOnlyMatchesOne()
    ensures |GetMatches(AddressPattern(OneAddress(Line(2)), false), ["one", "two", "three"])| == 3
    ensures GetMatches(AddressPattern(OneAddress(Line(2)), false), ["one", "two", "three"])[1] == (true, ["two"])
  {
    LineTwoSelections();
  }

  /** Address `2,4` on four lines selects all but the first. */
  lemma RangeTwoFourSelections()
    ensures Selections(AddressPattern(AddressRange(Line(2), Line(4)), false), ["one", "two", "three", "four"])
         == [false, true, true, true]
  {
    var lines := ["one", "two", "three", "four"];
    StatelessSelections(AddressPattern(AddressRange(Line(2), Line(4)), false), lines);
  }

  /** get_matches with address `2,4`: two runs, the second selected and holding lines 2 to 4. */
  lemma LineRangeAddressMatchesBlock()
    ensures |GetMatches(AddressPattern(AddressRange(Line(2), Line(4)), false), ["one", "two", "three", "four"])| == 2
    ensures GetMatches(AddressPattern(AddressRange(Line(2), Line(4)), false), ["one", "two", "three", "four"])[1]
         == (true, ["two", "three", "four"])
  {
    RangeTwoFourSelections();
    var lines := ["one", "two", "three", "four"];
    var flags := [false, true, true, true];
    assert flags[3..] == [true] && lines[3..] == ["four"];
    assert Runs(flags[3..], lines[3..]) == [(true, ["four"])];
    assert flags[2..][1..] == flags[3..] && lines[2..][1..] == lines[3..];
    assert ["three"] + ["four"] == ["three", "four"];
    assert Runs(flags[2..], lines[2..]) == [(true, ["three", "four"])];
    assert flags[1..][1..] == flags[2..] && lines[1..][1..] == lines[2..];
    assert ["two"] + ["three", "four"] == ["two", "three", "four"];
    assert Runs(flags[1..], lines[1..]) == [(true, ["two", "three", "four"])];
  }

  /** `/a/,+1` on `a`, `a`, `x`: the second `a` falls inside the range and does not restart it, so `x` is not selected. */
  lemma RelativeRangeDoesNotReset()
    ensures Selections(AddressPattern(AddressRange(RegexPattern("a"), Relative(1)), false), ["a", "a", "x"])
         == [true, true, false]
  {
    var lines := ["a", "a", "x"];
    var p := AddressPattern(AddressRange(RegexPattern("a"), Relative(1)), false);
    NotContainsWithoutFirst("x", "a");
    assert lines[..0] == [] && lines[..3] == lines;
    ScanStep(p, lines, 0);
    ScanStep(p, lines, 1);
    ScanStep(p, lines, 2);
  }

  /** `/p/,1` with the pattern on line 2: line 1 is already past, so only the pattern line is selected. */
  lemma EndBeforeStartSelectsOnlyStart()
    ensures Selections(AddressPattern(AddressRange(RegexPattern("p"), Line(1)), false), ["x", "p", "y"])
         == [false, true, false]
  {
    var lines := ["x", "p", "y"];
    var p := AddressPattern(AddressRange(RegexPattern("p"), Line(1)), false);
    NotContainsWithoutFirst("x", "p");
    NotContainsWithoutFirst("y", "p");
    assert lines[..0] == [] && lines[..3] == lines;
    ScanStep(p, lines, 0);
    ScanStep(p, lines, 1);
    ScanStep(p, lines, 2);
  }
}
