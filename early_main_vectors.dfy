/** Concrete pattern strings and a concrete file for the first version of the program. */
module EarlyMainVectors {
  import opened Text
  import opened EarlyMain

  lemma NumberIsLine()
    ensures TryParsePattern("2") == Ok(Line(2))
    ensures TryParsePattern("+7") == Ok(Line(7))
  {
    assert Decimal(2) == "2" && Decimal(7) == "7";
    ParseDecimal(2);
    ParseDecimal(7);
  }

  /** Leading zeros are accepted by the number parse, so `007` is line 7. */
  lemma LeadingZerosIsLine()
    ensures TryParsePattern("007") == Ok(Line(7))
  {
    assert AllDigits("007");
    assert "0"[..0] == [] && DigitsValue("0") == 0;
    assert "00"[..1] == "0" && DigitsValue("00") == 0;
    assert "007"[..2] == "00" && DigitsValue("007") == 7;
    assert ParseUsize("007") == Some(7);
  }

  /** `/foo/` has letters, so it is a substring pattern, slashes included. */
  lemma SlashedWordIsSubstring()
    ensures TryParsePattern("/foo/") == Ok(SubstringPattern("/foo/"))
  {
    ParseAlphabetic("/foo/", 1);
  }

  lemma TwoCommaFour()
    ensures TryParsePattern("2,4") == Ok(LineRange(2, 4))
  {
    assert Decimal(2) + "," + Decimal(4) == "2,4";
    ParseDecimalRange(2, 4);
  }

  /** `5,+2` is read as the range from 5 to 2, not as a start and a count. */
  lemma FiveCommaPlusTwo()
    ensures TryParsePattern("5,+2") == Ok(LineRange(5, 2))
  {
    ParseDecimal(5);
    ParseDecimal(2);
    NumeralIsPlain(5);
    NumeralIsPlain(2);
    assert Decimal(5) == "5" && "+" + Decimal(2) == "+2";
    assert Join(["5", "+2"]) == "5,+2";
    ParseRange(["5", "+2"]);
  }

  /**
   * `5,+2` is documented as a start and a count, but parses as the range from
   * 5 to 2, which selects no line; read as a start and a count it would
   * select lines 5 to 7.
   */
  lemma RelativeRangeSelectsNothing()
    ensures TryParsePattern("5,+2") == Ok(LineRange(5, 2))
    ensures forall n: nat, line: string :: !Matches(Predicate(LineRange(5, 2)), n, line)
    ensures forall n: nat, line: string ::
      IntendedMatches(Predicate(LineRelativeRange(5, 2)), n, line) <==> 5 <= n <= 7
  {
    FiveCommaPlusTwo();
    forall n: nat, line: string
      ensures IntendedMatches(Predicate(LineRelativeRange(5, 2)), n, line) <==> 5 <= n <= 7
    {
      IntendedRanges(Predicate(LineRelativeRange(5, 2)), n, line);
    }
  }

  lemma JoinThree(x: string, y: string, z: string)
    ensures Join([x, y, z]) == x + "," + y + "," + z
  {
    assert Join([z]) == z;
    assert [y, z][1..] == [z];
    assert Join([y, z]) == (y + ",") + z;
    assert [x, y, z][1..] == [y, z];
    assert Join([x, y, z]) == (x + ",") + Join([y, z]);
    assert (x + ",") + ((y + ",") + z) == (((x + ",") + y) + ",") + z;
  }

  /** Three decimal fields: the third is ignored. */
  lemma ParseDecimalTriple(a: nat, b: nat, c: nat)
    requires a < USIZE_LIMIT && b < USIZE_LIMIT && c < USIZE_LIMIT
    ensures TryParsePattern(Decimal(a) + "," + Decimal(b) + "," + Decimal(c)) == Ok(LineRange(a, b))
  {
    var fields := [Decimal(a), Decimal(b), Decimal(c)];
    forall i | 0 <= i < 3
      ensures ParseUsize(fields[i]).Some? && ',' !in fields[i] && !HasAlphabetic(fields[i])
    {
      var n := if i == 0 then a else if i == 1 then b else c;
      assert fields[i] == Decimal(n);
      ParseDecimal(n);
      NumeralIsPlain(n);
    }
    ParseDecimal(a);
    ParseDecimal(b);
    ParseRange(fields);
    JoinThree(Decimal(a), Decimal(b), Decimal(c));
  }

  /** Fields after the second are ignored. */
  lemma ThirdFieldIgnored()
    ensures TryParsePattern("1,2,3") == Ok(LineRange(1, 2))
  {
    ParseDecimalTriple(1, 2, 3);
    SmallDecimals();
    assert "1" + "," + "2" + "," + "3" == "1,2,3";
  }

  lemma SmallDecimals()
    ensures Decimal(1) == "1" && Decimal(2) == "2" && Decimal(3) == "3"
  {
  }

  /** The empty string and a dangling comma abort. */
  lemma Malformed()
    ensures TryParsePattern("").Panic?
    ensures TryParsePattern("1,").Panic?
  {
    ParseSingleField("");
    assert Join(["1", ""]) == "1,";
    SplitJoin(["1", ""]);
    assert !HasAlphabetic("1,") by {
      assert forall i :: 0 <= i < 2 ==> "1,"[i] == '1' || "1,"[i] == ',';
    }
    assert ParseUsize("1,").None? by {
      assert "1,"[1] == ',';
    }
    ParseBadField("1,", 1);
  }

  /** `2` on a three-line file comments the second line only. */
  lemma CommentSecondLine()
    ensures RunProgram("2", ["one", "two", "three"]) == Ok(["one", "# two", "three"])
  {
    NumberIsLine();
    var pred := Predicate(Line(2));
    var lines := ["one", "two", "three"];
    OutputLines(pred, lines);
    assert COMMENT + "two" == "# two";
    assert Output(pred, lines) == ["one", "# two", "three"];
  }
}
