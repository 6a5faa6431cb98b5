/**
 * The first version of the program: one address given on the command line
 * is parsed into a pattern, and every line it matches is printed with `# `
 * in front.
 */
module EarlyMain {
  import opened Text
  import Addresses
  import Transforms

  /** `usize` on a 64-bit target holds the numbers below this bound. */
  const USIZE_LIMIT: nat := 0x1_0000_0000_0000_0000

  /** The prefix the output loop puts in front of a matched line. */
  const COMMENT := "# "

  datatype AddressPattern =
    | Line(n: nat)
    | LineRange(start: nat, end: nat)
    | LineRelativeRange(start: nat, count: nat)
    | SubstringPattern(s: string)
    | RegexPattern(re: string)
    | Compound

  /**
   * The outcome of an operation that returns a `Result` and may also abort:
   * `Ok` and `Err` are the two results, `Panic` an abort with its message.
   */
  datatype Outcome<T> = Ok(value: T) | Err(error: string) | Panic(message: string)

  // ---------------------------------------------------------------------
  // Numbers

  predicate AllDigits(s: string) {
    forall i :: 0 <= i < |s| ==> IsDigit(s[i])
  }

  /** The number a string of decimal digits denotes. */
  function DigitsValue(s: string): nat
    requires AllDigits(s)
  {
    if s == [] then 0 else 10 * DigitsValue(s[..|s| - 1]) + (s[|s| - 1] as int - '0' as int)
  }

  /** The decimal digits of `n`, without leading zeros. */
  function Decimal(n: nat): (r: string)
    ensures r != [] && AllDigits(r)
  {
    var d := ['0' + (n % 10) as char];
    if n < 10 then d else Decimal(n / 10) + d
  }

  /**
   * `str::parse::<usize>`: an optional `+`, then one or more ASCII digits
   * whose value fits in `usize`.
   */
  function ParseUsize(s: string): (r: Option<nat>)
    ensures r.Some? ==> r.value < USIZE_LIMIT
  {
    var digits := if s != [] && s[0] == '+' then s[1..] else s;
    if digits != [] && AllDigits(digits) && DigitsValue(digits) < USIZE_LIMIT then Some(DigitsValue(digits)) else None
  }

  lemma {:induction false} DecimalValue(n: nat)
    ensures DigitsValue(Decimal(n)) == n
  {
    var d := ['0' + (n % 10) as char];
    if n >= 10 {
      DecimalValue(n / 10);
      var s := Decimal(n / 10) + d;
      assert s[..|s| - 1] == Decimal(n / 10);
    }
  }

  /** Parsing undoes printing in decimal, with or without a leading `+`. */
  lemma ParseDecimal(n: nat)
    requires n < USIZE_LIMIT
    ensures ParseUsize(Decimal(n)) == Some(n)
    ensures ParseUsize("+" + Decimal(n)) == Some(n)
  {
    DecimalValue(n);
    assert ("+" + Decimal(n))[1..] == Decimal(n);
  }

  /** The numbers ParseUsize accepts are exactly those below USIZE_LIMIT. */
  lemma ParseUsizeRange(s: string)
    ensures ParseUsize(s).Some? ==> ParseUsize(Decimal(ParseUsize(s).value)) == ParseUsize(s)
    ensures ParseUsize(s).Some? ==> s != [] && (s[0] == '+' || IsDigit(s[0]))
  {
    if ParseUsize(s).Some? {
      ParseDecimal(ParseUsize(s).value);
    }
  }

  /** A string with a letter in it never parses as a number. */
  lemma AlphabeticIsNotNumber(s: string, i: nat)
    requires i < |s| && IsAlphabetic(s[i])
    ensures ParseUsize(s).None?
  {
    DigitsAreNotAlphabetic(s[i]);
    if s[0] == '+' {
      assert i != 0 && s[1..][i - 1] == s[i];
    }
  }

  // ---------------------------------------------------------------------
  // Splitting on commas

  /** `str::split(",")`: the fields between commas, at least one. */
  function Split(s: string): (r: seq<string>)
    ensures r != []
    ensures forall i :: 0 <= i < |r| ==> ',' !in r[i]
  {
    if s == [] then [""]
    else
      var rest := Split(s[1..]);
      if s[0] == ',' then [""] + rest
      else [[s[0]] + rest[0]] + rest[1..]
  }

  /** The fields written out with a comma between each two. */
  function Join(fields: seq<string>): string
    requires fields != []
  {
    if |fields| == 1 then fields[0] else fields[0] + "," + Join(fields[1..])
  }

  /** Splitting loses nothing: joining the fields again gives the input. */
  lemma {:induction false} JoinSplit(s: string)
    ensures Join(Split(s)) == s
  {
    if s != [] {
      JoinSplit(s[1..]);
      var rest := Split(s[1..]);
      if s[0] != ',' {
        var r := [[s[0]] + rest[0]] + rest[1..];
        assert r[1..] == rest[1..];
        if |rest| == 1 {
          assert Join(r) == [s[0]] + rest[0];
        } else {
          assert Join(r) == [s[0]] + rest[0] + "," + Join(rest[1..]);
        }
      } else {
        assert ([""] + rest)[1..] == rest;
      }
    }
  }

  /** Split recovers the fields from their join when no field holds a comma. */
  lemma {:induction false} SplitJoin(fields: seq<string>)
    requires fields != []
    requires forall i :: 0 <= i < |fields| ==> ',' !in fields[i]
    ensures Split(Join(fields)) == fields
    decreases |fields|, |fields[0]|
  {
    var f := fields[0];
    if f == [] {
      if |fields| > 1 {
        SplitJoin(fields[1..]);
        assert Join(fields) == [','] + Join(fields[1..]);
        assert Join(fields)[1..] == Join(fields[1..]);
      }
    } else {
      var shorter := [f[1..]] + fields[1..];
      assert ',' !in f[1..] by {
        assert forall c :: c in f[1..] ==> c in f;
      }
      assert f[0] in f;
      SplitJoin(shorter);
      assert shorter[1..] == fields[1..];
      assert Join(fields) == [f[0]] + Join(shorter);
      assert Join(fields)[1..] == Join(shorter);
      assert [f[0]] + f[1..] == f;
    }
  }

  // ---------------------------------------------------------------------
  // try_parse_pattern

  predicate HasAlphabetic(s: string) {
    exists i :: 0 <= i < |s| && IsAlphabetic(s[i])
  }

  /** Parses every field, as the `map(parse).collect()` chain does; None on the first field that fails. */
  function ParseFields(fields: seq<string>): (r: Option<seq<nat>>)
    ensures r.Some? <==> forall i :: 0 <= i < |fields| ==> ParseUsize(fields[i]).Some?
    ensures r.Some? ==>
      |r.value| == |fields| && forall i :: 0 <= i < |fields| ==> r.value[i] == ParseUsize(fields[i]).value
  {
    if fields == [] then Some([])
    else
      match ParseUsize(fields[0])
      case None => None
      case Some(n) =>
        match ParseFields(fields[1..])
        case None => None
        case Some(ns) => Some([n] + ns)
  }

  /**
   * `try_parse_pattern`: a number is a line, a string with a letter in it is
   * a substring, and anything else is read as `start,end`. A field that is
   * not a number or a missing second field aborts the program.
   */
  function TryParsePattern(s: string): (r: Outcome<AddressPattern>)
    ensures !r.Err?
    ensures r.Ok? && r.value.Line? ==> ParseUsize(s) == Some(r.value.n)
    ensures ParseUsize(s).Some? ==> r == Ok(Line(ParseUsize(s).value))
    ensures ParseUsize(s).None? && HasAlphabetic(s) ==> r == Ok(SubstringPattern(s))
    ensures r.Ok? && r.value.SubstringPattern? ==> r.value.s == s && HasAlphabetic(s)
    ensures r.Ok? ==> r.value.Line? || r.value.SubstringPattern? || r.value.LineRange?
  {
    match ParseUsize(s)
    case Some(n) => Ok(Line(n))
    case None =>
      if HasAlphabetic(s) then Ok(SubstringPattern(s))
      else
        match ParseFields(Split(s))
        case None => Panic("Unable to parse number")
        case Some(ns) =>
          if |ns| < 2 then Panic("index out of bounds") else Ok(LineRange(ns[0], ns[1]))
  }

  /** Any string with a letter is taken verbatim as a substring pattern, slashes and commas included. */
  lemma ParseAlphabetic(s: string, i: nat)
    requires i < |s| && IsAlphabetic(s[i])
    ensures TryParsePattern(s) == Ok(SubstringPattern(s))
  {
    AlphabeticIsNotNumber(s, i);
  }

  /** A number in range is a line address. */
  lemma ParseLine(n: nat)
    requires n < USIZE_LIMIT
    ensures TryParsePattern(Decimal(n)) == Ok(Line(n))
  {
    ParseDecimal(n);
  }

  /** Fields that are all numbers, two or more of them, are a line range of the first two; the rest are ignored. */
  lemma ParseRange(fields: seq<string>)
    requires |fields| >= 2
    requires forall i :: 0 <= i < |fields| ==> ParseUsize(fields[i]).Some?
    requires forall i :: 0 <= i < |fields| ==> ',' !in fields[i] && !HasAlphabetic(fields[i])
    ensures TryParsePattern(Join(fields))
         == Ok(LineRange(ParseUsize(fields[0]).value, ParseUsize(fields[1]).value))
  {
    SplitJoin(fields);
    NoLetterInJoin(fields);
    CommaInJoin(fields);
  }

  /** A decimal numeral, with or without `+`, holds neither a comma nor a letter. */
  lemma NumeralIsPlain(n: nat)
    ensures ',' !in Decimal(n) && !HasAlphabetic(Decimal(n))
    ensures ',' !in "+" + Decimal(n) && !HasAlphabetic("+" + Decimal(n))
  {
    var d := Decimal(n);
    forall i | 0 <= i < |d| ensures !IsAlphabetic(d[i]) && d[i] != ',' {
      DigitsAreNotAlphabetic(d[i]);
    }
    forall i | 0 <= i < |"+" + d| ensures !IsAlphabetic(("+" + d)[i]) && ("+" + d)[i] != ',' {
      if i > 0 {
        assert ("+" + d)[i] == d[i - 1];
        DigitsAreNotAlphabetic(d[i - 1]);
      }
    }
  }

  /** `a,b` written in decimal is the range from a to b. */
  lemma ParseDecimalRange(a: nat, b: nat)
    requires a < USIZE_LIMIT && b < USIZE_LIMIT
    ensures TryParsePattern(Decimal(a) + "," + Decimal(b)) == Ok(LineRange(a, b))
  {
    ParseDecimal(a);
    ParseDecimal(b);
    NumeralIsPlain(a);
    NumeralIsPlain(b);
    assert Join([Decimal(a), Decimal(b)]) == Decimal(a) + "," + Decimal(b);
    ParseRange([Decimal(a), Decimal(b)]);
  }

  /** A field that is not a number aborts, whatever the other fields hold. */
  lemma ParseBadField(s: string, k: nat)
    requires !HasAlphabetic(s) && ParseUsize(s).None?
    requires k < |Split(s)| && ParseUsize(Split(s)[k]).None?
    ensures TryParsePattern(s).Panic?
  {
  }

  /** A string that is neither a number nor holds a letter nor a comma aborts: its only field is not a number. */
  lemma ParseSingleField(s: string)
    requires !HasAlphabetic(s) && ParseUsize(s).None? && ',' !in s
    ensures TryParsePattern(s) == Panic("Unable to parse number")
  {
    SplitWithoutComma(s);
  }

  /**
   * The `lines[1]` index never fails: a string without a comma is its own
   * only field, and that field already failed to parse as a number.
   */
  lemma SecondFieldAlwaysPresent(s: string)
    ensures TryParsePattern(s) != Panic("index out of bounds")
  {
    JoinSplit(s);
    assert |Split(s)| == 1 ==> Split(s)[0] == s;
  }

  /** Without a comma, the string is its own only field. */
  lemma {:induction false} SplitWithoutComma(s: string)
    requires ',' !in s
    ensures Split(s) == [s]
  {
    if s != [] {
      assert s[0] in s;
      assert forall c :: c in s[1..] ==> c in s;
      SplitWithoutComma(s[1..]);
      assert [s[0]] + s[1..] == s;
    }
  }

  lemma {:induction false} NoLetterInJoin(fields: seq<string>)
    requires fields != []
    requires forall i :: 0 <= i < |fields| ==> !HasAlphabetic(fields[i])
    ensures !HasAlphabetic(Join(fields))
  {
    if |fields| > 1 {
      NoLetterInJoin(fields[1..]);
      var j := Join(fields[1..]);
      forall i | 0 <= i < |Join(fields)|
        ensures !IsAlphabetic(Join(fields)[i])
      {
        if i < |fields[0]| {
          assert Join(fields)[i] == fields[0][i];
        } else if i > |fields[0]| {
          assert Join(fields)[i] == j[i - |fields[0]| - 1];
        }
      }
    }
  }

  lemma CommaInJoin(fields: seq<string>)
    requires |fields| >= 2
    ensures ParseUsize(Join(fields)).None?
  {
    var s := Join(fields);
    assert s == fields[0] + "," + Join(fields[1..]);
    assert s[|fields[0]|] == ',';
    if s[0] == '+' {
      assert |fields[0]| == 0 || s[1..][|fields[0]| - 1] == ',';
    }
  }

  // ---------------------------------------------------------------------
  // Predicate::matches

  datatype Predicate = Predicate(pattern: AddressPattern)

  /**
   * `Predicate::matches` as written: a line number, a half-open range
   * `start..end`, or the pattern occurring in the line. Only those three
   * kinds ever match, and a range whose end is not after its start matches
   * no line at all.
   */
  predicate Matches(pred: Predicate, lineNumber: nat, line: string): (r: bool)
    ensures r ==> pred.pattern.Line? || pred.pattern.LineRange? || pred.pattern.SubstringPattern?
    ensures pred.pattern.LineRange? && pred.pattern.end <= pred.pattern.start ==> !r
  {
    match pred.pattern
    case Line(n) => n == lineNumber
    case LineRange(start, end) => start <= lineNumber < end
    case SubstringPattern(s) => Contains(line, s)
    case _ => false
  }

  /** The address of the later engine that each pattern stands for, where there is one. */
  function EngineAddress(pattern: AddressPattern): Option<Addresses.Address> {
    match pattern
    case Line(n) => Some(Addresses.OneAddress(Addresses.Line(n)))
    case LineRange(s, e) => Some(Addresses.AddressRange(Addresses.Line(s), Addresses.Line(e)))
    case LineRelativeRange(s, c) => Some(Addresses.AddressRange(Addresses.Line(s), Addresses.Relative(c)))
    case SubstringPattern(s) => Some(Addresses.OneAddress(Addresses.RegexPattern(s)))
    case RegexPattern(re) => Some(Addresses.OneAddress(Addresses.RegexPattern(re)))
    case Compound => None
  }

  /**
   * The matcher as its comments describe it: `M,N` inclusive of its end,
   * `M,+N` a start and a count. It selects what the later engine selects
   * for the same address.
   */
  predicate IntendedMatches(pred: Predicate, lineNumber: nat, line: string) {
    match EngineAddress(pred.pattern)
    case None => false
    case Some(a) => Addresses.Matches(Addresses.AddressPattern(a, false), lineNumber, line, Addresses.EMPTY_STATE)
  }

  /** IntendedMatches selects both ends of a range, and `M,+N` the N lines after M. */
  lemma IntendedRanges(pred: Predicate, lineNumber: nat, line: string)
    ensures pred.pattern.LineRange? ==>
      (IntendedMatches(pred, lineNumber, line) <==> pred.pattern.start <= lineNumber <= pred.pattern.end)
    ensures pred.pattern.LineRelativeRange? ==>
      (IntendedMatches(pred, lineNumber, line) <==> pred.pattern.start <= lineNumber <= pred.pattern.start + pred.pattern.count)
  {
  }

  /** Outside line ranges, the matcher agrees with the later engine; on a range it differs only on the end line. */
  lemma MatchesAgainstIntended(pred: Predicate, lineNumber: nat, line: string)
    ensures (pred.pattern.Line? || pred.pattern.SubstringPattern?) ==>
      (Matches(pred, lineNumber, line) <==> IntendedMatches(pred, lineNumber, line))
    ensures pred.pattern.LineRange? ==>
      (Matches(pred, lineNumber, line) <==> IntendedMatches(pred, lineNumber, line) && lineNumber != pred.pattern.end)
  {
  }

  /** Number patterns ignore the text of the line and substring patterns ignore its number. */
  lemma MatchesIndependence(pred: Predicate, n: nat, m: nat, a: string, b: string)
    ensures (pred.pattern.Line? || pred.pattern.LineRange?) ==> (Matches(pred, n, a) <==> Matches(pred, n, b))
    ensures pred.pattern.SubstringPattern? ==> (Matches(pred, n, a) <==> Matches(pred, m, a))
  {
  }

  /** As written, `2,4` leaves out line 4, and `3,3` selects nothing, although the range is meant to include its end. */
  lemma HalfOpenRange()
    ensures !Matches(Predicate(LineRange(2, 4)), 4, "four") && IntendedMatches(Predicate(LineRange(2, 4)), 4, "four")
    ensures forall n :: !Matches(Predicate(LineRange(3, 3)), n, "three")
    ensures IntendedMatches(Predicate(LineRange(3, 3)), 3, "three")
  {
  }

  // ---------------------------------------------------------------------
  // The output loop of main

  /**
   * What main prints for line number `lineNumber`: the whole line, behind
   * `# ` when it matches. The comment detector then sees the printed line as
   * commented exactly when the line matched or was already commented.
   */
  function Render(pred: Predicate, lineNumber: nat, line: string): (r: string)
    ensures |line| <= |r| && r[|r| - |line|..] == line
    ensures '\n' !in line ==>
      (Transforms.IsCommented(COMMENT, r) <==> Matches(pred, lineNumber, line) || Transforms.IsCommented(COMMENT, line))
  {
    if Matches(pred, lineNumber, line) then
      Transforms.PrefixedLineFits(COMMENT, line);
      assert (COMMENT + line)[|COMMENT|..] == line;
      COMMENT + line
    else line
  }

  /** The printed lines for the given input lines, numbered from 1. */
  function Output(pred: Predicate, lines: seq<string>): (r: seq<string>)
    ensures |r| == |lines|
  {
    if lines == [] then [] else Output(pred, lines[..|lines| - 1]) + [Render(pred, |lines|, lines[|lines| - 1])]
  }

  /** One printed line per input line: the matched ones behind `# `, the others unchanged. */
  lemma {:induction false} OutputLines(pred: Predicate, lines: seq<string>)
    ensures forall i :: 0 <= i < |lines| ==>
      Output(pred, lines)[i] == if Matches(pred, i + 1, lines[i]) then COMMENT + lines[i] else lines[i]
  {
    if lines != [] {
      var init := lines[..|lines| - 1];
      OutputLines(pred, init);
      assert forall i :: 0 <= i < |init| ==> lines[i] == init[i];
    }
  }

  /** Uncommenting a printed line gives back the input line, matched or not, as long as the input line was not commented. */
  lemma OutputReversible(pred: Predicate, lines: seq<string>, i: nat)
    requires i < |lines| && '\n' !in lines[i] && !Transforms.IsCommented(COMMENT, lines[i])
    ensures Transforms.UncommentLine(COMMENT, Output(pred, lines)[i]) == lines[i]
  {
    OutputLines(pred, lines);
    if Matches(pred, i + 1, lines[i]) {
      Transforms.UncommentPrefixed(COMMENT, lines[i]);
    } else {
      assert Transforms.MatchPrefix(COMMENT, lines[i]).None?;
    }
  }

  /** The loop of main, collecting what it prints instead of printing it. */
  method CommentMatchedLines(pred: Predicate, lines: seq<string>) returns (output: seq<string>)
    ensures output == Output(pred, lines)
  {
    output := [];
    var idx := 0;
    while idx < |lines|
      invariant 0 <= idx <= |lines|
      invariant output == Output(pred, lines[..idx])
    {
      var lineNumber := idx + 1;
      var line := lines[idx];
      assert lines[..idx + 1][..idx] == lines[..idx];
      if Matches(pred, lineNumber, line) {
        output := output + [COMMENT + line];
      } else {
        output := output + [line];
      }
      idx := idx + 1;
    }
    assert lines[..idx] == lines;
  }

  /** The whole program on a pattern argument and the lines of the file: abort when the pattern does not parse. */
  function RunProgram(patternArg: string, lines: seq<string>): (r: Outcome<seq<string>>)
    ensures r.Ok? <==> TryParsePattern(patternArg).Ok?
    ensures !r.Ok? ==> r.Panic?
    ensures r.Ok? ==> |r.value| == |lines| && forall i :: 0 <= i < |lines| ==>
      r.value[i] == if Matches(Predicate(TryParsePattern(patternArg).value), i + 1, lines[i]) then COMMENT + lines[i] else lines[i]
  {
    match TryParsePattern(patternArg)
    case Ok(p) =>
      OutputLines(Predicate(p), lines);
      Ok(Output(Predicate(p), lines))
    case Err(_) => Panic("Unable to parse pattern")
    case Panic(m) => Panic(m)
  }
}
