# toggle-comment, modelled in Dafny

toggle-comment sets or toggles the line-comment status of lines in a text
file. Its lines are chosen by ed/sed-style addresses: a line number, a
pattern, or a range between two such components, optionally negated with `!`.
This project models two parts of it.

1. **The address engine and the comment transforms** exercised by
   `src/test.rs`.
   - An `AddressPattern` pairs an `Address` (`ZeroAddress`, `OneAddress`,
     `AddressRange`) with a `negated` flag. Its components are `Line`,
     `Relative` and `RegexPattern`.
   - `match_range2` judges one line in the `MatchState` the previous line
     left (`left_match`, the line that opened the current range; `right_match`,
     the line that last closed one). It returns the verdict and the new state.
     `matches` is its verdict part.
   - `get_matches` runs the engine over a whole file and cuts it into maximal
     runs of equally selected lines.
   - The transforms work with the detector `^(?P<head>\s*)# (?P<tail>.*?)$`.
     `comment_line`, `uncomment_line` and `toggle_line` act on one line.
     `will_comment` decides for a block, and `toggle_block` either
     force-comments every non-blank line of the block or uncomments every line.
2. **The earlier program in `src/main.rs`.** `try_parse_pattern` reads the
   address argument. `Predicate::matches` judges a line. The output loop prints
   each line, with `# ` in front when it matches. Its types differ from the
   later engine's, so it lives in a module of its own.

The engine's own code, the module that `src/test.rs` tests (its `super`), is
not available. Its operations are defined here from those cases, so that every
case in `src/test.rs` holds,
following the names and the behaviour those cases fix. For the transforms
the model follows the detector's `head` and `tail` groups (`src/test.rs:9`)
and puts the prefix at column 0, as the block case at `src/test.rs:79-84`
does.

Modules, one per file:

- `Text` (`text.dfy`): whitespace, letters and digits (ASCII), and substring
  containment with its positional characterisation.
- `Transforms` (`transforms.dfy`): the detector and the five transforms.
  `TransformVectors` (`transform_vectors.dfy`) holds the fixed cases of
  `src/test.rs:9-185`.
- `Addresses` (`addresses.dfy`): the engine of one line.
  `AddressVectors` (`address_vectors.dfy`) holds the cases of
  `src/test.rs:196-353`.
- `Selection` (`selection.dfy`): the engine threaded over a file, a reference
  selection for every kind of range proved equal to it, and `get_matches`.
  `SelectionVectors` (`selection_vectors.dfy`) holds the cases of
  `src/test.rs:89-116` and two scenarios of `tests/sed_conformance.rs`.
- `EarlyMain` (`early_main.dfy`): `src/main.rs`. `EarlyMainVectors`
  (`early_main_vectors.dfy`) holds argument strings and a small file.

Rust names map to Dafny names in PascalCase for members and camelCase for
fields: `match_range2` is `MatchRange2`, `left_match` is `leftMatch`, and so
on. A pattern is modelled as a literal string, and a line matches it when it
contains that string.

Engine behaviour as the model defines it. The cases of `src/test.rs` and the
scenarios of `tests/sed_conformance.rs` fix most of it; the choices they
leave open are listed under "## Left out".

- A range is open when `left_match` is set and `right_match` is unset or
  earlier than it.
- `/start/,N` and `/start/,+N`: inside an open range a line is selected
  up to and including the end line, and the range closes there. Otherwise a
  line holding the start opens a range. That range closes at once when its
  end is not after it, so `/public/,1` selects only the pattern line. A start
  line inside an open range does not restart the count, as with `/The/,+4`.
- `/start/,/end/`: a start line (re)opens the range. Otherwise a line in an
  open range is selected, and the end pattern closes the range on that line.
- `N,/end/`: a line is selected from line N onwards until a line after N
  holds the end; that line is included.
- A range whose first component is a relative offset selects nothing, and so
  does a lone relative address (choices of the model).

## Model

| member | source | states |
|---|---|---|
| `Text.Contains` | src/main.rs:64 | `line.contains(s)`: holds exactly when `s` occurs at some index of the line |
| `Text.NotContainsWithoutFirst` | src/test.rs:261 | a line in which the first character of the pattern never appears does not contain the pattern |
| `Text.LeadingSpaces` | src/test.rs:9 | the count of leading whitespace characters: they are whitespace, and the next character is not |
| `Transforms.LongestHead` | src/test.rs:9 | the greedy `\s*` backtracks: the longest head length not above the bound after which the prefix and a newline-free tail follow, or none |
| `Transforms.MatchPrefix` | src/test.rs:9 | the detector matches iff some head length fits; then the line is head + prefix + tail, the head is whitespace, the tail has no newline, and the head is the longest that fits |
| `Transforms.IsCommented` | src/test.rs:9 | `prefix_pattern.is_match`: the detector matches exactly when some head length fits |
| `Transforms.HeadIsLeading` | src/test.rs:9 | with a prefix that does not start with whitespace, the only head length that can fit is the whole leading whitespace |
| `Transforms.CommentedAfterLeading` | src/test.rs:9 | with such a prefix, a line is commented exactly when the prefix follows its whole leading whitespace |
| `Transforms.PrefixedLineFits` | src/test.rs:9 | the prefix at column 0 before a newline-free rest fits the detector with an empty head |
| `Transforms.CommentLine` | src/test.rs:15-21 | comment_line: an uncommented line becomes the prefix followed by the line, at column 0; the result is always commented and ends with the whole original line, which is returned unchanged exactly when it was already commented |
| `Transforms.UncommentLine` | src/test.rs:16-20 | uncomment_line: a line that is not commented is kept; a commented one loses exactly the prefix, and with a prefix that does not start with whitespace the occurrence removed is the one right after the line's leading whitespace |
| `Transforms.ToggleLine` | src/test.rs:17-21 | toggle_line: a commented line loses the prefix once, and with a plain prefix becomes its leading whitespace followed by what comes after the prefix; any other line becomes the prefix followed by the line and is then commented |
| `Transforms.CommentLineIdempotent` | src/test.rs:15 | comment_line applied twice is comment_line applied once |
| `Transforms.UncommentPrefixed` | src/test.rs:16 | uncomment_line removes a prefix that sits at column 0 and gives back the rest |
| `Transforms.UncommentAfterComment` | src/test.rs:19-20 | uncomment_line undoes comment_line on an uncommented line |
| `Transforms.ToggleLineTwiceOnUncommented` | src/test.rs:17-21 | toggle_line comments an uncommented line and a second toggle_line restores it |
| `Transforms.UncommentKeepsHeadAndTail` | src/test.rs:9 | on `head + prefix + tail` uncomment_line gives `head + tail`: the indentation stays, only the prefix goes |
| `Transforms.LeadingOfIndented` | src/test.rs:9 | whitespace before a non-whitespace character is exactly the leading whitespace |
| `Transforms.WillComment` | src/test.rs:122-152 | will_comment holds iff some non-blank line of the block is not commented; blank lines do not count |
| `Transforms.BlockLine` | src/test.rs:23-87 | one line of toggle_block: blank lines pass through; a non-blank line stays as it is only in the uncomment pass and only when it is not commented |
| `Transforms.ToggleBlock` | src/test.rs:23-87 | one output line per input line; blank lines unchanged; when will_comment holds every other line gets the prefix at column 0, otherwise every other line is uncommented |
| `Transforms.ForcedLine` | src/test.rs:79-84 | a force-commented line is non-blank, commented, and uncomments back to the original |
| `Transforms.UncommentBlockGives` | src/test.rs:168-185 | toggle_block in uncomment mode equals the block described line by line |
| `Transforms.ForceBlockGives` | src/test.rs:23-87 | toggle_block in force mode equals the block described line by line |
| `Transforms.ForcedBlock` | src/test.rs:168-185 | after a force pass, blank lines are in place and every other line is commented and uncomments to the input line |
| `Transforms.ToggleBlockRoundTripFromComment` | src/test.rs:168-185 | a block that toggle_block force-comments is not force-commented again and the second toggle_block returns it unchanged |
| `Transforms.PrefixedTail` | src/test.rs:184 | a line made of the prefix and a tail is commented and non-blank, and uncommenting it leaves the tail |
| `Transforms.CommentedTail` | src/test.rs:184 | a prefix-then-plain line is commented, and uncommenting it leaves a non-blank uncommented line that the prefix turns back into the original |
| `Transforms.UncommentedBlock` | src/test.rs:184 | on a uniformly commented block (every non-blank line is the prefix at column 0 followed by a rest that is neither blank nor itself commented) will_comment is false and the uncomment pass leaves non-blank uncommented lines that the prefix restores |
| `Transforms.ToggleBlockRoundTripFromUncomment` | src/test.rs:184 | a block whose non-blank lines are each the prefix at column 0 followed by a rest that is neither blank nor itself commented is restored by two toggle_block passes |
| `Transforms.AllBlankUnchanged` | src/test.rs:155-166 | a block of whitespace-only lines does not decide to comment and is returned unchanged |
| `TransformVectors.PrefixIsPlain` | src/test.rs:8 | the prefix `# ` does not start with whitespace |
| `TransformVectors.CommentedAtColumnZero` | src/test.rs:16 | any newline-free line starting with `# ` is commented and uncomments to its rest |
| `TransformVectors.CommentedLineCases` | src/test.rs:15-17 | the three transforms on `# simple case one` |
| `TransformVectors.PlainLine` | src/test.rs:19-21 | on a line without `#`, comment_line and toggle_line prepend `# ` and uncomment_line changes nothing |
| `TransformVectors.PlainLineCases` | src/test.rs:19-21 | the three transforms on `simple_case = 2` |
| `TransformVectors.NotCommentedWithoutHash` | src/test.rs:20 | a line without `#` is not commented |
| `TransformVectors.UncommentLineNotIdempotent` | src/test.rs:16 | uncomment_line removes one prefix per call: `# # x`, then `# x`, then `x` |
| `TransformVectors.ToggleIndented` | src/test.rs:17 | toggle_line on an indented commented line keeps the indentation and drops the prefix |
| `TransformVectors.ToggleIndentedCommented` | src/test.rs:17 | toggle_line turns `  # x` into `  x` |
| `TransformVectors.ToggleIndentedPlain` | src/test.rs:79-84 | toggle_line turns `  x` into `#   x`: the prefix goes before the indentation, as the indented lines of the block case show |
| `TransformVectors.ToggleLineMovesIndentation` | src/test.rs:17-21 | two toggle_line calls turn `  # x` into `#   x`, so toggle_line is not an involution |
| `TransformVectors.ToggleSingleBlock` | src/test.rs:23-87 | toggle_block on a block of one non-blank line is toggle_line on that line |
| `TransformVectors.ToggleBlockMovesIndentation` | src/test.rs:79-84 | two toggle_block passes turn `  # x` into `  x` and then `#   x`: an indented commented block is not restored |
| `TransformVectors.ToggleBlockStripsTwice` | src/test.rs:168-185 | two toggle_block passes turn `# # x` into `# x` and then `x`: a doubly commented block is not restored |
| `TransformVectors.PlainIsUncommented` | src/test.rs:126 | a plain line is non-blank and not commented |
| `TransformVectors.ForceFour` | src/test.rs:23-65 | four unindented lines, one of the first two plain, all gain the prefix |
| `TransformVectors.ForceAfterBlank` | src/test.rs:67-87 | a blank line then three non-blank lines, the first without `#`: the blank line stays and the rest gain the prefix |
| `TransformVectors.ToggleInitialUncomment` | src/test.rs:23-43 | the block `a = 1`, `b = 2`, `#c = 3`, `d = 4` is force-commented, `#c = 3` included |
| `TransformVectors.ToggleInitialComment` | src/test.rs:45-65 | the block starting with `# a = 1` is force-commented because a later line is uncommented |
| `TransformVectors.PrefixBeforeIndent` | src/test.rs:82 | the prefix in front of eight spaces of indentation |
| `TransformVectors.ToggleCommentInitialBlank` | src/test.rs:67-87 | the leading whitespace-only line stays and the prefix goes before the indentation of the others |
| `TransformVectors.SomeUncommentedOfTwo` | src/test.rs:122-146 | two lines, one of them plain: will_comment holds |
| `TransformVectors.NoneUncommentedOfTwo` | src/test.rs:131-151 | two lines each commented at column 0 or empty: will_comment is false |
| `TransformVectors.NotAllLinesCommentedShouldComment` | src/test.rs:122-129 | the vector: will_comment holds |
| `TransformVectors.AllLinesCommentedShouldUncomment` | src/test.rs:131-138 | the vector: will_comment is false |
| `TransformVectors.BlankBesideUncommented` | src/test.rs:142-146 | an uncommented line beside an empty one: will_comment holds |
| `TransformVectors.BlankBesideCommented` | src/test.rs:147-151 | a commented line beside an empty one: will_comment is false |
| `TransformVectors.AllBlankLinesAreUnchanged` | src/test.rs:155-166 | two empty lines: will_comment is false and toggle_block returns them |
| `TransformVectors.ForceTwo` | src/test.rs:168-185 | an unindented line and a plain line both gain the prefix, and a second pass restores them |
| `TransformVectors.ForcedRoundTrip` | src/test.rs:168-185 | the round-trip block, prefix written as a constant |
| `TransformVectors.RoundTrip` | src/test.rs:168-185 | the round trip: `# # not all lines commented`, `# abc = 123`, and back |
| `Addresses.PatternToNumber` | src/test.rs:251-288 | `/start/,N` and `/start/,+N`: an unselected line leaves the state alone; a selected line outside a range opens one on itself; after a selected line the range is still open exactly while that line is before the range's end |
| `Addresses.RawMatch` | src/test.rs:196-353 | the new state changes `left_match` and `right_match` only by setting them to the current line |
| `Addresses.MatchRange2` | src/test.rs:325-353 | match_range2: the new state records at most the current line as opening or closing line |
| `Addresses.Matches` | src/test.rs:251-301 | `matches`: a range from line `s` selects nothing before `s` and, with a pattern end, nothing once closed; a range from a pattern selects only lines holding the start and lines of an open range |
| `Addresses.NegationComplements` | src/test.rs:203-249 | setting `negated` flips the verdict of every line and leaves the new state as it was |
| `Addresses.StatelessSelection` | src/test.rs:196-249 | zero addresses, line addresses and line-started numeric ranges select exactly their line set, bounds included (negated: exactly the others), whatever the text and state, and keep the state |
| `Addresses.SinglePatternSelection` | tests/sed_conformance.rs:49 | a single pattern address selects exactly the lines that contain the pattern and keeps the state |
| `AddressVectors.MissesBoth` | src/test.rs:258-261 | a text without `f` and `b` holds neither `foo` nor `bar` |
| `AddressVectors.TextsMiss` | src/test.rs:258-261 | `un-match` and `match` hold neither `foo` nor `bar` |
| `AddressVectors.WordMisses` | src/test.rs:345 | `foo` and `bar` do not contain each other |
| `AddressVectors.ZeroAddressAlwaysMatches` | src/test.rs:196-201 | the zero address matches lines 1 to 5 |
| `AddressVectors.ZeroAddressInvertNeverMatches` | src/test.rs:203-207 | the negated zero address matches none of lines 1 to 5 |
| `AddressVectors.OneAddressMatchesOneLine` | src/test.rs:209-214 | address `3` matches line 3 and not lines 1, 2, 4, 5 |
| `AddressVectors.OneAddressInvertedMatchesButOneLine` | src/test.rs:216-221 | `3!` matches lines 1, 2, 4, 5 and not line 3 |
| `AddressVectors.MatchesRangeLines` | src/test.rs:223-228 | `3,5` matches 3, 4, 5 and not 2 or 9 |
| `AddressVectors.MatchesRangeLinesInvert` | src/test.rs:230-235 | `3,5!` matches 2 and 9 and not 3, 4, 5 |
| `AddressVectors.MatchesRangeRelativeLines` | src/test.rs:237-242 | `3,+5` matches 3 and 8 and not 2 or 9 |
| `AddressVectors.MatchesRangeRelativeLinesInvert` | src/test.rs:244-249 | `3,+5!` matches 2 and 9 and not 3 or 8 |
| `AddressVectors.MatchesRegexRelativeRange` | src/test.rs:251-262 | `/foo/,+3`: line 1 opens, lines 2 to 4 are in range, line 5 is out |
| `AddressVectors.MatchesRegexAbsoluteRange` | src/test.rs:264-275 | `/foo/,4`: line 1 opens, lines 2 to 4 are in range, line 5 is out |
| `AddressVectors.MatchesRegexEmptyAbsoluteRange` | src/test.rs:277-288 | `/foo/,2` with `foo` on line 3: only line 3 is selected, and the range opens and closes on it; lines 4 and 5 are unselected under the case's hand-written state and under the recorded one |
| `AddressVectors.MatchesAbsoluteRegexEndRange` | src/test.rs:290-301 | `2,/foo/`: lines 2 to 4 are selected, line 4 closes the range, line 5 is not selected |
| `AddressVectors.MatchesDoubleRegexRange` | src/test.rs:303-316 | `/foo/,/bar/` in the states written out by hand |
| `AddressVectors.MatchesDoubleRegexRangeUpdate` | src/test.rs:319-335 | `/foo/,/bar/` with the state threaded through five lines: lines 2 to 4 are selected |
| `AddressVectors.FooBarHasBoth` | src/test.rs:349 | `foo bar` contains both patterns |
| `AddressVectors.MatchesDoubleRegexRangeWithMultipleMatchesOnSameLine` | src/test.rs:337-353 | a line holding both patterns reopens the range, so the line after it is selected too |
| `Selection.Scan` | src/test.rs:325-335 | one flag per line, and the final state only records numbers of lines of the file |
| `Selection.Selections` | src/test.rs:89-116 | the flags behind get_matches: one per line, line `i + 1` selected exactly when match_range2 selects it in the state the earlier lines left |
| `Selection.ScanStep` | src/test.rs:325-335 | one more line appends that line's verdict in the state the earlier lines left |
| `Selection.ScanPrefix` | src/test.rs:325-335 | the flags of a prefix of the file are a prefix of the flags: no verdict depends on later lines |
| `Selection.ScanIsStep` | src/test.rs:325-335 | the flag of line `i + 1` in the scan is match_range2's verdict in the state after line `i` |
| `Selection.NegatedSelections` | src/test.rs:203-249 | over a whole file, negation complements every flag and leaves the final state unchanged |
| `Selection.StatelessSelections` | src/test.rs:196-249 | over a whole file a stateless address selects exactly its line set, bounds included |
| `Selection.DoubleRegexStep` | src/test.rs:303-353 | one line of `/start/,/end/` keeps "range open" in step with the reference |
| `Selection.DoubleRegexState` | src/test.rs:303-353 | after n lines, `/start/,/end/` is open iff some earlier line holds the start and no line since holds the end |
| `Selection.InDoubleRegexRangeCases` | src/test.rs:303-353 | a line is in the reference `/start/,/end/` range exactly when it holds the start or the range is open before it |
| `Selection.DoubleRegexSelections` | src/test.rs:303-353 | `/start/,/end/` selects a line iff it or an earlier line holds the start with no end pattern strictly between (negated: iff not) |
| `Selection.LineToRegexState` | src/test.rs:290-301 | after n lines `s,/end/` has not closed iff no line after line `s` among them holds the end |
| `Selection.LineToRegexSelections` | src/test.rs:290-301 | `s,/end/` selects from line `s` through the first later line holding the end, inclusive, and nothing after |
| `Selection.RegexToLineStep` | src/test.rs:264-288 | one line of `/start/,e` keeps the range open exactly while a start was seen and line `e` not yet reached |
| `Selection.RegexToLineState` | src/test.rs:264-288 | after n lines `/start/,e` is open iff n < e and a start line was seen |
| `Selection.RegexToLineSelections` | src/test.rs:264-288 | `/start/,e` selects start lines and, once a start was seen, every line up to `e` |
| `Selection.OpeningsApart` | tests/sed_conformance.rs:55 | two opening lines of `/start/,+c` are more than `c` lines apart: ranges do not overlap |
| `Selection.RegexRelativeStep` | src/test.rs:251-262 | one line of `/start/,+c` preserves the invariant tying the state to the opening lines |
| `Selection.RegexRelativeState` | src/test.rs:251-262 | after n lines the state of `/start/,+c` satisfies that invariant |
| `Selection.RegexRelativeSelections` | tests/sed_conformance.rs:55 | `/start/,+c` selects each line holding the start and the `c` lines after each opening line; a start line inside a range does not restart it |
| `Selection.RunsCons` | src/test.rs:98-100 | Concat and Expand of a run in front of others |
| `Selection.MergeFront` | src/test.rs:113-115 | adding a line to the front of an equally flagged first run adds it to the lines and its flag to the flags |
| `Selection.PushFront` | src/test.rs:98-100 | a run of one line in front adds that line and its flag |
| `Selection.MaximalMerge` | src/test.rs:113-115 | merging a line into the first run keeps the runs maximal |
| `Selection.MaximalPush` | src/test.rs:98-100 | a one-line run with a different flag in front keeps the runs maximal |
| `Selection.Runs` | src/test.rs:98-116 | the runs hold the lines in order with their flags, and are maximal: non-empty, neighbours differ in flag |
| `Selection.FirstRun` | src/test.rs:98-116 | what a maximal cut's first run says about the first line and the rest |
| `Selection.FirstRunLines` | src/test.rs:98-116 | the first line and the remaining lines of a non-empty first block followed by the rest |
| `Selection.FirstRunFlags` | src/test.rs:98-116 | the first flag and the remaining flags of a run followed by the rest |
| `Selection.RunsUnique` | src/test.rs:98-116 | any maximal cut of the lines carrying the given flags is the one Runs computes |
| `Selection.UniqueSingle` | src/test.rs:98-101 | the uniqueness step when the first run holds one line |
| `Selection.UniqueLonger` | src/test.rs:113-115 | the uniqueness step when the first run holds several lines |
| `Selection.GetMatches` | src/test.rs:89-116 | get_matches: the runs concatenate to the file, their flags are the engine's selections line by line, and they are maximal |
| `SelectionVectors.LineTwoSelections` | src/test.rs:89-96 | address `2` on three lines selects only the middle one |
| `SelectionVectors.LineAddressOnlyMatchesOne` | src/test.rs:89-101 | three runs, the middle one `(true, ["two"])` |
| `SelectionVectors.RangeTwoFourSelections` | src/test.rs:103-111 | `2,4` on four lines selects all but the first |
| `SelectionVectors.LineRangeAddressMatchesBlock` | src/test.rs:103-116 | two runs, the second `(true, ["two", "three", "four"])` |
| `SelectionVectors.RelativeRangeDoesNotReset` | tests/sed_conformance.rs:55 | `/a/,+1` on `a`, `a`, `x`: the second `a` is inside the range, so `x` is not selected |
| `SelectionVectors.EndBeforeStartSelectsOnlyStart` | tests/sed_conformance.rs:54 | `/p/,1` with `p` on line 2 selects only line 2 |
| `EarlyMain.Decimal` | src/main.rs:44 | the decimal numeral of a number is a non-empty digit string |
| `EarlyMain.ParseUsize` | src/main.rs:44 | the number `str::parse::<usize>` accepts fits in 64 bits |
| `EarlyMain.DecimalValue` | src/main.rs:44 | a numeral denotes its number |
| `EarlyMain.ParseDecimal` | src/main.rs:44-45 | parsing a numeral, with or without a leading `+`, gives back the number |
| `EarlyMain.ParseUsizeRange` | src/main.rs:44 | a parsed string starts with `+` or a digit, and its value prints back to a string that parses alike |
| `EarlyMain.AlphabeticIsNotNumber` | src/main.rs:44-47 | a string holding a letter never parses as a number |
| `EarlyMain.Split` | src/main.rs:49 | split on `,` gives at least one field, none holding a comma |
| `EarlyMain.JoinSplit` | src/main.rs:49 | the fields joined with commas give back the string |
| `EarlyMain.SplitJoin` | src/main.rs:49 | splitting comma-free fields joined with commas gives the fields back |
| `EarlyMain.ParseFields` | src/main.rs:49-51 | the fields all parse iff a result comes back, and then each number is its field's value |
| `EarlyMain.TryParsePattern` | src/main.rs:43-53 | never `Err`; every string `parse::<usize>` accepts (`007`, `+12`) becomes that line, and only those; any other string holding a letter becomes a substring pattern verbatim; only those and `LineRange` are produced |
| `EarlyMain.ParseAlphabetic` | src/main.rs:46-47 | a string holding a letter becomes a substring pattern, verbatim |
| `EarlyMain.ParseLine` | src/main.rs:44-45 | a numeral in range becomes a line address |
| `EarlyMain.ParseRange` | src/main.rs:49-52 | two or more numeric fields become the range of the first two; the rest are ignored |
| `EarlyMain.NumeralIsPlain` | src/main.rs:46 | a numeral, with or without `+`, holds neither a comma nor a letter |
| `EarlyMain.ParseDecimalRange` | src/main.rs:49-52 | `a,b` in decimal becomes `LineRange(a, b)` |
| `EarlyMain.ParseBadField` | src/main.rs:50 | a field that does not parse aborts the program |
| `EarlyMain.ParseSingleField` | src/main.rs:50 | a string with no letter and no comma that is not a number aborts with `Unable to parse number` |
| `EarlyMain.SecondFieldAlwaysPresent` | src/main.rs:52 | the `lines[1]` index never goes out of bounds |
| `EarlyMain.SplitWithoutComma` | src/main.rs:49 | a string without a comma is its own only field |
| `EarlyMain.NoLetterInJoin` | src/main.rs:46 | fields without letters join to a string without letters |
| `EarlyMain.CommaInJoin` | src/main.rs:44 | a string holding a comma is not a number |
| `EarlyMain.IntendedRanges` | src/main.rs:30-32 | the intended matcher selects both ends of `M,N` and the N lines after M for `M,+N` |
| `EarlyMain.MatchesAgainstIntended` | src/main.rs:60-67 | line and substring patterns agree with the later engine; a range differs from it only on its end line |
| `EarlyMain.MatchesIndependence` | src/main.rs:62-64 | number patterns ignore the text of a line and substring patterns ignore its number |
| `EarlyMain.Matches` | src/main.rs:60-67 | `Predicate::matches`: only line, range and substring patterns ever match, and a range whose end is not after its start matches no line |
| `EarlyMain.HalfOpenRange` | src/main.rs:63 | as written, `2,4` does not select line 4 and `3,3` selects nothing |
| `EarlyMain.Render` | src/main.rs:87-91 | one printed line: it ends with the whole input line, and the comment detector sees it as commented exactly when the line matched or was already commented; its exact value is stated by `EarlyMain.OutputLines` |
| `EarlyMain.Output` | src/main.rs:85-92 | one printed line per input line |
| `EarlyMain.OutputLines` | src/main.rs:85-92 | printed line `i` is `# ` + line when line number `i + 1` matches, else the line itself |
| `EarlyMain.OutputReversible` | src/main.rs:88 | uncommenting a printed line gives back an input line that was not commented |
| `EarlyMain.CommentMatchedLines` | src/main.rs:85-92 | the loop of main produces exactly Output |
| `EarlyMain.RunProgram` | src/main.rs:81-92 | the program yields output iff the pattern parses, otherwise aborts; the output is one line per input line, matched ones behind `# ` |
| `EarlyMainVectors.NumberIsLine` | src/main.rs:44-45 | `2` and `+7` are line addresses |
| `EarlyMainVectors.LeadingZerosIsLine` | src/main.rs:44-45 | `007` is line 7: leading zeros are accepted by the number parse |
| `EarlyMainVectors.SlashedWordIsSubstring` | src/main.rs:46-47 | `/foo/` is a substring pattern with its slashes |
| `EarlyMainVectors.TwoCommaFour` | src/main.rs:49-52 | `2,4` is `LineRange(2, 4)` |
| `EarlyMainVectors.FiveCommaPlusTwo` | src/main.rs:49-52 | `5,+2` is the range from 5 to 2, not a start and a count |
| `EarlyMainVectors.RelativeRangeSelectsNothing` | src/main.rs:32-52 | `5,+2`, documented as a start and a count, parses to `LineRange(5, 2)` and matches no line, while the start-and-count reading selects lines 5 to 7 |
| `EarlyMainVectors.ParseDecimalTriple` | src/main.rs:49-52 | three numeric fields: the third is ignored |
| `EarlyMainVectors.ThirdFieldIgnored` | src/main.rs:49-52 | `1,2,3` is `LineRange(1, 2)` |
| `EarlyMainVectors.Malformed` | src/main.rs:50 | the empty string and `1,` abort |
| `EarlyMainVectors.CommentSecondLine` | src/main.rs:85-92 | `2` on `one`, `two`, `three` comments the second line only |

## Left out

- Reading the arguments and the file, printing, language detection and
  in-place editing are not modelled. The file is a sequence of lines, and
  the output is the sequence of printed lines.
- Splitting the contents into lines with `str::lines` is not modelled. The
  model starts from the lines, and none of them holds a newline.
- Regular expressions are not modelled: a pattern matches a line when the line
  contains it as a literal string. This is enough for every pattern the cases
  use.
- Whitespace (`\s`), `char::is_alphabetic` and digits are ASCII only. Unicode
  whitespace and letters outside ASCII are not modelled.
- The prefix is spliced into the detector as plain text. A prefix holding
  regular-expression metacharacters would behave differently in the program.
- The engine's own code, the module that `src/test.rs` tests, is not
  available. `Addresses`, `Transforms` and `Selection` are defined from its
  cases and keep the behaviour they fix.
  A start line inside an open `/start/,+N` does not restart the count,
  following the `/The/,+4` scenario of `tests/sed_conformance.rs:55`. The
  other open choices are the six listed below.
- `will_comment` is "some non-blank line is uncommented". The cases at
  `src/test.rs:45-65` and `src/test.rs:122-129` rule out deciding by the first
  non-blank line alone.
- `uncomment_line` is not idempotent: each call removes one prefix
  (`TransformVectors.UncommentLineNotIdempotent`).
- `Transforms.ToggleBlockRoundTripFromUncomment` covers only blocks whose
  non-blank lines carry the prefix at column 0 before a rest that is neither
  blank nor commented. Two toggle_block passes do not restore an indented
  commented block (`TransformVectors.ToggleBlockMovesIndentation`) or a doubly
  commented one (`TransformVectors.ToggleBlockStripsTwice`).
- Six behaviours are choices of the model that no case in `src/test.rs` or
  `tests/sed_conformance.rs` fixes:
  - `/start/,/end/` on a line holding both patterns while the range is open
    keeps the range open, as the start wins. The case at
    `src/test.rs:337-353` reaches such a line only with the range closed. sed
    would close the range there.
  - `M,N` with `N` before `M` selects nothing. sed selects line `M`.
  - A range whose first component is `+N` selects nothing
    (`Addresses.RelativeFirstSelectsNothing`). sed rejects such an address.
  - A lone `+N` address (`OneAddress(Relative(N))`) selects no line, whatever
    the line and the state (`Addresses.StatelessSelection`). A relative
    address on its own is an error in sed.
  - `/re/,N` opened on a line past `N` records the range as closed on that
    line: the state becomes `left_match = right_match = ` that line. The case
    at `src/test.rs:277-288` hands the later lines `right_match: None`
    instead. Both states give those lines the same verdicts
    (`AddressVectors.MatchesRegexEmptyAbsoluteRange`).
  - comment_line and toggle_line put the prefix at column 0 of an indented
    uncommented line too. This follows the block case at `src/test.rs:79-84`,
    as the line cases use unindented lines only.
- `usize` is the 64-bit type: numbers from 2^64 up do not parse. Line numbers
  are unbounded naturals, and `idx + 1` cannot wrap.
- A panic (`expect`, an index out of bounds) is an `Outcome.Panic` value with
  its message. Nothing models unwinding.
- The comparison with `sed` in `tests/sed_conformance.rs` runs external
  processes and is not modelled. Two of its scenarios are stated as lemmas.
- The `0,/re/` address (a GNU extension) is not modelled separately.
  `Line(0)` as a first component behaves like any other line number.

## Findings

| source | as written | input that shows it | evidently intended | confidence | as-written member | corrected member |
|---|---|---|---|---|---|---|
| src/main.rs:63 | `LineRange(start, end)` matches `start <= n < end`, a half-open range | pattern `2,4` on line 4 is not commented, and `3,3` comments no line | `M,N` includes its end line, as the comment at src/main.rs:31 says and as the later engine does (src/test.rs:223-228) | not executed | `EarlyMain.HalfOpenRange` | `EarlyMain.IntendedRanges` |
| src/main.rs:43-52 | `M,+N` is parsed by the same path as `M,N`: `+N` is read as the number N, giving `LineRange(M, N)`, and `LineRelativeRange` is never produced | pattern `5,+2` gives `LineRange(5, 2)`, which comments no line | `M,+N` selects line M and the N lines after it, as the comment at src/main.rs:32 says | not executed | `EarlyMainVectors.RelativeRangeSelectsNothing` | `EarlyMain.IntendedRanges` |
