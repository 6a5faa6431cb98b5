/**
 * The concrete cases fixed for the comment transforms, with the prefix `# `.
 * Literals longer than about forty characters are written as a
 * concatenation, which keeps the verifier from unfolding them character by
 * character.
 */
module TransformVectors {
  import opened Text
  import opened Transforms

  const PREFIX := "# "

  lemma PrefixIsPlain()
    ensures PlainPrefix(PREFIX)
  {
  }

  /** An unindented line that starts with the prefix is commented; head is empty, tail is the rest. */
  lemma CommentedAtColumnZero(tail: string)
    requires '\n' !in tail
    ensures IsCommented(PREFIX, PREFIX + tail)
    ensures UncommentLine(PREFIX, PREFIX + tail) == tail
  {
    UncommentPrefixed(PREFIX, tail);
  }

  /** comment_line, uncomment_line and toggle_line on the commented line `# simple case one`. */
  lemma CommentedLineCases()
    ensures CommentLine(PREFIX, "# simple case one") == "# simple case one"
    ensures UncommentLine(PREFIX, "# simple case one") == "simple case one"
    ensures ToggleLine(PREFIX, "# simple case one") == "simple case one"
  {
    assert "# simple case one" == PREFIX + "simple case one";
    CommentedAtColumnZero("simple case one");
  }

  /** comment_line, uncomment_line and toggle_line on a line without `#`. */
  lemma PlainLine(line: string)
    requires '#' !in line
    ensures CommentLine(PREFIX, line) == PREFIX + line
    ensures UncommentLine(PREFIX, line) == line
    ensures ToggleLine(PREFIX, line) == PREFIX + line
  {
    NotCommentedWithoutHash(line);
  }

  lemma PlainLineText()
    ensures PREFIX + "simple_case = 2" == "# simple_case = 2" && '#' !in "simple_case = 2"
  {
  }

  /** comment_line, uncomment_line and toggle_line on the plain line `simple_case = 2`. */
  lemma PlainLineCases()
    ensures CommentLine(PREFIX, "simple_case = 2") == "# simple_case = 2"
    ensures UncommentLine(PREFIX, "simple_case = 2") == "simple_case = 2"
    ensures ToggleLine(PREFIX, "simple_case = 2") == "# simple_case = 2"
  {
    PlainLineText();
    PlainLine("simple_case = 2");
  }

  /** A line without `#` is never commented. */
  lemma NotCommentedWithoutHash(line: string)
    requires '#' !in line
    ensures !IsCommented(PREFIX, line)
  {
    forall k: nat ensures !OccursAt(line, PREFIX, k) {
      if k < |line| {
        assert line[k] in line;
      }
    }
  }

  lemma UncommentDoubled()
    ensures UncommentLine(PREFIX, "# # x") == "# x"
  {
    assert "# # x" == PREFIX + "# x";
    CommentedAtColumnZero("# x");
  }

  lemma UncommentSingle()
    ensures UncommentLine(PREFIX, "# x") == "x"
  {
    assert "# x" == PREFIX + "x";
    CommentedAtColumnZero("x");
  }

  /** uncomment_line is not idempotent: each application removes one prefix of a doubly commented line. */
  lemma UncommentLineNotIdempotent()
    ensures UncommentLine(PREFIX, "# # x") == "# x"
    ensures UncommentLine(PREFIX, UncommentLine(PREFIX, "# # x")) == "x"
  {
    UncommentDoubled();
    UncommentSingle();
  }

  /** toggle_line on an indented commented line drops the prefix and keeps the indentation. */
  lemma ToggleIndented(head: string, tail: string)
    requires IsBlank(head) && '\n' !in tail
    ensures ToggleLine(PREFIX, head + PREFIX + tail) == head + tail
  {
    PrefixIsPlain();
    UncommentKeepsHeadAndTail(PREFIX, head, tail);
  }

  lemma IndentedText()
    ensures "  " + PREFIX + "x" == "  # x" && "  " + "x" == "  x"
  {
  }

  /** toggle_line on `  # x` drops the prefix and keeps the indentation. */
  lemma ToggleIndentedCommented()
    ensures ToggleLine(PREFIX, "  # x") == "  x"
  {
    ToggleIndented("  ", "x");
    IndentedText();
  }

  /** toggle_line on `  x` puts the prefix before the indentation. */
  lemma ToggleIndentedPlain()
    ensures ToggleLine(PREFIX, "  x") == "#   x"
  {
    NotCommentedWithoutHash("  x");
    assert PREFIX + "  x" == "#   x";
  }

  /** toggle_line is not an involution on an indented commented line: the indentation moves inside the prefix. */
  lemma ToggleLineMovesIndentation()
    ensures ToggleLine(PREFIX, "  # x") == "  x"
    ensures ToggleLine(PREFIX, ToggleLine(PREFIX, "  # x")) == "#   x"
  {
    ToggleIndentedCommented();
    ToggleIndentedPlain();
  }

  /** toggle_block on a one-line block is toggle_line on that line, unless the line is blank. */
  lemma ToggleSingleBlock(line: string)
    requires !IsBlank(line)
    ensures ToggleBlock(PREFIX, [line]) == [ToggleLine(PREFIX, line)]
  {
    var block := [line];
    assert block[0] == line;
    if IsCommented(PREFIX, line) {
      assert !WillComment(PREFIX, block);
    } else {
      assert !IsBlank(block[0]) && !IsCommented(PREFIX, block[0]);
    }
  }

  /** Two toggle_block passes move the indentation of `  # x` behind the prefix. */
  lemma ToggleBlockMovesIndentation()
    ensures ToggleBlock(PREFIX, ["  # x"]) == ["  x"]
    ensures ToggleBlock(PREFIX, ToggleBlock(PREFIX, ["  # x"])) == ["#   x"]
  {
    assert "  # x"[2] == '#' && "  x"[2] == 'x';
    ToggleSingleBlock("  # x");
    ToggleIndentedCommented();
    ToggleSingleBlock("  x");
    ToggleIndentedPlain();
  }

  /** Two toggle_block passes strip both prefixes of `# # x`. */
  lemma ToggleBlockStripsTwice()
    ensures ToggleBlock(PREFIX, ["# # x"]) == ["# x"]
    ensures ToggleBlock(PREFIX, ToggleBlock(PREFIX, ["# # x"])) == ["x"]
  {
    var doubled, single := PREFIX + "# x", PREFIX + "x";
    CommentedAtColumnZero("# x");
    assert doubled[0] == '#';
    ToggleSingleBlock(doubled);
    CommentedAtColumnZero("x");
    assert single[0] == '#';
    ToggleSingleBlock(single);
    assert doubled == "# # x" && single == "# x";
  }

  /** A line that starts with a non-space character and holds no `#` or newline. */
  predicate Plain(line: string) {
    line != [] && !IsSpace(line[0]) && '#' !in line && '\n' !in line
  }

  /** A line whose first character is not a space. */
  predicate Unindented(line: string) {
    line != [] && !IsSpace(line[0])
  }

  lemma PlainIsUncommented(line: string)
    requires Plain(line)
    ensures !IsBlank(line) && !IsCommented(PREFIX, line)
  {
    NotCommentedWithoutHash(line);
  }

  /** toggle_block on four unindented lines, one of the first two plain: all four gain the prefix. */
  lemma ForceFour(a: string, b: string, c: string, d: string)
    requires Unindented(a) && Unindented(b) && Unindented(c) && Unindented(d)
    requires Plain(a) || Plain(b)
    ensures ToggleBlock(PREFIX, [a, b, c, d]) == [PREFIX + a, PREFIX + b, PREFIX + c, PREFIX + d]
  {
    var block := [a, b, c, d];
    if Plain(a) {
      PlainIsUncommented(a);
      assert !IsBlank(block[0]) && !IsCommented(PREFIX, block[0]);
    } else {
      PlainIsUncommented(b);
      assert !IsBlank(block[1]) && !IsCommented(PREFIX, block[1]);
    }
    assert !IsBlank(c) && !IsBlank(d) by {
      assert !IsSpace(c[0]) && !IsSpace(d[0]);
    }
    ForceBlockGives(PREFIX, block, [PREFIX + a, PREFIX + b, PREFIX + c, PREFIX + d]);
  }

  /**
   * toggle_block on a blank line followed by three non-blank lines (the
   * first of them indented by `n` columns and without `#`, the other two
   * indented by `m`): the blank line stays, the others gain the prefix.
   */
  lemma ForceAfterBlank(a: string, b: string, c: string, d: string, n: nat, m: nat)
    requires IsBlank(a)
    requires n < |b| && !IsSpace(b[n]) && '#' !in b && '\n' !in b
    requires m < |c| && !IsSpace(c[m]) && m < |d| && !IsSpace(d[m])
    ensures ToggleBlock(PREFIX, [a, b, c, d]) == [a, PREFIX + b, PREFIX + c, PREFIX + d]
  {
    var block := [a, b, c, d];
    assert !IsBlank(b) && !IsBlank(c) && !IsBlank(d);
    NotCommentedWithoutHash(b);
    assert !IsBlank(block[1]) && !IsCommented(PREFIX, block[1]);
    ForceBlockGives(PREFIX, block, [a, PREFIX + b, PREFIX + c, PREFIX + d]);
  }

  /** Block `a = 1`, `b = 2`, `#c = 3`, `d = 4`: every line gains the prefix, `#c = 3` included. */
  lemma ToggleInitialUncomment()
    ensures ToggleBlock(PREFIX, ["a = 1", "b = 2", "#c = 3", "d = 4"])
         == ["# a = 1", "# b = 2", "# #c = 3", "# d = 4"]
  {
    ForcedInitialUncomment();
    InitialUncommentText();
  }

  lemma ForcedInitialUncomment()
    ensures ToggleBlock(PREFIX, ["a = 1", "b = 2", "#c = 3", "d = 4"])
         == [PREFIX + "a = 1", PREFIX + "b = 2", PREFIX + "#c = 3", PREFIX + "d = 4"]
  {
    ForceFour("a = 1", "b = 2", "#c = 3", "d = 4");
  }

  lemma InitialUncommentText()
    ensures PREFIX + "a = 1" == "# a = 1" && PREFIX + "b = 2" == "# b = 2"
    ensures PREFIX + "#c = 3" == "# #c = 3" && PREFIX + "d = 4" == "# d = 4"
  {
  }

  lemma ForcedInitialComment()
    ensures ToggleBlock(PREFIX, ["# a = 1", "b = 2", "# c = 3", "d = 4"])
         == [PREFIX + "# a = 1", PREFIX + "b = 2", PREFIX + "# c = 3", PREFIX + "d = 4"]
  {
    ForceFour("# a = 1", "b = 2", "# c = 3", "d = 4");
  }

  lemma InitialCommentText()
    ensures PREFIX + "# a = 1" == "# # a = 1" && PREFIX + "b = 2" == "# b = 2"
    ensures PREFIX + "# c = 3" == "# # c = 3" && PREFIX + "d = 4" == "# d = 4"
  {
  }

  /**
   * Block `# a = 1`, `b = 2`, `# c = 3`, `d = 4`: the first line is commented,
   * but another is not, so the whole block is force-commented.
   */
  lemma ToggleInitialComment()
    ensures ToggleBlock(PREFIX, ["# a = 1", "b = 2", "# c = 3", "d = 4"])
         == ["# # a = 1", "# b = 2", "# # c = 3", "# d = 4"]
  {
    ForcedInitialComment();
    InitialCommentText();
  }

  lemma ForcedInitialBlank()
    ensures ToggleBlock(PREFIX, ["    ", "    def foo(self, bar):", "        " + "# NOTE: choose better names", "        return bar"])
         == ["    ", PREFIX + "    def foo(self, bar):", PREFIX + ("        " + "# NOTE: choose better names"), PREFIX + "        return bar"]
  {
    ForceAfterBlank("    ", "    def foo(self, bar):", "        " + "# NOTE: choose better names", "        return bar", 4, 8);
  }

  lemma InitialBlankText()
    ensures PREFIX + "    def foo(self, bar):" == "#     def foo(self, bar):"
    ensures PREFIX + "        return bar" == "#         return bar"
  {
  }

  /** The prefix in front of an eight-space indentation. */
  lemma PrefixBeforeIndent(s: string)
    ensures PREFIX + ("        " + s) == "#         " + s
  {
    assert PREFIX + "        " == "#         ";
  }

  /** A leading whitespace-only line stays as it is; the prefix goes before the indentation of the rest. */
  lemma ToggleCommentInitialBlank()
    ensures ToggleBlock(PREFIX, ["    ", "    def foo(self, bar):", "        " + "# NOTE: choose better names", "        return bar"])
         == ["    ", "#     def foo(self, bar):", "#         " + "# NOTE: choose better names", "#         return bar"]
  {
    ForcedInitialBlank();
    InitialBlankText();
    PrefixBeforeIndent("# NOTE: choose better names");
  }

  /** will_comment on two lines, one of which is plain. */
  lemma SomeUncommentedOfTwo(a: string, b: string)
    requires Plain(a) || Plain(b)
    ensures WillComment(PREFIX, [a, b])
  {
    var block := [a, b];
    if Plain(a) {
      PlainIsUncommented(a);
      assert !IsBlank(block[0]) && !IsCommented(PREFIX, block[0]);
    } else {
      PlainIsUncommented(b);
      assert !IsBlank(block[1]) && !IsCommented(PREFIX, block[1]);
    }
  }

  /** will_comment on two lines, each commented at column 0 or empty. */
  lemma NoneUncommentedOfTwo(a: string, b: string)
    requires (PREFIX <= a && '\n' !in a) || a == ""
    requires (PREFIX <= b && '\n' !in b) || b == ""
    ensures !WillComment(PREFIX, [a, b])
  {
    var block := [a, b];
    if a != "" {
      assert a == PREFIX + a[|PREFIX|..];
      assert forall c :: c in a[|PREFIX|..] ==> c in a;
      CommentedAtColumnZero(a[|PREFIX|..]);
    }
    if b != "" {
      assert b == PREFIX + b[|PREFIX|..];
      assert forall c :: c in b[|PREFIX|..] ==> c in b;
      CommentedAtColumnZero(b[|PREFIX|..]);
    }
    assert block[0] == a && block[1] == b;
  }

  /** will_comment on a block whose first line is commented and whose second is not. */
  lemma NotAllLinesCommentedShouldComment()
    ensures WillComment(PREFIX, ["# not all lines commented should comment", "abc = 123"])
  {
    SomeUncommentedOfTwo("# not all lines commented should comment", "abc = 123");
  }

  /** will_comment on a fully commented block. */
  lemma AllLinesCommentedShouldUncomment()
    ensures !WillComment(PREFIX, ["# all lines commented should uncomment", "# abc = 123"])
  {
    NoneUncommentedOfTwo("# all lines commented should uncomment", "# abc = 123");
  }

  /** A blank line does not stop an uncommented line from deciding to comment. */
  lemma BlankBesideUncommented()
    ensures WillComment(PREFIX, ["all lines uncommented " + "or blank should comment", ""])
  {
    SomeUncommentedOfTwo("all lines uncommented " + "or blank should comment", "");
  }

  /** A blank line does not make a commented block decide to comment. */
  lemma BlankBesideCommented()
    ensures !WillComment(PREFIX, ["# all lines commented " + "or blank should uncomment", ""])
  {
    NoneUncommentedOfTwo("# all lines commented " + "or blank should uncomment", "");
  }

  /** Two empty lines: nothing to comment, and the block comes back unchanged. */
  lemma AllBlankLinesAreUnchanged()
    ensures !WillComment(PREFIX, ["", ""])
    ensures ToggleBlock(PREFIX, ["", ""]) == ["", ""]
  {
    AllBlankUnchanged(PREFIX, ["", ""]);
  }

  /** toggle_block on an unindented line followed by a plain one: both gain the prefix, and a second pass undoes it. */
  lemma ForceTwo(a: string, b: string)
    requires Unindented(a) && '\n' !in a && Plain(b)
    ensures ToggleBlock(PREFIX, [a, b]) == [PREFIX + a, PREFIX + b]
    ensures ToggleBlock(PREFIX, ToggleBlock(PREFIX, [a, b])) == [a, b]
  {
    var block := [a, b];
    SomeUncommentedOfTwo(a, b);
    assert !IsBlank(a) by { assert !IsSpace(a[0]); }
    ForceBlockGives(PREFIX, block, [PREFIX + a, PREFIX + b]);
    ToggleBlockRoundTripFromComment(PREFIX, block);
  }

  lemma RoundTripText()
    ensures PREFIX + "# not all lines commented" == "# # not all lines commented"
    ensures PREFIX + "abc = 123" == "# abc = 123"
  {
  }

  lemma ForcedRoundTrip()
    ensures ToggleBlock(PREFIX, ["# not all lines commented", "abc = 123"])
         == [PREFIX + "# not all lines commented", PREFIX + "abc = 123"]
    ensures ToggleBlock(PREFIX, ToggleBlock(PREFIX, ["# not all lines commented", "abc = 123"]))
         == ["# not all lines commented", "abc = 123"]
  {
    ForceTwo("# not all lines commented", "abc = 123");
  }

  /** The round trip: force-comment, then uncomment, gives the original block back. */
  lemma RoundTrip()
    ensures ToggleBlock(PREFIX, ["# not all lines commented", "abc = 123"])
         == ["# # not all lines commented", "# abc = 123"]
    ensures ToggleBlock(PREFIX, ToggleBlock(PREFIX, ["# not all lines commented", "abc = 123"]))
         == ["# not all lines commented", "abc = 123"]
  {
    ForcedRoundTrip();
    RoundTripText();
  }
}
