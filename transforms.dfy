/**
 * The comment transforms: detecting a comment prefix on a line, adding it,
 * removing it, flipping it line by line, and flipping a whole block at once.
 *
 * The detector is the regular expression `^(?P<head>\s*)PREFIX(?P<tail>.*?)$`
 * with the prefix spliced in literally: a run of leading whitespace (head),
 * the prefix, then the rest of the line (tail). `.` does not match a newline
 * and `$` anchors at the end of the text, so the tail is the whole remainder
 * and must hold no newline; `\s*` is greedy, so among the head lengths that
 * fit, the longest is chosen.
 */
module Transforms {
  import opened Text

  /** The detector fits with a head of length `k`. */
  predicate FitsAt(prefix: string, line: string, k: nat) {
    k <= LeadingSpaces(line) && OccursAt(line, prefix, k) && '\n' !in line[k + |prefix|..]
  }

  /** The two capture groups of a successful match. */
  datatype PrefixMatch = PrefixMatch(head: string, tail: string)

  /** Greedy backtracking over the head: the longest head of length at most `k` that fits. */
  function LongestHead(prefix: string, line: string, k: nat): (r: Option<nat>)
    requires k <= LeadingSpaces(line)
    ensures r.Some? ==> r.value <= k && FitsAt(prefix, line, r.value)
    ensures r.Some? ==> forall j: nat :: r.value < j <= k ==> !FitsAt(prefix, line, j)
    ensures r.None? ==> forall j: nat :: j <= k ==> !FitsAt(prefix, line, j)
    decreases k
  {
    if FitsAt(prefix, line, k) then Some(k)
    else if k == 0 then None
    else LongestHead(prefix, line, k - 1)
  }

  /** Runs the detector on one line. */
  function MatchPrefix(prefix: string, line: string): (r: Option<PrefixMatch>)
    ensures r.Some? <==> exists k: nat :: FitsAt(prefix, line, k)
    ensures r.Some? ==> line == r.value.head + prefix + r.value.tail
    ensures r.Some? ==> IsBlank(r.value.head) && '\n' !in r.value.tail
    ensures r.Some? ==> FitsAt(prefix, line, |r.value.head|)
    ensures r.Some? ==> forall k: nat :: FitsAt(prefix, line, k) ==> k <= |r.value.head|
  {
    match LongestHead(prefix, line, LeadingSpaces(line))
    case None => None
    case Some(k) =>
      var m := PrefixMatch(line[..k], line[k + |prefix|..]);
      assert line == m.head + prefix + m.tail by {
        assert line == line[..k] + line[k..k + |prefix|] + line[k + |prefix|..];
      }
      Some(m)
  }

  /**
   * A prefix like `# ` whose first character is not whitespace: the
   * detector's head is then exactly the line's leading whitespace.
   */
  predicate PlainPrefix(prefix: string) {
    prefix != [] && !IsSpace(prefix[0])
  }

  /** With a plain prefix the only head length that can fit is the whole leading whitespace. */
  lemma HeadIsLeading(prefix: string, line: string, k: nat)
    ensures PlainPrefix(prefix) && FitsAt(prefix, line, k) ==> k == LeadingSpaces(line)
  {
    if PlainPrefix(prefix) && FitsAt(prefix, line, k) {
      assert line[k] == line[k..k + |prefix|][0] == prefix[0];
    }
  }

  /** The line carries the prefix after some leading whitespace: the detector matches. */
  predicate IsCommented(prefix: string, line: string): (r: bool)
    ensures r <==> exists k: nat :: FitsAt(prefix, line, k)
  {
    MatchPrefix(prefix, line).Some?
  }

  /** With a plain prefix, a line is commented exactly when the prefix follows its whole leading whitespace. */
  lemma CommentedAfterLeading(prefix: string, line: string)
    requires PlainPrefix(prefix)
    ensures IsCommented(prefix, line) <==> FitsAt(prefix, line, LeadingSpaces(line))
  {
    if IsCommented(prefix, line) {
      HeadIsLeading(prefix, line, |MatchPrefix(prefix, line).value.head|);
    }
  }

  /** The prefix at column 0 before a newline-free rest fits the detector with an empty head. */
  lemma PrefixedLineFits(prefix: string, line: string)
    ensures '\n' !in line ==> FitsAt(prefix, prefix + line, 0)
  {
    assert (prefix + line)[|prefix|..] == line;
    assert (prefix + line)[0..|prefix|] == prefix;
  }

  /**
   * `comment_line`: add the prefix at column 0 unless the line already
   * carries it. The result is always commented and ends with the whole
   * original line, and it is the line itself exactly when that was commented.
   */
  function CommentLine(prefix: string, line: string): (r: string)
    ensures !IsCommented(prefix, line) ==> r == prefix + line
    ensures '\n' !in line ==> IsCommented(prefix, r)
    ensures |line| <= |r| && r[|r| - |line|..] == line
    ensures prefix != [] ==> (r == line <==> IsCommented(prefix, line))
  {
    if IsCommented(prefix, line) then line
    else
      PrefixedLineFits(prefix, line);
      assert (prefix + line)[|prefix|..] == line;
      prefix + line
  }

  /**
   * `uncomment_line`: replace a commented line by head followed by tail. The
   * line loses exactly the prefix; with a plain prefix, the occurrence cut
   * out is the one right after the leading whitespace. Other lines are kept.
   */
  function UncommentLine(prefix: string, line: string): (r: string)
    ensures !IsCommented(prefix, line) ==> r == line
    ensures IsCommented(prefix, line) ==> |r| + |prefix| == |line|
    ensures PlainPrefix(prefix) && IsCommented(prefix, line) ==>
      var w := LeadingSpaces(line);
      w + |prefix| <= |line| && r == line[..w] + line[w + |prefix|..]
  {
    match MatchPrefix(prefix, line)
    case None => line
    case Some(m) =>
      HeadIsLeading(prefix, line, |m.head|);
      assert m.head == line[..|m.head|] && m.tail == line[|m.head| + |prefix|..] by {
        assert line == m.head + prefix + m.tail;
      }
      m.head + m.tail
  }

  /**
   * `toggle_line`: uncomment a commented line, comment any other. A commented
   * line loses the prefix once, right after its leading whitespace when the
   * prefix is plain; any other line gains it at column 0 and is then commented.
   */
  function ToggleLine(prefix: string, line: string): (r: string)
    ensures IsCommented(prefix, line) ==> |r| + |prefix| == |line|
    ensures !IsCommented(prefix, line) ==> |r| == |line| + |prefix|
    ensures !IsCommented(prefix, line) && '\n' !in line ==> IsCommented(prefix, r)
    ensures !IsCommented(prefix, line) ==> r == prefix + line
    ensures PlainPrefix(prefix) && IsCommented(prefix, line) ==>
      var w := LeadingSpaces(line);
      w + |prefix| <= |line| && r == line[..w] + line[w + |prefix|..]
  {
    if IsCommented(prefix, line) then UncommentLine(prefix, line) else CommentLine(prefix, line)
  }

  /** comment_line is idempotent. */
  lemma CommentLineIdempotent(prefix: string, line: string)
    requires '\n' !in line
    ensures CommentLine(prefix, CommentLine(prefix, line)) == CommentLine(prefix, line)
  {
  }

  /** Removing a plain prefix that sits at column 0 gives back the rest of the line. */
  lemma UncommentPrefixed(prefix: string, line: string)
    requires PlainPrefix(prefix) && '\n' !in line
    ensures IsCommented(prefix, prefix + line)
    ensures UncommentLine(prefix, prefix + line) == line
  {
    PrefixedLineFits(prefix, line);
    assert LeadingSpaces(prefix + line) == 0 by {
      assert (prefix + line)[0] == prefix[0];
    }
    var m := MatchPrefix(prefix, prefix + line).value;
    assert |m.head| == 0;
    assert m.head + prefix + m.tail == prefix + line;
    assert m.tail == line;
  }

  /** uncomment_line undoes comment_line on a line that was not commented. */
  lemma UncommentAfterComment(prefix: string, line: string)
    requires PlainPrefix(prefix) && '\n' !in line
    requires !IsCommented(prefix, line)
    ensures UncommentLine(prefix, CommentLine(prefix, line)) == line
  {
    UncommentPrefixed(prefix, line);
  }

  /** toggle_line flips an uncommented line to commented and back. */
  lemma ToggleLineTwiceOnUncommented(prefix: string, line: string)
    requires PlainPrefix(prefix) && '\n' !in line
    requires !IsCommented(prefix, line)
    ensures IsCommented(prefix, ToggleLine(prefix, line))
    ensures ToggleLine(prefix, ToggleLine(prefix, line)) == line
  {
    UncommentPrefixed(prefix, line);
  }

  /** uncomment_line on a commented line removes exactly the prefix and keeps the indentation. */
  lemma UncommentKeepsHeadAndTail(prefix: string, head: string, tail: string)
    requires PlainPrefix(prefix) && IsBlank(head) && '\n' !in tail
    ensures IsCommented(prefix, head + prefix + tail)
    ensures UncommentLine(prefix, head + prefix + tail) == head + tail
  {
    var line := head + prefix + tail;
    LeadingOfIndented(head, prefix + tail);
    assert line == head + (prefix + tail);
    assert LeadingSpaces(line) == |head|;
    assert line[|head|..|head| + |prefix|] == prefix;
    assert line[|head| + |prefix|..] == tail;
    assert FitsAt(prefix, line, |head|);
    var m := MatchPrefix(prefix, line).value;
    assert |m.head| == |head|;
    assert m.head == line[..|head|] == head;
    assert m.head + prefix + m.tail == head + prefix + tail;
    assert m.tail == tail;
  }

  lemma {:induction false} LeadingOfIndented(head: string, rest: string)
    requires IsBlank(head) && rest != [] && !IsSpace(rest[0])
    ensures LeadingSpaces(head + rest) == |head|
  {
    if head != [] {
      assert (head + rest)[1..] == head[1..] + rest;
      LeadingOfIndented(head[1..], rest);
    } else {
      assert head + rest == rest;
    }
  }

  /** `will_comment`: some non-blank line of the block is not commented. */
  function WillComment(prefix: string, lines: seq<string>): (r: bool)
    ensures r <==> exists i :: 0 <= i < |lines| && !IsBlank(lines[i]) && !IsCommented(prefix, lines[i])
  {
    if lines == [] then false
    else if !IsBlank(lines[0]) && !IsCommented(prefix, lines[0]) then true
    else
      var rest := WillComment(prefix, lines[1..]);
      assert forall i :: 1 <= i < |lines| ==> lines[i] == lines[1..][i - 1];
      rest
  }

  /**
   * One line of a block transform: blank lines pass through; the block's
   * decision applies to every other line. A non-blank line is left as it is
   * only by the uncomment pass, and only when it is not commented.
   */
  function BlockLine(force: bool, prefix: string, line: string): (r: string)
    ensures IsBlank(line) ==> r == line
    ensures prefix != [] && !IsBlank(line) ==> (r == line <==> !force && !IsCommented(prefix, line))
  {
    if IsBlank(line) then line
    else if force then prefix + line
    else UncommentLine(prefix, line)
  }

  /**
   * `toggle_block`: decide once for the whole block. When some non-blank line
   * is uncommented, force-comment every non-blank line at column 0 (even one
   * already commented); otherwise uncomment every line.
   */
  function ToggleBlock(prefix: string, lines: seq<string>): (r: seq<string>)
    ensures |r| == |lines|
    ensures forall i :: 0 <= i < |lines| && IsBlank(lines[i]) ==> r[i] == lines[i]
    ensures WillComment(prefix, lines) ==>
      forall i :: 0 <= i < |lines| && !IsBlank(lines[i]) ==> r[i] == prefix + lines[i]
    ensures !WillComment(prefix, lines) ==>
      forall i :: 0 <= i < |lines| && !IsBlank(lines[i]) ==> r[i] == UncommentLine(prefix, lines[i])
  {
    var force := WillComment(prefix, lines);
    seq(|lines|, i requires 0 <= i < |lines| => BlockLine(force, prefix, lines[i]))
  }

  predicate NoNewlines(lines: seq<string>) {
    forall i :: 0 <= i < |lines| ==> '\n' !in lines[i]
  }

  /** A force-commented non-blank line is non-blank, detected as commented, and uncomments back. */
  lemma ForcedLine(prefix: string, line: string)
    requires PlainPrefix(prefix) && '\n' !in line
    ensures !IsBlank(prefix + line)
    ensures IsCommented(prefix, prefix + line)
    ensures UncommentLine(prefix, prefix + line) == line
  {
    assert (prefix + line)[0] == prefix[0];
    UncommentPrefixed(prefix, line);
  }

  /** toggle_block in uncomment mode, stated line by line against an expected block. */
  lemma UncommentBlockGives(prefix: string, block: seq<string>, expected: seq<string>)
    requires |block| == |expected| && !WillComment(prefix, block)
    requires forall i :: 0 <= i < |block| ==>
      if IsBlank(block[i]) then expected[i] == block[i] else expected[i] == UncommentLine(prefix, block[i])
    ensures ToggleBlock(prefix, block) == expected
  {
  }

  /** toggle_block in force-comment mode, stated line by line against an expected block. */
  lemma ForceBlockGives(prefix: string, block: seq<string>, expected: seq<string>)
    requires |block| == |expected| && WillComment(prefix, block)
    requires forall i :: 0 <= i < |block| ==>
      if IsBlank(block[i]) then block[i] == expected[i] else prefix + block[i] == expected[i]
    ensures ToggleBlock(prefix, block) == expected
  {
  }

  /** What a force-comment pass leaves: blank lines in place, every other line commented and uncommentable. */
  lemma {:induction false} ForcedBlock(prefix: string, lines: seq<string>)
    requires PlainPrefix(prefix) && NoNewlines(lines)
    requires WillComment(prefix, lines)
    ensures var once := ToggleBlock(prefix, lines);
      forall i :: 0 <= i < |lines| ==>
        if IsBlank(once[i]) then once[i] == lines[i]
        else IsCommented(prefix, once[i]) && lines[i] == UncommentLine(prefix, once[i])
  {
    var once := ToggleBlock(prefix, lines);
    forall i | 0 <= i < |lines|
      ensures if IsBlank(once[i]) then once[i] == lines[i]
        else IsCommented(prefix, once[i]) && lines[i] == UncommentLine(prefix, once[i])
    {
      if !IsBlank(lines[i]) {
        ForcedLine(prefix, lines[i]);
      }
    }
  }

  /** A block that toggle_block force-commented is restored by a second toggle_block. */
  lemma {:induction false} ToggleBlockRoundTripFromComment(prefix: string, lines: seq<string>)
    requires PlainPrefix(prefix) && NoNewlines(lines)
    requires WillComment(prefix, lines)
    ensures !WillComment(prefix, ToggleBlock(prefix, lines))
    ensures ToggleBlock(prefix, ToggleBlock(prefix, lines)) == lines
  {
    var once := ToggleBlock(prefix, lines);
    ForcedBlock(prefix, lines);
    assert !WillComment(prefix, once);
    UncommentBlockGives(prefix, once, lines);
  }

  /**
   * Every non-blank line is the prefix, at column 0, before a non-blank line
   * that is not itself commented: the shape a force-comment produces.
   */
  predicate UniformlyCommented(prefix: string, lines: seq<string>) {
    forall i :: 0 <= i < |lines| && !IsBlank(lines[i]) ==>
      && prefix <= lines[i]
      && !IsBlank(lines[i][|prefix|..])
      && !IsCommented(prefix, lines[i][|prefix|..])
      && '\n' !in lines[i]
  }

  lemma PrefixedTail(prefix: string, t: string)
    requires PlainPrefix(prefix) && '\n' !in t
    ensures IsCommented(prefix, prefix + t) && BlockLine(false, prefix, prefix + t) == t
    ensures !IsBlank(prefix + t)
  {
    UncommentPrefixed(prefix, t);
    assert (prefix + t)[0] == prefix[0];
  }

  /** Uncommenting one line of a uniformly commented block leaves its non-blank, uncommented tail. */
  lemma CommentedTail(prefix: string, line: string)
    requires PlainPrefix(prefix) && prefix <= line && '\n' !in line
    requires !IsBlank(line[|prefix|..]) && !IsCommented(prefix, line[|prefix|..])
    ensures IsCommented(prefix, line)
    ensures var once := BlockLine(false, prefix, line);
      !IsBlank(once) && !IsCommented(prefix, once) && prefix + once == line
  {
    var t := line[|prefix|..];
    assert line == prefix + t;
    assert '\n' !in t by {
      forall i | 0 <= i < |t| ensures t[i] != '\n' {
        assert t[i] == line[|prefix| + i];
      }
    }
    PrefixedTail(prefix, t);
  }

  /** What an uncomment pass over a uniformly commented block leaves. */
  lemma {:induction false} UncommentedBlock(prefix: string, lines: seq<string>)
    requires PlainPrefix(prefix) && UniformlyCommented(prefix, lines)
    ensures !WillComment(prefix, lines)
    ensures var once := ToggleBlock(prefix, lines);
      forall i :: 0 <= i < |lines| ==>
        if IsBlank(once[i]) then once[i] == lines[i] else prefix + once[i] == lines[i]
    ensures var once := ToggleBlock(prefix, lines);
      forall i :: 0 <= i < |lines| && !IsBlank(lines[i]) ==>
        !IsBlank(once[i]) && !IsCommented(prefix, once[i])
  {
    forall i | 0 <= i < |lines| && !IsBlank(lines[i])
      ensures IsCommented(prefix, lines[i])
      ensures var once := BlockLine(false, prefix, lines[i]);
        !IsBlank(once) && !IsCommented(prefix, once) && prefix + once == lines[i]
    {
      CommentedTail(prefix, lines[i]);
    }
    assert !WillComment(prefix, lines);
    var once := ToggleBlock(prefix, lines);
    assert forall i :: 0 <= i < |lines| ==> once[i] == BlockLine(false, prefix, lines[i]);
  }

  /** A uniformly commented block is restored by toggling it twice. */
  lemma {:induction false} ToggleBlockRoundTripFromUncomment(prefix: string, lines: seq<string>)
    requires PlainPrefix(prefix)
    requires UniformlyCommented(prefix, lines)
    ensures ToggleBlock(prefix, ToggleBlock(prefix, lines)) == lines
  {
    UncommentedBlock(prefix, lines);
    var once := ToggleBlock(prefix, lines);
    if i :| 0 <= i < |lines| && !IsBlank(lines[i]) {
      assert !IsBlank(once[i]) && !IsCommented(prefix, once[i]);
      ForceBlockGives(prefix, once, lines);
    } else {
      assert once == lines by {
        forall j | 0 <= j < |lines| ensures once[j] == lines[j] {
          assert IsBlank(lines[j]);
        }
      }
    }
  }

  /** A block of blank lines is left unchanged, and toggling does not decide to comment it. */
  lemma AllBlankUnchanged(prefix: string, lines: seq<string>)
    requires forall i :: 0 <= i < |lines| ==> IsBlank(lines[i])
    ensures !WillComment(prefix, lines)
    ensures ToggleBlock(prefix, lines) == lines
  {
  }
}
