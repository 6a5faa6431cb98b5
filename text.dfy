/** Characters, strings and the small wrappers shared by the other modules. */
module Text {

  datatype Option<T> = None | Some(value: T)

  /** The class `\s` of the comment-prefix regex, restricted to ASCII whitespace. */
  predicate IsSpace(c: char) {
    c == ' ' || c == '\t' || c == '\n' || c == '\r' || c == '\U{0B}' || c == '\U{0C}'
  }

  /** A blank line: empty or whitespace only. */
  predicate IsBlank(s: string) {
    forall i :: 0 <= i < |s| ==> IsSpace(s[i])
  }

  /** Length of the run of whitespace that starts the string. */
  function LeadingSpaces(s: string): (w: nat)
    ensures w <= |s|
    ensures forall i :: 0 <= i < w ==> IsSpace(s[i])
    ensures w == |s| || !IsSpace(s[w])
  {
    if s != [] && IsSpace(s[0]) then 1 + LeadingSpaces(s[1..]) else 0
  }

  /** `sub` occurs in `s` starting at index `i`. */
  predicate OccursAt(s: string, sub: string, i: nat) {
    i + |sub| <= |s| && s[i..i + |sub|] == sub
  }

  /** An occurrence in the tail of `s` is an occurrence in `s`, one index later. */
  lemma OccursInTail(s: string, sub: string, i: nat)
    requires s != []
    ensures OccursAt(s[1..], sub, i) <==> OccursAt(s, sub, i + 1)
  {
    if i + 1 + |sub| <= |s| {
      assert s[1..][i..i + |sub|] == s[i + 1..i + 1 + |sub|];
    }
  }

  /**
   * `sub` occurs somewhere in `s` (Rust's `str::contains` with a string
   * pattern): it is a prefix of `s` or occurs in its tail.
   */
  predicate Contains(s: string, sub: string): (r: bool)
    ensures r <==> exists i: nat :: OccursAt(s, sub, i)
    decreases |s|
  {
    if sub <= s then
      assert OccursAt(s, sub, 0);
      true
    else if s == [] then
      false
    else
      var rest := Contains(s[1..], sub);
      assert rest ==> exists i: nat :: OccursAt(s, sub, i) by {
        if rest {
          var j: nat :| OccursAt(s[1..], sub, j);
          OccursInTail(s, sub, j);
        }
      }
      assert (exists i: nat :: OccursAt(s, sub, i)) ==> rest by {
        if exists i: nat :: OccursAt(s, sub, i) {
          var i: nat :| OccursAt(s, sub, i);
          assert i != 0;
          OccursInTail(s, sub, i - 1);
        }
      }
      rest
  }

  /** A string in which the first character of `sub` never appears cannot contain `sub`. */
  lemma {:induction false} NotContainsWithoutFirst(s: string, sub: string)
    requires sub != [] && sub[0] !in s
    ensures !Contains(s, sub)
  {
    if s != [] {
      assert s[0] in s;
      assert forall c :: c in s[1..] ==> c in s;
      NotContainsWithoutFirst(s[1..], sub);
    }
  }

  /** ASCII model of `char::is_alphabetic`. */
  predicate IsAlphabetic(c: char) {
    ('a' <= c <= 'z') || ('A' <= c <= 'Z')
  }

  predicate IsDigit(c: char) {
    '0' <= c <= '9'
  }

  lemma DigitsAreNotAlphabetic(c: char)
    ensures IsDigit(c) ==> !IsAlphabetic(c)
  {
  }
}
