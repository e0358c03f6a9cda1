/**
 * Anchored regular expressions made of a sequence of quantified character classes, such as
 * `^\+?\d{1,4}?[-.\s]?...$`. Laziness (`{1,4}?`) does not change which strings an anchored
 * pattern accepts, so a piece is just a class with a repetition range.
 */
module Pattern {
  import opened Text

  /** `\d`, a literal `+`, `(` or `)`, and the separator class `[-.\s]`. */
  datatype Class = Digit | Plus | OpenParen | CloseParen | Separator

  predicate InClass(c: Class, ch: char) {
    match c
    case Digit => IsDigit(ch)
    case Plus => ch == '+'
    case OpenParen => ch == '('
    case CloseParen => ch == ')'
    case Separator => ch == '-' || ch == '.' || IsSpace(ch)
  }

  /** `min` to `max` characters of one class (`x?` is `0..1`, `\d{1,4}` is `1..4`). */
  datatype Piece = Piece(cls: Class, min: nat, max: nat)

  /** The pieces in order, `$` at the end. */
  datatype Regex = End | Then(piece: Piece, rest: Regex)

  predicate AllIn(c: Class, s: string) {
    forall i :: 0 <= i < |s| ==> InClass(c, s[i])
  }

  /** The whole of `s` matches the pieces in order. */
  predicate Matches(re: Regex, s: string)
    decreases re
  {
    match re
    case End => s == []
    case Then(p, rest) =>
      exists k :: p.min <= k <= p.max && k <= |s| && AllIn(p.cls, s[..k]) && Matches(rest, s[k..])
  }

  function MinLength(re: Regex): nat {
    match re
    case End => 0
    case Then(p, rest) => p.min + MinLength(rest)
  }

  function MaxLength(re: Regex): nat {
    match re
    case End => 0
    case Then(p, rest) => p.max + MaxLength(rest)
  }

  /** A matched string is as long as the pieces allow. */
  lemma {:induction false} MatchLength(re: Regex, s: string)
    requires Matches(re, s)
    ensures MinLength(re) <= |s| <= MaxLength(re)
    decreases re
  {
    match re
    case End =>
    case Then(p, rest) =>
      var k :| p.min <= k <= p.max && k <= |s| && AllIn(p.cls, s[..k]) && Matches(rest, s[k..]);
      MatchLength(rest, s[k..]);
  }

  /** Some piece's class admits the character. */
  predicate Admitted(re: Regex, ch: char) {
    match re
    case End => false
    case Then(p, rest) => InClass(p.cls, ch) || Admitted(rest, ch)
  }

  /** A character some piece admits belongs to one of the classes. */
  lemma {:induction false} AdmittedByClass(re: Regex, ch: char)
    requires Admitted(re, ch)
    ensures exists c :: InClass(c, ch)
    decreases re
  {
    if !InClass(re.piece.cls, ch) {
      AdmittedByClass(re.rest, ch);
    }
  }

  /** Every character of a matched string belongs to the class of some piece. */
  lemma {:induction false} MatchCharset(re: Regex, s: string)
    requires Matches(re, s)
    ensures forall i :: 0 <= i < |s| ==> Admitted(re, s[i])
    decreases re
  {
    match re
    case End =>
    case Then(p, rest) =>
      var k :| p.min <= k <= p.max && k <= |s| && AllIn(p.cls, s[..k]) && Matches(rest, s[k..]);
      MatchCharset(rest, s[k..]);
      forall i | 0 <= i < |s| ensures Admitted(re, s[i]) {
        if i < k {
          assert InClass(p.cls, s[..k][i]);
        } else {
          assert Admitted(rest, s[k..][i - k]);
        }
      }
  }

  /** The class of the last piece, when that piece must match at least once. */
  predicate EndsWithRequired(re: Regex, c: Class) {
    match re
    case End => false
    case Then(p, End) => p.min >= 1 && p.cls == c
    case Then(_, rest) => EndsWithRequired(rest, c)
  }

  /** When the last piece must match at least once, a matched string ends in a character of its class. */
  lemma {:induction false} MatchLastChar(re: Regex, s: string, c: Class)
    requires EndsWithRequired(re, c)
    requires Matches(re, s)
    ensures s != [] && InClass(c, s[|s| - 1])
    decreases re
  {
    var p, rest := re.piece, re.rest;
    var k :| p.min <= k <= p.max && k <= |s| && AllIn(p.cls, s[..k]) && Matches(rest, s[k..]);
    if rest == End {
      assert s[k..] == [];
      assert s[..k][k - 1] == s[|s| - 1];
    } else {
      MatchLastChar(rest, s[k..], c);
      assert s[k..][|s[k..]| - 1] == s[|s| - 1];
    }
  }

  /** When the first piece must match at least once, a matched string starts with a character of its class. */
  lemma MatchFirstChar(p: Piece, rest: Regex, s: string)
    requires p.min >= 1
    requires Matches(Then(p, rest), s)
    ensures s != [] && InClass(p.cls, s[0])
  {
    var k :| p.min <= k <= p.max && k <= |s| && AllIn(p.cls, s[..k]) && Matches(rest, s[k..]);
    assert s[..k][0] == s[0];
  }

  /** An optional first piece that is skipped leaves the rest to match the whole string. */
  lemma SkipOptional(p: Piece, rest: Regex, s: string)
    requires Matches(Then(p, rest), s)
    requires s == [] || !InClass(p.cls, s[0])
    ensures Matches(rest, s)
  {
    var k :| p.min <= k <= p.max && k <= |s| && AllIn(p.cls, s[..k]) && Matches(rest, s[k..]);
    assert s[k..] == s;
  }
}
