/**
 * The pieces of JavaScript regular-expression syntax that the password and
 * confirmation-code patterns use, over a string searched without flags: the
 * character classes, and a lookahead `(?=.*X)` tried at the start of input
 * (after `^`), where `.` matches every character except a line terminator.
 */
module Regex {

  /** `[a-z]` */
  predicate IsLower(c: char) {
    'a' <= c <= 'z'
  }

  /** `[A-Z]` */
  predicate IsUpper(c: char) {
    'A' <= c <= 'Z'
  }

  /** `[0-9]`, which is also what `\d` stands for */
  predicate IsDigit(c: char) {
    '0' <= c <= '9'
  }

  /** The class `[$&+,:;=?@#|'<>.^*()%!-]`: inside brackets a `^` that is not
      first, `$`, `.`, `|`, `(`, `)` and a trailing `-` all stand for themselves. */
  predicate IsSpecial(c: char) {
    c in Specials
  }

  const Specials: set<char> :=
    {'$', '&', '+', ',', ':', ';', '=', '?', '@', '#', '|', '\'', '<', '>', '.', '^', '*', '(', ')', '%', '!', '-'}

  /** The characters `.` refuses when the `s` flag is absent. */
  predicate IsLineTerminator(c: char) {
    c == '\n' || c == '\r' || c == '\U{2028}' || c == '\U{2029}'
  }

  /** The character classes that the lookaheads of the password patterns test. */
  datatype CharClass = Lower | Upper | LetterD | Digit | Special

  predicate InClass(k: CharClass, c: char) {
    match k
    case Lower => IsLower(c)
    case Upper => IsUpper(c)
    case LetterD => c == 'd'
    case Digit => IsDigit(c)
    case Special => IsSpecial(c)
  }

  /** `(?=.*X)` at position 0: some character of class X is preceded only by
      characters that `.` matches. */
  predicate LookaheadAtStart(s: string, k: CharClass) {
    exists i :: 0 <= i < |s| && InClass(k, s[i]) && NoLineTerminator(s[..i])
  }

  predicate NoLineTerminator(s: string) {
    forall j :: 0 <= j < |s| ==> !IsLineTerminator(s[j])
  }

  /** Some character of `s` is in class X. */
  predicate Contains(s: string, k: CharClass) {
    exists i :: 0 <= i < |s| && InClass(k, s[i])
  }

  /** On a string without line terminators, `(?=.*X)` tests only that a
      character of class X occurs somewhere. */
  lemma LookaheadIsContains(s: string, k: CharClass)
    requires NoLineTerminator(s)
    ensures LookaheadAtStart(s, k) <==> Contains(s, k)
  {
    if Contains(s, k) {
      var i :| 0 <= i < |s| && InClass(k, s[i]);
      assert NoLineTerminator(s[..i]) by {
        forall j | 0 <= j < i ensures !IsLineTerminator(s[..i][j]) {
          assert s[..i][j] == s[j];
        }
      }
    }
  }
}
