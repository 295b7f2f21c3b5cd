/**
 * The `IsValidPassword` decorator: a value is accepted when it is a string and
 * the pattern
 *   ^(?=.*[a-z])(?=.*[A-Z])(?=.*d)(?=.*[SPECIALS])[A-Za-zd@SPECIALS]{8,}$
 * matches it. The pattern is built from a string literal in which `\d` lost
 * its backslash, so the third lookahead demands the letter `d` and the final
 * class admits no digit. That is the rule modelled here, as written.
 */
module PasswordValidator {
  import opened Wrappers
  import opened ValidationMessage
  import opened JsValues
  import opened Regex

  const DefaultMessage := "Invalid password"

  /** The final bracket class `[A-Za-zd@$&+,:;=?@#|'<>.^*()%!-]`. */
  predicate InAlphabet(c: char) {
    IsUpper(c) || IsLower(c) || c == 'd' || c == '@' || IsSpecial(c)
  }

  /** `re.test(s)` for the pattern above: the four lookaheads at the start, then
      eight or more characters of the class running to the end of input. */
  predicate IsValidPassword(s: string) {
    && LookaheadAtStart(s, Lower)
    && LookaheadAtStart(s, Upper)
    && LookaheadAtStart(s, LetterD)
    && LookaheadAtStart(s, Special)
    && |s| >= 8
    && forall i :: 0 <= i < |s| ==> InAlphabet(s[i])
  }

  /** The decorator's `validate`: `typeof value === "string" && re.test(value)`. */
  predicate Validate(v: JsValue) {
    IsString(v) && IsValidPassword(v.str)
  }

  /** The message class-validator reports for a field that fails (the decorator
      is applied without options everywhere in the project). */
  function Failure(v: JsValue): (m: Option<string>)
    ensures m.None? <==> Validate(v)
    ensures m.Some? ==> m.value == "Invalid password"
  {
    Message(Validate(v), DefaultMessage)
  }

  /** What the rule accepts, stated without regex machinery: at least eight
      characters, a lowercase letter, an uppercase letter, the letter `d`, a
      special character, and nothing but letters and special characters. */
  lemma Characterisation(s: string)
    ensures IsValidPassword(s) <==>
      && |s| >= 8
      && Contains(s, Lower)
      && Contains(s, Upper)
      && 'd' in s
      && Contains(s, Special)
      && forall i :: 0 <= i < |s| ==> IsLower(s[i]) || IsUpper(s[i]) || IsSpecial(s[i])
  {
    var letters := forall i :: 0 <= i < |s| ==> IsLower(s[i]) || IsUpper(s[i]) || IsSpecial(s[i]);
    assert letters <==> forall i :: 0 <= i < |s| ==> InAlphabet(s[i]);
    if letters {
      assert NoLineTerminator(s);
      LookaheadIsContains(s, Lower);
      LookaheadIsContains(s, Upper);
      LookaheadIsContains(s, LetterD);
      LookaheadIsContains(s, Special);
      assert Contains(s, LetterD) <==> 'd' in s;
    }
  }

  /** No accepted password contains a digit. */
  lemma AcceptedHasNoDigit(s: string)
    requires IsValidPassword(s)
    ensures forall i :: 0 <= i < |s| ==> !IsDigit(s[i])
  {
  }

  /** No accepted password is shorter than eight characters. */
  lemma AcceptedIsLong(s: string)
    requires IsValidPassword(s)
    ensures |s| >= 8
  {
  }

  /** A password with a digit, the kind the comment above the pattern asks for,
      is refused. */
  lemma DigitRefused()
    ensures !IsValidPassword("Abcdef1!")
  {
    var bad := "Abcdef1!";
    assert bad[6] == '1' && !InAlphabet(bad[6]);
  }

  /** The same password with the letter `d` in the digit's place is accepted. */
  lemma LetterDAccepted()
    ensures IsValidPassword("Abcdefd!")
  {
    var good := "Abcdefd!";
    LettersAndSpecialsOnly(good);
    assert IsUpper(good[0]) && IsLower(good[1]) && good[6] == 'd' && IsSpecial(good[7]);
    Characterisation(good);
  }

  lemma LettersAndSpecialsOnly(s: string)
    requires s == "Abcdefd!"
    ensures forall i :: 0 <= i < |s| ==> IsLower(s[i]) || IsUpper(s[i]) || IsSpecial(s[i])
  {
    forall i | 0 <= i < |s| ensures IsLower(s[i]) || IsUpper(s[i]) || IsSpecial(s[i]) {
      if i == 7 { assert IsSpecial(s[i]) by { assert s[i] == '!'; } }
    }
  }

  /** A value that is not a string is refused, whatever it holds. */
  lemma NonStringRefused(v: JsValue)
    requires !IsString(v)
    ensures !Validate(v) && Failure(v) == Some("Invalid password")
  {
  }
}
