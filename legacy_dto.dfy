/**
 * The stale ConfirmPasswordDto under src/dto, which the service does not
 * import. Its password pattern is a regex literal, so `\d` survives:
 *   ^(?=.*[a-z])(?=.*[A-Z])(?=.*\d)(?=.*[SPECIALS])[A-Za-z\d@SPECIALS]{8,}$
 * demands a digit and admits digits; its confirmation code need only be a
 * non-empty string. The lemmas compare it with the records in force.
 */
module LegacyDto {
  import opened Wrappers
  import opened JsValues
  import opened Regex
  import PasswordValidator
  import ConfirmationCodeValidator
  import Dtos
  import ValidationMessage

  const PasswordMessage := "invalid password"

  /** The final bracket class `[A-Za-z\d@$&+,:;=?@#|'<>.^*()%!-]`. */
  predicate InAlphabet(c: char) {
    IsUpper(c) || IsLower(c) || IsDigit(c) || c == '@' || IsSpecial(c)
  }

  /** `re.test(s)` for the regex literal above. */
  predicate IsStrongPassword(s: string) {
    && LookaheadAtStart(s, Lower)
    && LookaheadAtStart(s, Upper)
    && LookaheadAtStart(s, Digit)
    && LookaheadAtStart(s, Special)
    && |s| >= 8
    && forall i :: 0 <= i < |s| ==> InAlphabet(s[i])
  }

  /** class-validator's `@Matches(pattern)`: a string the pattern matches. */
  predicate MatchesPassword(v: JsValue) {
    IsString(v) && IsStrongPassword(v.str)
  }

  datatype ConfirmPasswordDto = ConfirmPasswordDto(email: JsValue, confirmationCode: JsValue, newPassword: JsValue)

  /** `@IsNotEmpty() @IsEmail()` email, `@IsNotEmpty() @IsString()` code,
      `@IsNotEmpty() @Matches(...)` new password. */
  predicate ConfirmPasswordDtoValid(d: ConfirmPasswordDto, isEmail: string -> bool) {
    && Dtos.EmailValid(d.email, isEmail)
    && Dtos.IsNotEmpty(d.confirmationCode) && IsString(d.confirmationCode)
    && Dtos.IsNotEmpty(d.newPassword) && MatchesPassword(d.newPassword)
  }

  /** The message the `@Matches` rule reports, in lower case. */
  function PasswordFailure(v: JsValue): (m: Option<string>)
    ensures m.None? <==> MatchesPassword(v)
    ensures m.Some? ==> m.value == "invalid password"
  {
    ValidationMessage.Message(MatchesPassword(v), PasswordMessage)
  }

  /** What the rule accepts: eight or more characters drawn from letters,
      digits and the special characters, with at least one of each kind. */
  lemma Characterisation(s: string)
    ensures IsStrongPassword(s) <==>
      && |s| >= 8
      && Contains(s, Lower)
      && Contains(s, Upper)
      && Contains(s, Digit)
      && Contains(s, Special)
      && forall i :: 0 <= i < |s| ==> IsLower(s[i]) || IsUpper(s[i]) || IsDigit(s[i]) || IsSpecial(s[i])
  {
    var alphabet := forall i :: 0 <= i < |s| ==> IsLower(s[i]) || IsUpper(s[i]) || IsDigit(s[i]) || IsSpecial(s[i]);
    assert alphabet <==> forall i :: 0 <= i < |s| ==> InAlphabet(s[i]);
    if alphabet {
      assert NoLineTerminator(s);
      LookaheadIsContains(s, Lower);
      LookaheadIsContains(s, Upper);
      LookaheadIsContains(s, Digit);
      LookaheadIsContains(s, Special);
    }
  }

  /** The password the rule in force refuses is accepted here. */
  lemma DigitAccepted()
    ensures IsStrongPassword("Abcdef1!")
    ensures !PasswordValidator.IsValidPassword("Abcdef1!")
  {
    PasswordValidator.DigitRefused();
    var s := "Abcdef1!";
    LettersDigitsAndSpecialsOnly(s);
    assert IsUpper(s[0]) && IsLower(s[1]) && IsDigit(s[6]) && IsSpecial(s[7]);
    Characterisation(s);
  }

  lemma LettersDigitsAndSpecialsOnly(s: string)
    requires s == "Abcdef1!"
    ensures forall i :: 0 <= i < |s| ==> IsLower(s[i]) || IsUpper(s[i]) || IsDigit(s[i]) || IsSpecial(s[i])
  {
    forall i | 0 <= i < |s| ensures IsLower(s[i]) || IsUpper(s[i]) || IsDigit(s[i]) || IsSpecial(s[i]) {
      if i == 7 { assert IsSpecial(s[i]) by { assert s[i] == '!'; } }
    }
  }

  /** The two password rules accept no string in common: the rule in force
      forbids every digit and this one demands a digit. */
  lemma RulesDisjoint(s: string)
    ensures !(PasswordValidator.IsValidPassword(s) && IsStrongPassword(s))
  {
    if PasswordValidator.IsValidPassword(s) {
      PasswordValidator.AcceptedHasNoDigit(s);
      Characterisation(s);
    }
  }

  /** They differ only in the digit: a password the rule in force accepts is
      accepted here once a digit is appended. */
  lemma AppendDigitBridges(s: string, c: char)
    requires PasswordValidator.IsValidPassword(s)
    requires IsDigit(c)
    ensures IsStrongPassword(s + [c])
  {
    PasswordValidator.Characterisation(s);
    var t := s + [c];
    assert forall i :: 0 <= i < |s| ==> t[i] == s[i];
    var l :| 0 <= l < |s| && IsLower(s[l]);
    assert InClass(Lower, t[l]);
    var u :| 0 <= u < |s| && IsUpper(s[u]);
    assert InClass(Upper, t[u]);
    var p :| 0 <= p < |s| && IsSpecial(s[p]);
    assert InClass(Special, t[p]);
    assert InClass(Digit, t[|s|]);
    Characterisation(t);
  }

  /** The stale record asks nothing of the code beyond being a non-empty
      string: any such code passes with a valid address and password. */
  lemma CodeUnconstrained(code: string, isEmail: string -> bool)
    requires code != ""
    requires isEmail("a@b.com")
    ensures ConfirmPasswordDtoValid(ConfirmPasswordDto(JsString("a@b.com"), JsString(code), JsString("Abcdef1!")), isEmail)
  {
    DigitAccepted();
  }

  /** The record in force is stricter on the code: "abc" passes here only. */
  lemma CurrentStricterOnCode(isEmail: string -> bool)
    requires isEmail("a@b.com")
    ensures ConfirmPasswordDtoValid(ConfirmPasswordDto(JsString("a@b.com"), JsString("abc"), JsString("Abcdef1!")), isEmail)
    ensures !Dtos.ConfirmPasswordDtoValid(Dtos.ConfirmPasswordDto(JsString("a@b.com"), JsString("abc"), JsString("Abcdefd!")), isEmail)
  {
    CodeUnconstrained("abc", isEmail);
  }

  /** A new password with a digit: the record in force refuses it whatever the
      other fields hold, while the stale record accepts it, with a valid email
      and a non-empty code, exactly when it matches the `\d` pattern. */
  lemma CurrentRefusesDigits(email: JsValue, code: JsValue, password: string, isEmail: string -> bool)
    requires exists i :: 0 <= i < |password| && IsDigit(password[i])
    ensures !Dtos.ConfirmPasswordDtoValid(Dtos.ConfirmPasswordDto(email, code, JsString(password)), isEmail)
    ensures ConfirmPasswordDtoValid(ConfirmPasswordDto(email, code, JsString(password)), isEmail) <==>
      Dtos.EmailValid(email, isEmail) && Dtos.IsNotEmpty(code) && IsString(code) && IsStrongPassword(password)
  {
    if Dtos.ConfirmPasswordDtoValid(Dtos.ConfirmPasswordDto(email, code, JsString(password)), isEmail) {
      PasswordValidator.AcceptedHasNoDigit(password);
    }
  }

  /** No new password is valid under both records. */
  lemma NoPasswordValidUnderBoth(current: Dtos.ConfirmPasswordDto, stale: ConfirmPasswordDto, isEmail: string -> bool)
    requires current.newPassword == stale.newPassword
    ensures !(Dtos.ConfirmPasswordDtoValid(current, isEmail) && ConfirmPasswordDtoValid(stale, isEmail))
  {
    if current.newPassword.JsString? {
      RulesDisjoint(current.newPassword.str);
    }
  }
}
