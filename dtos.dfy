/**
 * The request records under src/dtos, with the validity class-validator
 * decides for them: the conjunction of the rules their decorators attach to
 * their fields, plus the `email` rule every one of them inherits from BaseDto.
 * Fields are the raw values a caller supplies, so a decorator's `typeof` test
 * is part of what is modelled. The service imports these records, so the
 * literal-`d` password rule of PasswordValidator is the one in force.
 */
module Dtos {
  import opened JsValues
  import opened Regex
  import PasswordValidator
  import ConfirmationCodeValidator
  import MfaPreferenceTypeValidator

  /** class-validator's `isNotEmpty`: not `""`, not `null`, not `undefined`. */
  predicate IsNotEmpty(v: JsValue) {
    v != JsString("") && v != JsNull && v != JsUndefined
  }

  /** BaseDto's `@IsEmail() @IsNotEmpty() email`. The address syntax that
      class-validator's `isEmail` checks is a parameter of the model. */
  predicate EmailValid(email: JsValue, isEmail: string -> bool) {
    IsNotEmpty(email) && IsString(email) && isEmail(email.str)
  }

  datatype ChangePasswordDto = ChangePasswordDto(email: JsValue, currentPassword: JsValue, newPassword: JsValue)

  predicate ChangePasswordDtoValid(d: ChangePasswordDto, isEmail: string -> bool) {
    && EmailValid(d.email, isEmail)
    && PasswordValidator.Validate(d.currentPassword)
    && PasswordValidator.Validate(d.newPassword)
  }

  datatype ConfirmPasswordDto = ConfirmPasswordDto(email: JsValue, confirmationCode: JsValue, newPassword: JsValue)

  predicate ConfirmPasswordDtoValid(d: ConfirmPasswordDto, isEmail: string -> bool) {
    && EmailValid(d.email, isEmail)
    && ConfirmationCodeValidator.Validate(d.confirmationCode)
    && PasswordValidator.Validate(d.newPassword)
  }

  datatype ConfirmRegistrationDto = ConfirmRegistrationDto(email: JsValue, confirmationCode: JsValue)

  predicate ConfirmRegistrationDtoValid(d: ConfirmRegistrationDto, isEmail: string -> bool) {
    EmailValid(d.email, isEmail) && ConfirmationCodeValidator.Validate(d.confirmationCode)
  }

  /** The source's field is called `type`, a keyword in Dafny. */
  datatype SetUserMfaPreferenceDto = SetUserMfaPreferenceDto(email: JsValue, preferenceType: JsValue)

  predicate SetUserMfaPreferenceDtoValid(d: SetUserMfaPreferenceDto, isEmail: string -> bool) {
    EmailValid(d.email, isEmail) && MfaPreferenceTypeValidator.Validate(d.preferenceType)
  }

  datatype AuthenticateUserDto = AuthenticateUserDto(email: JsValue, password: JsValue)

  predicate AuthenticateUserDtoValid(d: AuthenticateUserDto, isEmail: string -> bool) {
    EmailValid(d.email, isEmail) && PasswordValidator.Validate(d.password)
  }

  /** The service accepts any subtype of RegisterUserDto and turns its extra
      fields into attributes, so this record is a whole object. */
  datatype RegisterUserDto = RegisterUserDto(fields: seq<Property>)

  predicate RegisterUserDtoValid(d: RegisterUserDto, isEmail: string -> bool) {
    EmailValid(Get(d.fields, "email"), isEmail) && PasswordValidator.Validate(Get(d.fields, "password"))
  }

  /** The shapes of the records whose rules are only class-validator built-ins;
      the service reads their fields, their validity is not modelled. */
  datatype ListDevicesDto = ListDevicesDto(email: JsValue, limit: JsValue, paginationToken: JsValue)
  datatype DeleteAttributesDto = DeleteAttributesDto(email: JsValue, attributeList: JsValue)

  /** A valid ChangePasswordDto carries two passwords of eight or more
      characters, neither with a digit. */
  lemma ChangePasswordDigitFree(d: ChangePasswordDto, isEmail: string -> bool)
    requires ChangePasswordDtoValid(d, isEmail)
    ensures EmailValid(d.email, isEmail)
    ensures d.currentPassword.JsString? && |d.currentPassword.str| >= 8
    ensures d.newPassword.JsString? && |d.newPassword.str| >= 8
    ensures forall i :: 0 <= i < |d.currentPassword.str| ==> !IsDigit(d.currentPassword.str[i])
    ensures forall i :: 0 <= i < |d.newPassword.str| ==> !IsDigit(d.newPassword.str[i])
  {
    PasswordValidator.AcceptedHasNoDigit(d.currentPassword.str);
    PasswordValidator.AcceptedHasNoDigit(d.newPassword.str);
  }

  /** Nothing ties the two passwords together: a request that reuses its
      current password as the new one is valid exactly when its email and that
      password are, and such requests exist. */
  lemma ChangePasswordMayReuse(email: JsValue, password: JsValue, isEmail: string -> bool)
    ensures ChangePasswordDtoValid(ChangePasswordDto(email, password, password), isEmail) <==>
      EmailValid(email, isEmail) && PasswordValidator.Validate(password)
    ensures isEmail("a@b.com") ==>
      ChangePasswordDtoValid(ChangePasswordDto(JsString("a@b.com"), JsString("Abcdefd!"), JsString("Abcdefd!")), isEmail)
  {
    PasswordValidator.LetterDAccepted();
  }

  /** A valid ConfirmPasswordDto carries a code that is a number below a million
      written with six digits, and a new password without a digit. */
  lemma ConfirmPasswordFields(d: ConfirmPasswordDto, isEmail: string -> bool)
    requires ConfirmPasswordDtoValid(d, isEmail)
    ensures EmailValid(d.email, isEmail)
    ensures exists n: nat :: n < 1000000 && d.confirmationCode == JsString(ConfirmationCodeValidator.Padded(n, 6))
    ensures d.newPassword.JsString? && |d.newPassword.str| >= 8
    ensures forall i :: 0 <= i < |d.newPassword.str| ==> !IsDigit(d.newPassword.str[i])
  {
    var code := d.confirmationCode.str;
    ConfirmationCodeValidator.CodesAreSixDigitNumbers(code, 0);
    var n := ConfirmationCodeValidator.ValueOf(code);
    assert d.confirmationCode == JsString(ConfirmationCodeValidator.Padded(n, 6));
    PasswordValidator.AcceptedHasNoDigit(d.newPassword.str);
  }

  /** A ConfirmRegistrationDto with a valid email is valid exactly when its code
      is a number below a million written with six digits; any character other
      than a digit in the code makes it invalid. */
  lemma ConfirmRegistrationCodes(email: JsValue, code: string, isEmail: string -> bool)
    ensures ConfirmRegistrationDtoValid(ConfirmRegistrationDto(email, JsString(code)), isEmail) <==>
      EmailValid(email, isEmail) && exists n: nat :: n < 1000000 && code == ConfirmationCodeValidator.Padded(n, 6)
    ensures (exists i :: 0 <= i < |code| && !IsDigit(code[i])) ==>
      !ConfirmRegistrationDtoValid(ConfirmRegistrationDto(email, JsString(code)), isEmail)
  {
    if ConfirmationCodeValidator.IsConfirmationCode(code) {
      ConfirmationCodeValidator.CodesAreSixDigitNumbers(code, 0);
      assert code == ConfirmationCodeValidator.Padded(ConfirmationCodeValidator.ValueOf(code), 6);
    }
    if exists n: nat :: n < 1000000 && code == ConfirmationCodeValidator.Padded(n, 6) {
      var n: nat :| n < 1000000 && code == ConfirmationCodeValidator.Padded(n, 6);
      ConfirmationCodeValidator.CodesAreSixDigitNumbers(code, n);
    }
  }

  /** A valid SetUserMfaPreferenceDto names one of the two factors; a type in
      capitals makes it invalid. */
  lemma SetUserMfaPreferenceFields(d: SetUserMfaPreferenceDto, isEmail: string -> bool)
    ensures SetUserMfaPreferenceDtoValid(d, isEmail) ==>
      EmailValid(d.email, isEmail) && (d.preferenceType == JsString("sms") || d.preferenceType == JsString("totp"))
    ensures !SetUserMfaPreferenceDtoValid(SetUserMfaPreferenceDto(d.email, JsString("SMS")), isEmail)
  {
    MfaPreferenceTypeValidator.AcceptedSet("SMS");
  }

  /** A password shorter than eight characters, or one with a digit anywhere,
      makes an AuthenticateUserDto invalid. */
  lemma AuthenticateUserRefusals(d: AuthenticateUserDto, isEmail: string -> bool)
    requires d.password.JsString?
    requires |d.password.str| < 8 || exists i :: 0 <= i < |d.password.str| && IsDigit(d.password.str[i])
    ensures !AuthenticateUserDtoValid(d, isEmail)
  {
    if AuthenticateUserDtoValid(d, isEmail) {
      PasswordValidator.AcceptedHasNoDigit(d.password.str);
    }
  }

  /** Only `email` and `password` are constrained: adding a property with any
      other key, anywhere in the record, leaves validity as it was. */
  lemma RegisterExtraFieldsFree(a: seq<Property>, p: Property, b: seq<Property>, isEmail: string -> bool)
    requires p.key != "email" && p.key != "password"
    ensures RegisterUserDtoValid(RegisterUserDto(a + [p] + b), isEmail) <==> RegisterUserDtoValid(RegisterUserDto(a + b), isEmail)
  {
    GetInsertOther(a, p, b, "email");
    GetInsertOther(a, p, b, "password");
  }

  /** A password shorter than eight characters, or one with a digit anywhere,
      makes a RegisterUserDto invalid, whatever else it holds. */
  lemma RegisterRefusesWeakPasswords(d: RegisterUserDto, isEmail: string -> bool)
    requires Get(d.fields, "password").JsString?
    requires var pw := Get(d.fields, "password").str;
      |pw| < 8 || exists i :: 0 <= i < |pw| && IsDigit(pw[i])
    ensures !RegisterUserDtoValid(d, isEmail)
  {
    var pw := Get(d.fields, "password").str;
    if RegisterUserDtoValid(d, isEmail) {
      PasswordValidator.AcceptedIsLong(pw);
      PasswordValidator.AcceptedHasNoDigit(pw);
    }
  }
}
