# NestJS Cognito wrapper: request validation and service outcomes

This project models a NestJS module that wraps Amazon Cognito's user-pool
client:

- the three custom class-validator rules: password, confirmation code and MFA preference type;
- the request records (DTOs) they decorate, plus the stale `src/dto` record with its own `\d` password rule;
- `CognitoService`, which builds the provider request for each operation and
  settles a promise from the provider's answer.

The provider is not modelled. Each service method takes the provider's answer
as a parameter and records, in a ghost trace `calls`, the calls the service makes
on it with all their non-callback arguments, constants included.

Modules:

- `JsValues`: the JavaScript values the validators and callbacks see.
  - truthiness for `if (error)` / `if (!result)`;
  - `typeof … === "string"`;
  - objects as ordered property lists, with `Get`;
  - rest destructuring `{ email, ...rest }` as `Omit`.
- `Promises`: a promise that settles once. It is written two ways:
  - as `Run` over a list of `resolve`/`reject` calls;
  - as a `Promise` class whose `Resolve`/`Reject` act only while it is pending.
- `Regex`: the character classes and the start-anchored lookahead `(?=.*X)` of
  the two password patterns.
- `PasswordValidator`, `ConfirmationCodeValidator`, `MfaPreferenceTypeValidator`:
  - the `validate` function and default message of each decorator;
  - a characterisation of the language its pattern accepts.
- `Dtos`: the records under `src/dtos` and their validity. The service imports
  these records.
- `LegacyDto`: `src/dto/confirm-password.dto.ts` and how its rules differ from the live ones.
- `Attributes`: the `{ Name, Value }` list that `register` and `updateAttributes`
  build from the fields left after destructuring.
- `Callbacks`: every callback body, as the `resolve`/`reject` calls it makes,
  and the state a fresh promise ends in.
- `Service`: the `CognitoService` class, the MFA settings objects, and the
  two-step `changePassword`.

The password pattern in force, `src/validators/password.validator.ts:11`, has
`(?=.*d)` and `[A-Za-zd@…]` where `\d` was evidently meant. As written it is
the letter `d`: it requires a lower-case `d` and refuses every digit. The model
follows the code, not the comment on line 9 that asks for "one number". The
stale record in `src/dto` has the `\d` rule. The two rules accept disjoint
sets of strings:

- `LegacyDto.RulesDisjoint` proves that no string is accepted by both;
- `LegacyDto.AppendDigitBridges` proves that appending a digit to a string the
  live rule accepts gives one the stale rule accepts.

## Model

| member | source | states |
|---|---|---|
| JsValues.Keys | src/cognito.service.ts:485 | `Object.keys` lists each property's key, in order, one per property |
| JsValues.IsString | src/validators/password.validator.ts:21 | `typeof value === "string"`: holds exactly for string values |
| JsValues.Truthy | src/cognito.service.ts:64 | the test `if (error)` performs: `undefined`, `null`, `false`, `0`, `NaN` and `""` are falsy, everything else truthy |
| JsValues.Get | src/cognito.service.ts:489 | a missing key reads `undefined`; otherwise the first property with that key gives the value |
| JsValues.Omit | src/cognito.service.ts:480-484 | the rest object holds exactly the properties whose key is not destructured, and is no longer than the original |
| JsValues.OmitAppend | src/cognito.service.ts:480-484 | the rest of a concatenation is the concatenation of the rests, so the properties keep their order |
| JsValues.GetOmit | src/cognito.service.ts:534-537 | reading the rest gives `undefined` for a destructured key and the original value for any other key |
| JsValues.OmitDistinct | src/cognito.service.ts:534-537 | a rest object of an object with distinct keys has distinct keys |
| JsValues.GetInsertOther | src/dtos/registration/register-user.dto.ts:4-7 | inserting a property with another key anywhere does not change what a key reads |
| JsValues.GetOwn | src/cognito.service.ts:489 | on an object with distinct keys, reading a property's key gives that property's value |
| JsValues.Member | src/cognito.service.ts:503 | `result.user`: an object reads the key, any other truthy value has no such property |
| Promises.SettledIsFinal | src/cognito.service.ts:59-70 | once settled, no later `resolve` or `reject` changes the state |
| Promises.FirstCallDecides | src/cognito.service.ts:59-70 | from pending, the first call decides the final state |
| Promises.RunAppend | src/cognito.service.ts:59-70 | running two call lists in a row is running their concatenation |
| Promises.SecondDeliveryIgnored | src/cognito.service.ts:59-70 | calls after the promise has settled are ignored |
| Promises.Apply | src/cognito.service.ts:59-70 | one `resolve`/`reject` call settles a pending promise and leaves a settled one as it is |
| Promises.Run | src/cognito.service.ts:59-70 | the state after a list of `resolve`/`reject` calls, applied in order |
| Promises.Promise.constructor | src/cognito.service.ts:59 | a new promise is pending |
| Promises.Promise.Resolve | src/cognito.service.ts:67 | `resolve` fulfils a pending promise and leaves a settled one unchanged |
| Promises.Promise.Reject | src/cognito.service.ts:65 | `reject` rejects a pending promise and leaves a settled one unchanged |
| Regex.LookaheadIsContains | src/validators/password.validator.ts:11 | on a string without line terminators, `^(?=.*X)` holds if and only if the string contains a character of class X |
| Regex.LookaheadAtStart | src/validators/password.validator.ts:11 | `^(?=.*X)`: some class-X character occurs with no line terminator before it |
| Regex.IsSpecial | src/validators/password.validator.ts:11 | the bracket class `[$&+,:;=?@#|'<>.^*()%!-]`, every character of it literal |
| ValidationMessage.Message | src/validators/password.validator.ts:23-26 | no message if and only if the value passes the rule; otherwise the rule's default message |
| PasswordValidator.IsValidPassword | src/validators/password.validator.ts:11 | `re.test(s)`: the four lookaheads for a lower-case letter, an upper-case letter, the letter `d` and a special character, at least 8 characters, each from `[A-Za-zd@…]` |
| PasswordValidator.Validate | src/validators/password.validator.ts:20-21 | the value is a string and the pattern accepts it |
| PasswordValidator.InAlphabet | src/validators/password.validator.ts:11 | the final class `[A-Za-zd@…]`: letters, the special characters and `@`, no digit |
| PasswordValidator.Failure | src/validators/password.validator.ts:20-26 | a value draws no error if and only if it is a string the pattern accepts; otherwise the message is "Invalid password" |
| PasswordValidator.Characterisation | src/validators/password.validator.ts:10-12 | the pattern accepts exactly the strings with at least 8 characters that contain a lower-case letter, an upper-case letter, the letter `d` and a special character, and whose every character is a letter or a special character |
| PasswordValidator.AcceptedHasNoDigit | src/validators/password.validator.ts:11 | no accepted password contains a digit |
| PasswordValidator.AcceptedIsLong | src/validators/password.validator.ts:11 | every accepted password has at least 8 characters |
| PasswordValidator.DigitRefused | src/validators/password.validator.ts:9-11 | `Abcdef1!`, a password with the digit the comment asks for, is refused |
| PasswordValidator.LetterDAccepted | src/validators/password.validator.ts:11 | `Abcdefd!` is accepted |
| PasswordValidator.NonStringRefused | src/validators/password.validator.ts:21 | a value that is not a string is refused with "Invalid password" |
| ConfirmationCodeValidator.IsConfirmationCode | src/validators/confirmation-code.validator.ts:9 | `re.test(s)` for `^[0-9]{6}$`: exactly six ASCII digits |
| ConfirmationCodeValidator.Validate | src/validators/confirmation-code.validator.ts:17-18 | the value is a string and the pattern accepts it |
| ConfirmationCodeValidator.Failure | src/validators/confirmation-code.validator.ts:17-23 | a value draws no error if and only if it is a string of exactly six ASCII digits; otherwise the message is "Invalid confirmation code" |
| ConfirmationCodeValidator.DigitValue | src/validators/confirmation-code.validator.ts:9 | a digit character's value is below 10 and writes back as the same character |
| ConfirmationCodeValidator.Padded | src/validators/confirmation-code.validator.ts:9 | the zero-padded decimal text has the requested width and only digits |
| ConfirmationCodeValidator.ValueOfPadded | src/validators/confirmation-code.validator.ts:9 | reading a zero-padded number back gives the number, when it fits the width |
| ConfirmationCodeValidator.PaddedValueOf | src/validators/confirmation-code.validator.ts:9 | a digit string is the zero-padded text of its own value, and that value fits its width |
| ConfirmationCodeValidator.CodesAreSixDigitNumbers | src/validators/confirmation-code.validator.ts:9 | the accepted codes are exactly the six-digit zero-padded texts of the numbers below 1000000, both directions |
| ConfirmationCodeValidator.Examples | src/validators/confirmation-code.validator.ts:9 | a letter, five digits, seven digits and a trailing newline are refused; `000000` and `123456` are accepted |
| ConfirmationCodeValidator.NonStringRefused | src/validators/confirmation-code.validator.ts:18 | a value that is not a string is refused with "Invalid confirmation code" |
| MfaPreferenceTypeValidator.Validate | src/validators/mfa-preference-type.validator.ts:15-18 | the value is the string `totp` or the string `sms` |
| MfaPreferenceTypeValidator.Failure | src/validators/mfa-preference-type.validator.ts:15-23 | a value draws no error if and only if it is accepted; otherwise the message is "Invalid MFA type" |
| MfaPreferenceTypeValidator.Parse | src/validators/mfa-preference-type.validator.ts:15-19 | a value parses to a factor if and only if it is accepted, and it is then that factor's name |
| MfaPreferenceTypeValidator.ParseName | src/validators/mfa-preference-type.validator.ts:17-18 | each factor's name is accepted and parses back to that factor |
| MfaPreferenceTypeValidator.AcceptedSet | src/validators/mfa-preference-type.validator.ts:17-18 | the accepted strings are exactly `sms` and `totp`, case and spacing included |
| MfaPreferenceTypeValidator.NonStringRefused | src/validators/mfa-preference-type.validator.ts:17 | a value that is not a string is refused with "Invalid MFA type" |
| Dtos.IsNotEmpty | src/dtos/base.dto.ts:5 | class-validator's `isNotEmpty`: not `""`, not `null`, not `undefined` |
| Dtos.EmailValid | src/dtos/base.dto.ts:4-6 | the inherited email rule: not empty, a string, and an address by `isEmail` |
| Dtos.ChangePasswordDtoValid | src/dtos/password/change-password.dto.ts:4-10 | a valid email, and both passwords pass the password rule |
| Dtos.ConfirmPasswordDtoValid | src/dtos/password/confirm-password.dto.ts:5-11 | a valid email, a code that passes the confirmation-code rule, and a new password that passes the password rule |
| Dtos.ConfirmRegistrationDtoValid | src/dtos/registration/confirm-registration.dto.ts:4-7 | a valid email and a code that passes the confirmation-code rule |
| Dtos.SetUserMfaPreferenceDtoValid | src/dtos/mfa/set-user-mfa-preference.dto.ts:4-7 | a valid email and a type that passes the MFA-type rule |
| Dtos.AuthenticateUserDtoValid | src/dtos/auth/authenticate-user.dto.ts:4-7 | a valid email and a password that passes the password rule |
| Dtos.RegisterUserDtoValid | src/dtos/registration/register-user.dto.ts:4-7 | the object's `email` is valid and its `password` passes the password rule; other properties are free |
| Dtos.ChangePasswordDigitFree | src/dtos/password/change-password.dto.ts:4-10 | a valid request has a valid email and two string passwords of at least 8 characters, neither with a digit |
| Dtos.ChangePasswordMayReuse | src/dtos/password/change-password.dto.ts:4-10 | a request whose new password equals its current one is valid if and only if its email and that password are valid; `a@b.com` with `Abcdefd!` twice is one |
| Dtos.ConfirmPasswordFields | src/dtos/password/confirm-password.dto.ts:5-11 | a valid request has a code that is some number below 1000000 written with six digits, and a digit-free new password of at least 8 characters |
| Dtos.ConfirmRegistrationCodes | src/dtos/registration/confirm-registration.dto.ts:4-7 | a string code is valid, given a valid email, if and only if it is some number below 1000000 written with six digits; any non-digit in the code makes the request invalid |
| Dtos.SetUserMfaPreferenceFields | src/dtos/mfa/set-user-mfa-preference.dto.ts:4-7 | a valid request names `sms` or `totp`; `SMS` makes it invalid |
| Dtos.AuthenticateUserRefusals | src/dtos/auth/authenticate-user.dto.ts:4-7 | a password shorter than 8 characters, or one with a digit, makes the request invalid |
| Dtos.RegisterExtraFieldsFree | src/dtos/registration/register-user.dto.ts:4-7 | adding a property other than `email` or `password`, anywhere, does not change validity |
| Dtos.RegisterRefusesWeakPasswords | src/dtos/registration/register-user.dto.ts:4-7 | a registration whose password is shorter than 8 characters, or has a digit, is invalid, whatever else it holds |
| LegacyDto.IsStrongPassword | src/dto/confirm-password.dto.ts:14 | the `\d` pattern: lookaheads for a lower-case letter, an upper-case letter, a digit and a special character, at least 8 characters, each from `[A-Za-z\d@…]` |
| LegacyDto.InAlphabet | src/dto/confirm-password.dto.ts:14 | the final class `[A-Za-z\d@…]`: letters, digits, the special characters and `@` |
| LegacyDto.MatchesPassword | src/dto/confirm-password.dto.ts:12-16 | `@Matches`: the value is a string and the `\d` pattern accepts it |
| LegacyDto.ConfirmPasswordDtoValid | src/dto/confirm-password.dto.ts:4-17 | email not empty and an address; code not empty and a string; new password not empty and matching the `\d` pattern |
| LegacyDto.PasswordFailure | src/dto/confirm-password.dto.ts:12-16 | no error if and only if the value matches the `\d` pattern; otherwise the message is "invalid password" |
| LegacyDto.Characterisation | src/dto/confirm-password.dto.ts:14 | the `\d` pattern accepts exactly the strings with at least 8 characters that contain a lower-case letter, an upper-case letter, a digit and a special character, and whose every character is a letter, a digit or a special character |
| LegacyDto.DigitAccepted | src/dto/confirm-password.dto.ts:14 | `Abcdef1!` matches the `\d` pattern and is refused by the live rule |
| LegacyDto.RulesDisjoint | src/dto/confirm-password.dto.ts:14 | no string is accepted by both password rules |
| LegacyDto.AppendDigitBridges | src/dto/confirm-password.dto.ts:14 | a password the live rule accepts, with a digit appended, matches the `\d` pattern |
| LegacyDto.CodeUnconstrained | src/dto/confirm-password.dto.ts:8-10 | any non-empty string is a valid code in this record |
| LegacyDto.CurrentStricterOnCode | src/dtos/password/confirm-password.dto.ts:6-7 | a code `abc` passes this record and fails the live record |
| LegacyDto.CurrentRefusesDigits | src/dtos/password/confirm-password.dto.ts:9-10 | a new password with a digit fails the live record whatever the other fields; the stale record accepts it, with a valid email and a non-empty string code, if and only if it matches the `\d` pattern |
| LegacyDto.NoPasswordValidUnderBoth | src/dto/confirm-password.dto.ts:12-16 | no new password makes both confirm-password records valid |
| Attributes.AttributesOf | src/cognito.service.ts:485-491 | one attribute per property |
| Attributes.RegisterAttributes | src/cognito.service.ts:480-491 | the attributes built from the fields left after destructuring `email` and `password` |
| Attributes.UpdateAttributes | src/cognito.service.ts:534-549 | the attributes built from the fields left after destructuring `email` |
| Attributes.AttributeAt | src/cognito.service.ts:485-491 | attribute `i` carries the name and value of property `i` |
| Attributes.AttributesMirrorProperties | src/cognito.service.ts:485-491 | the attribute list mirrors the property list, position by position |
| Attributes.ValueNamedOf | src/cognito.service.ts:489 | looking a name up among the attributes gives what the object reads for that key |
| Attributes.ReadBack | src/cognito.service.ts:480-491 | an attribute read back by name gives `undefined` for a destructured field and the request's value otherwise |
| Attributes.AttributeMembership | src/cognito.service.ts:485-491 | an attribute is in the list if and only if the matching property is in the object |
| Attributes.RestAttributesExact | src/cognito.service.ts:480-491 | the attributes are exactly the properties whose key is not destructured |
| Attributes.AttributeValuesAreLookups | src/cognito.service.ts:485-491 | on an object with distinct keys, every attribute's value is what the object reads for its name, `rest[key]` |
| Attributes.RegisterAttributesExact | src/cognito.service.ts:480-491 | sign-up attributes are exactly the fields other than `email` and `password`; with distinct keys, one per such field |
| Attributes.UpdateAttributesExact | src/cognito.service.ts:534-549 | update attributes are exactly the fields other than `email`; with distinct keys, one per such field |
| Attributes.OmitCount | src/cognito.service.ts:480-484 | with distinct keys, the rest has as many properties as the original minus the destructured keys present |
| Callbacks.NodeOutcome | src/cognito.service.ts:63-68 | a truthy error rejects with the error; otherwise the promise is fulfilled with the result |
| Callbacks.NodeActions | src/cognito.service.ts:63-68 | the calls of `if (error) { reject(error); } resolve(result);`: a reject for a truthy error, then always a resolve |
| Callbacks.NodeCallbackTwice | src/cognito.service.ts:63-68 | if the callback fired twice, the first answer would still decide |
| Callbacks.RegisterOutcome | src/cognito.service.ts:499-505 | a truthy result fulfils with its `user`, even when an error comes with it; otherwise the error rejects |
| Callbacks.RegisterActions | src/cognito.service.ts:499-505 | one reject with the error when the result is falsy, otherwise one resolve with `result.user` |
| Callbacks.RegisterPolicyDiffers | src/cognito.service.ts:499-505 | register's policy and the error-first policy disagree on an answer with both error and result, and on one with neither |
| Callbacks.ReplyOutcome | src/cognito.service.ts:264-271 | `onSuccess`'s value fulfils and `onFailure`'s error rejects, unchanged |
| Callbacks.ReplyActions | src/cognito.service.ts:264-271 | `onSuccess` resolves with its value, `onFailure` rejects with its error |
| Callbacks.ForgotPasswordOutcome | src/cognito.service.ts:166-176 | the service's own callbacks settle as `onSuccess`/`onFailure` do; the forwarded `inputVerificationCode` leaves the promise pending |
| Callbacks.TokenPair | src/cognito.service.ts:117-120 | the login result has exactly the keys `accessToken` and `refreshToken`, holding the session's two tokens |
| Callbacks.AuthenticateOutcome | src/cognito.service.ts:112-132 | success fulfils with the session's token pair, failure rejects with the provider's error, and a forwarded callback leaves the promise pending |
| Callbacks.AuthenticateActions | src/cognito.service.ts:112-131 | `onSuccess` resolves with the token pair, `onFailure` rejects, and a forwarded callback makes no call |
| Callbacks.ChangeReturnRedundant | src/cognito.service.ts:224-230 | the early `return` changes nothing: the inner callback settles as the error-first callbacks do |
| Callbacks.ChangeActions | src/cognito.service.ts:224-230 | a truthy error rejects and returns; otherwise one resolve with the result |
| Callbacks.ChangePasswordOutcome | src/cognito.service.ts:218-237 | a failed authentication rejects with its error; after a successful one, the change call's answer decides, error first |
| Callbacks.SignOutNeverRejects | src/cognito.service.ts:249-251 | once the sign-out callback has fired, the promise is fulfilled with `undefined`, whatever follows |
| Callbacks.SignOutActions | src/cognito.service.ts:250 | signOut's callback `() => resolve()` makes one call, a resolve with `undefined` |
| Callbacks.ResultDetails | src/cognito.service.ts:556 | the update result has exactly the keys `result` and `details`, holding the provider's two values |
| Service.MfaRequestFor | src/cognito.service.ts:287-300 | the SMS settings are present if and only if the type is `sms`, and the software-token settings if and only if it is `totp`; present settings are preferred and enabled |
| Service.ValidPreferenceSelectsOneFactor | src/cognito.service.ts:287-300 | for a valid request, exactly one factor gets settings, and it is the factor the request names |
| Service.NeverBothFactors | src/cognito.service.ts:287-300 | no type gives settings to both factors; a refused type sends `null` for both |
| Service.DisableDiffersFromEveryPreference | src/cognito.service.ts:326-334 | disabling sends both factors, not preferred and not enabled, which no preference request does |
| Service.DisableMfaRequest | src/cognito.service.ts:326-334 | disableMFA sends both factors as `{ PreferredMfa: false, Enabled: false }` |
| Service.ChangeOnlyAfterAuthentication | src/cognito.service.ts:218-236 | authentication with the current password comes first; the change call happens if and only if it succeeds, after it, with the current and new passwords; a failed authentication rejects with its error |
| Service.Nullish | src/cognito.service.ts:380 | `paginationToken ?? null`: `null` and `undefined` give the fallback, any other value itself |
| Service.ChangePasswordCalls | src/cognito.service.ts:218-236 | the authentication call, then the change call only when the authentication succeeds |
| Service.NodeCallback | src/cognito.service.ts:63-68 | the in-place promise ends as the error-first call list leaves it |
| Service.ReplyCallback | src/cognito.service.ts:264-271 | the in-place promise ends as the `onSuccess`/`onFailure` call list leaves it |
| Service.CognitoService.constructor | src/cognito.service.ts:40-45 | the pool is built from the two environment ids, and no call has been made |
| Service.CognitoService.User | src/cognito.service.ts:54-57 | `new CognitoUser({ Username: email, Pool: this.userPool })`: the request's email with the service's pool |
| Service.CognitoService.ConfirmRegistration | src/cognito.service.ts:50-71 | one call with the code and `forceAliasCreation = true`; the promise ends as `NodeOutcome` says |
| Service.CognitoService.ResendConfirmation | src/cognito.service.ts:76-90 | one resend call for the email's user; the promise ends as `NodeOutcome` says |
| Service.CognitoService.AuthenticateUser | src/cognito.service.ts:95-133 | one authentication call with the request's email and password; the promise ends as `AuthenticateOutcome` says |
| Service.CognitoService.GetUserData | src/cognito.service.ts:138-152 | one user-data call; the promise ends as `NodeOutcome` says |
| Service.CognitoService.ForgotPassword | src/cognito.service.ts:157-177 | one forgot-password call; the promise ends as `ForgotPasswordOutcome` says |
| Service.CognitoService.ConfirmPassword | src/cognito.service.ts:182-202 | one call with the code and new password; the promise ends as `ReplyOutcome` says |
| Service.CognitoService.ChangePassword | src/cognito.service.ts:207-238 | the calls are `ChangePasswordCalls`; the promise ends as `ChangePasswordOutcome` says |
| Service.CognitoService.SignOut | src/cognito.service.ts:243-252 | one sign-out call; the promise is fulfilled with `undefined` |
| Service.CognitoService.GlobalSignOut | src/cognito.service.ts:257-273 | one global sign-out call; the promise ends as `ReplyOutcome` says |
| Service.CognitoService.SetUserMfaPreference | src/cognito.service.ts:278-314 | one preference call with `MfaRequestFor` of the type; the promise ends as `NodeOutcome` says |
| Service.CognitoService.DisableMfa | src/cognito.service.ts:319-343 | one preference call with both factors disabled; the promise ends as `NodeOutcome` says |
| Service.CognitoService.GetDevice | src/cognito.service.ts:348-364 | one get-device call; the promise ends as `ReplyOutcome` says |
| Service.CognitoService.ListDevices | src/cognito.service.ts:369-389 | one call with the limit and the pagination token, `null` when missing; the promise ends as `ReplyOutcome` says |
| Service.CognitoService.SetDeviceStatusRemembered | src/cognito.service.ts:394-412 | one remember-device call; the promise ends as `ReplyOutcome` says |
| Service.CognitoService.SetDeviceStatusNotRemembered | src/cognito.service.ts:417-435 | one do-not-remember call; the promise ends as `ReplyOutcome` says |
| Service.CognitoService.ForgetDevice | src/cognito.service.ts:440-456 | one forget-device call; the promise ends as `ReplyOutcome` says |
| Service.CognitoService.DeleteUser | src/cognito.service.ts:461-475 | one delete call; the promise ends as `NodeOutcome` says |
| Service.CognitoService.Register | src/cognito.service.ts:480-508 | one sign-up call on the pool with the email, the password, `RegisterAttributes` of the other fields and `null` validation data; the promise ends as `RegisterOutcome` says |
| Service.CognitoService.GetUserAttributes | src/cognito.service.ts:513-529 | one attributes call; the promise ends as `NodeOutcome` says |
| Service.CognitoService.UpdateAttributes | src/cognito.service.ts:534-559 | one update call with `UpdateAttributes` of the fields other than `email`; a truthy error rejects, otherwise the promise is fulfilled with `{ result, details }` |
| Service.CognitoService.DeleteAttributes | src/cognito.service.ts:564-581 | one call with the request's attribute list; the promise ends as `NodeOutcome` says |

## Left out

- The Cognito client library (`amazon-cognito-identity-js`) is not part of this model. Its answers are parameters, its handles are plain records, and the exceptions its constructors may throw are not modelled.
- The constructor's reads of `process.env` are its two parameters.
- Asynchrony, scheduling and concurrent requests are not modelled. Each provider call gets one answer.
- Promise adoption of thenables is not modelled: `resolve(v)` fulfils with `v` itself.
- The caller's `options` spread after `onSuccess`/`onFailure` in authenticateUser can replace them at run time. It is modelled only as `Forwarded` (a caller callback fires, leaving the promise pending). Its replacement of the service's own callbacks is not modelled.
- In changePassword the authentication passes no challenge handlers (`mfaRequired`, `newPasswordRequired` …). What the library does when such a challenge arises is not modelled.
- What class-validator's `IsEmail` decides is a parameter `isEmail` of every validity predicate. `IsNotEmpty` and `IsString` are modelled by their documented meaning.
- `ListDevicesDto` (`IsNumber`, `IsString` on an optional field) and `DeleteAttributesDto` (`IsArray`, `ArrayNotEmpty`): their shapes are modelled; their validity is not.
- The order in which class-validator collects errors, and a `message` passed through `validationOptions`, are not modelled. The `Failure` functions give the default message.
- JavaScript numbers are reals plus one `NaN` value. Infinities, BigInt, symbols, functions and `String` wrapper objects are not represented. The custom rules' `typeof` test refuses all of them. class-validator's `@IsString()` on the stale record's code would accept a `String` object; the model cannot express one.
- Callback objects are not recorded in the trace. That includes authenticateUser's `...options` and forgotPassword's `inputVerificationCode`. They appear only through the reply parameter: its `Forwarded` case is one of them being invoked. signOut's provider answer carries nothing and is not a parameter.
- Strings are sequences of Unicode scalar values, not UTF-16 code units. A lone surrogate cannot be written. Every character the three custom patterns and the `\d` pattern accept is ASCII, so their languages are unaffected. The stale record's `@IsString()` code also accepts strings with lone surrogates, which the model cannot write.
- `Object.keys` puts integer-like keys first. Objects here are property lists already in enumeration order.
- Wiring (`src/cognito.module.ts`), controllers and the DTO index are not part of this model.
- What the provider stores (MFA state, attributes, devices) is not modelled. Reading back what an update wrote cannot be stated; only what the service sends is.
