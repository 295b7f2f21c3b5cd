/**
 * The `IsMFAPreferenceType` decorator: a value is accepted when it is exactly
 * the string "totp" or exactly the string "sms".
 */
module MfaPreferenceTypeValidator {
  import opened Wrappers
  import opened ValidationMessage
  import opened JsValues

  const DefaultMessage := "Invalid MFA type"

  /** The decorator's `validate`. */
  predicate Validate(v: JsValue) {
    IsString(v) && (v.str == "totp" || v.str == "sms")
  }

  /** The message class-validator reports for a field that fails. */
  function Failure(v: JsValue): (m: Option<string>)
    ensures m.None? <==> Validate(v)
    ensures m.Some? ==> m.value == "Invalid MFA type"
  {
    Message(Validate(v), DefaultMessage)
  }

  /** The two factors a user can prefer, as the DTO's `"sms" | "totp"` type. */
  datatype MfaType = Sms | Totp

  function Name(t: MfaType): string {
    match t
    case Sms => "sms"
    case Totp => "totp"
  }

  /** Reading an accepted value as a factor. */
  function Parse(v: JsValue): (r: Option<MfaType>)
    ensures r.Some? <==> Validate(v)
    ensures r.Some? ==> v == JsString(Name(r.value))
  {
    if v == JsString("sms") then Some(Sms)
    else if v == JsString("totp") then Some(Totp)
    else None
  }

  /** Every factor's name is accepted and reads back as that factor. */
  lemma ParseName(t: MfaType)
    ensures Validate(JsString(Name(t))) && Parse(JsString(Name(t))) == Some(t)
  {
  }

  /** The accepted strings form a set of exactly two elements; case and
      surrounding spaces matter. */
  lemma AcceptedSet(s: string)
    ensures Validate(JsString(s)) <==> s in {"sms", "totp"}
    ensures |{"sms", "totp"}| == 2
    ensures !Validate(JsString("SMS")) && !Validate(JsString("TOTP")) && !Validate(JsString(" sms"))
  {
    assert "sms" != "totp" by { assert |"sms"| != |"totp"|; }
    assert "SMS" != "sms" by { assert "SMS"[0] != "sms"[0]; }
    assert "TOTP" != "totp" by { assert "TOTP"[0] != "totp"[0]; }
    assert " sms" != "totp" by { assert " sms"[0] != "totp"[0]; }
  }

  /** A value that is not a string is refused. */
  lemma NonStringRefused(v: JsValue)
    requires !IsString(v)
    ensures Failure(v) == Some("Invalid MFA type")
  {
  }
}
