/**
 * CognitoService: every operation builds a provider handle for the request's
 * email, creates a promise, issues one provider call (changePassword: two,
 * the second from inside the first's `onSuccess`) and lets the provider's
 * answer drive the promise through the callback bodies of Callbacks. The
 * provider is abstract: its answer is a parameter of each operation, and the
 * calls it receives are recorded in the ghost trace `calls`.
 */
module Service {
  import opened Wrappers
  import opened JsValues
  import opened Promises
  import opened Callbacks
  import opened Dtos
  import opened Attributes
  import MfaPreferenceTypeValidator

  /** The pool ids the constructor reads from the environment. */
  datatype PoolConfig = PoolConfig(userPoolId: JsValue, clientId: JsValue)

  /** `new CognitoUser({ Username, Pool })` */
  datatype UserHandle = UserHandle(username: JsValue, pool: PoolConfig)

  /** `new AuthenticationDetails({ Username, Password })` */
  datatype AuthenticationDetails = AuthenticationDetails(username: JsValue, password: JsValue)

  /** The `{ PreferredMfa, Enabled }` settings object of one factor. */
  datatype MfaSettings = MfaSettings(preferredMfa: bool, enabled: bool)

  /** The settings for SMS and for software tokens; `None` is `null`. */
  datatype MfaRequest = MfaRequest(sms: Option<MfaSettings>, softwareToken: Option<MfaSettings>)

  /** A call the service makes on the provider, with the arguments it passes. */
  datatype ProviderCall =
    | ConfirmRegistrationCall(user: UserHandle, code: JsValue, forceAliasCreation: bool)
    | ResendConfirmationCodeCall(user: UserHandle)
    | AuthenticateUserCall(user: UserHandle, details: AuthenticationDetails)
    | GetUserDataCall(user: UserHandle)
    | ForgotPasswordCall(user: UserHandle)
    | ConfirmPasswordCall(user: UserHandle, code: JsValue, newPassword: JsValue)
    | ChangePasswordCall(user: UserHandle, oldPassword: JsValue, newPassword: JsValue)
    | SignOutCall(user: UserHandle)
    | GlobalSignOutCall(user: UserHandle)
    | SetUserMfaPreferenceCall(user: UserHandle, request: MfaRequest)
    | GetDeviceCall(user: UserHandle)
    | ListDevicesCall(user: UserHandle, limit: JsValue, paginationToken: JsValue)
    | SetDeviceStatusRememberedCall(user: UserHandle)
    | SetDeviceStatusNotRememberedCall(user: UserHandle)
    | ForgetDeviceCall(user: UserHandle)
    | DeleteUserCall(user: UserHandle)
    | SignUpCall(pool: PoolConfig, username: JsValue, password: JsValue, attributes: seq<Attribute>, validationData: JsValue)
    | GetUserAttributesCall(user: UserHandle)
    | UpdateAttributesCall(user: UserHandle, attributes: seq<Attribute>)
    | DeleteAttributesCall(user: UserHandle, attributeList: JsValue)

  const Enabled := MfaSettings(true, true)
  const Disabled := MfaSettings(false, false)

  /** setUserMfaPreference: each factor's settings are `{ PreferredMfa: true,
      Enabled: true }` when `type` names it and `null` otherwise. */
  function MfaRequestFor(preferenceType: JsValue): (r: MfaRequest)
    ensures r.sms.Some? <==> preferenceType == JsString("sms")
    ensures r.softwareToken.Some? <==> preferenceType == JsString("totp")
    ensures r.sms.Some? ==> r.sms.value == Enabled
    ensures r.softwareToken.Some? ==> r.softwareToken.value == Enabled
  {
    MfaRequest(
      if preferenceType == JsString("sms") then Some(Enabled) else None,
      if preferenceType == JsString("totp") then Some(Enabled) else None)
  }

  /** disableMFA sends both factors as `{ PreferredMfa: false, Enabled: false }`. */
  const DisableMfaRequest := MfaRequest(Some(Disabled), Some(Disabled))

  /** For a valid request exactly one factor gets settings, enabled and
      preferred, and it is the factor the request names; the other is `null`. */
  lemma ValidPreferenceSelectsOneFactor(d: SetUserMfaPreferenceDto, isEmail: string -> bool)
    requires SetUserMfaPreferenceDtoValid(d, isEmail)
    ensures var r := MfaRequestFor(d.preferenceType);
      && (r.sms.Some? != r.softwareToken.Some?)
      && (r.sms.Some? <==> MfaPreferenceTypeValidator.Parse(d.preferenceType) == Some(MfaPreferenceTypeValidator.Sms))
      && (r.softwareToken.Some? <==> MfaPreferenceTypeValidator.Parse(d.preferenceType) == Some(MfaPreferenceTypeValidator.Totp))
  {
    assert JsString("sms") != JsString("totp") by {
      assert |"sms"| != |"totp"|;
    }
  }

  /** The two factors never both get settings, valid request or not; a type the
      validator refuses sends `null` for both. */
  lemma NeverBothFactors(t: JsValue)
    ensures !(MfaRequestFor(t).sms.Some? && MfaRequestFor(t).softwareToken.Some?)
    ensures !MfaPreferenceTypeValidator.Validate(t) ==> MfaRequestFor(t) == MfaRequest(None, None)
  {
    assert JsString("sms") != JsString("totp") by {
      assert |"sms"| != |"totp"|;
    }
  }

  /** Disabling turns both factors off, which no preference request does. */
  lemma DisableDiffersFromEveryPreference(t: JsValue)
    ensures DisableMfaRequest.sms.Some? && DisableMfaRequest.softwareToken.Some?
    ensures !DisableMfaRequest.sms.value.enabled && !DisableMfaRequest.softwareToken.value.enabled
    ensures MfaRequestFor(t) != DisableMfaRequest
  {
    NeverBothFactors(t);
  }

  /** `v ?? fallback` */
  function Nullish(v: JsValue, fallback: JsValue): JsValue {
    if v == JsNull || v == JsUndefined then fallback else v
  }

  /** changePassword's provider calls: the authentication with the current
      password, then, only from its `onSuccess`, the change. */
  function ChangePasswordCalls(user: UserHandle, d: ChangePasswordDto, auth: Reply<Session>): seq<ProviderCall> {
    [AuthenticateUserCall(user, AuthenticationDetails(d.email, d.currentPassword))]
    + if auth.OnSuccess? then [ChangePasswordCall(user, d.currentPassword, d.newPassword)] else []
  }

  /** The change is attempted if and only if the authentication succeeded, and
      then with the request's current and new passwords, after the
      authentication; a failed authentication leaves the promise rejected with
      its error and nothing changed. */
  lemma ChangeOnlyAfterAuthentication(user: UserHandle, d: ChangePasswordDto, auth: Reply<Session>, change: NodeReply)
    ensures var cs := ChangePasswordCalls(user, d, auth);
      && cs[0] == AuthenticateUserCall(user, AuthenticationDetails(d.email, d.currentPassword))
      && ((exists i :: 0 <= i < |cs| && cs[i].ChangePasswordCall?) <==> auth.OnSuccess?)
      && (forall i :: 0 <= i < |cs| && cs[i].ChangePasswordCall? ==>
            i > 0 && cs[i] == ChangePasswordCall(user, d.currentPassword, d.newPassword))
    ensures auth.OnFailure? ==> ChangePasswordOutcome(auth, change) == Rejected(auth.error)
  {
    var cs := ChangePasswordCalls(user, d, auth);
    if auth.OnSuccess? {
      assert cs[1].ChangePasswordCall?;
    }
  }

  /** Settles `p` as a Node-style callback answered with `r` does. */
  method NodeCallback(p: Promise, r: NodeReply)
    modifies p
    ensures p.state == Run(old(p.state), NodeActions(r))
  {
    ghost var s0 := p.state;
    if Truthy(r.error) {
      p.Reject(r.error);
    }
    ghost var s1 := p.state;
    p.Resolve(r.result);
    ghost var last := [ResolveCall(r.result)];
    assert last[1..] == [];
    assert Run(s1, last) == p.state;
    if Truthy(r.error) {
      assert NodeActions(r)[1..] == last;
    } else {
      assert NodeActions(r) == last;
    }
  }

  /** Settles `p` as an `onSuccess`/`onFailure` pair answered with `r` does. */
  method ReplyCallback(p: Promise, r: Reply<JsValue>)
    modifies p
    ensures p.state == Run(old(p.state), ReplyActions(r))
  {
    match r
    case OnSuccess(v) => p.Resolve(v);
    case OnFailure(e) => p.Reject(e);
  }

  class CognitoService {
    const userPool: PoolConfig
    ghost var calls: seq<ProviderCall>

    /** The pool ids are what the environment holds. */
    constructor (userPoolId: JsValue, clientId: JsValue)
      ensures userPool == PoolConfig(userPoolId, clientId)
      ensures calls == []
    {
      userPool := PoolConfig(userPoolId, clientId);
      calls := [];
    }

    function User(email: JsValue): UserHandle {
      UserHandle(email, userPool)
    }

    method ConfirmRegistration(dto: ConfirmRegistrationDto, reply: NodeReply) returns (p: Promise)
      modifies this
      ensures fresh(p)
      ensures calls == old(calls) + [ConfirmRegistrationCall(User(dto.email), dto.confirmationCode, true)]
      ensures p.state == NodeOutcome(reply)
    {
      var user := User(dto.email);
      p := new Promise();
      calls := calls + [ConfirmRegistrationCall(user, dto.confirmationCode, true)];
      NodeCallback(p, reply);
    }

    method ResendConfirmation(email: JsValue, reply: NodeReply) returns (p: Promise)
      modifies this
      ensures fresh(p)
      ensures calls == old(calls) + [ResendConfirmationCodeCall(User(email))]
      ensures p.state == NodeOutcome(reply)
    {
      var user := User(email);
      p := new Promise();
      calls := calls + [ResendConfirmationCodeCall(user)];
      NodeCallback(p, reply);
    }

    method AuthenticateUser(dto: AuthenticateUserDto, reply: Forwardable<Session>) returns (p: Promise)
      modifies this
      ensures fresh(p)
      ensures calls == old(calls) + [AuthenticateUserCall(User(dto.email), AuthenticationDetails(dto.email, dto.password))]
      ensures p.state == AuthenticateOutcome(reply)
    {
      var details := AuthenticationDetails(dto.email, dto.password);
      var user := User(dto.email);
      p := new Promise();
      calls := calls + [AuthenticateUserCall(user, details)];
      match reply
      case Forwarded =>
      case Own(OnSuccess(session)) => p.Resolve(TokenPair(session));
      case Own(OnFailure(error)) => p.Reject(error);
    }

    method GetUserData(email: JsValue, reply: NodeReply) returns (p: Promise)
      modifies this
      ensures fresh(p)
      ensures calls == old(calls) + [GetUserDataCall(User(email))]
      ensures p.state == NodeOutcome(reply)
    {
      var user := User(email);
      p := new Promise();
      calls := calls + [GetUserDataCall(user)];
      NodeCallback(p, reply);
    }

    method ForgotPassword(email: JsValue, reply: Forwardable<JsValue>) returns (p: Promise)
      modifies this
      ensures fresh(p)
      ensures calls == old(calls) + [ForgotPasswordCall(User(email))]
      ensures p.state == ForgotPasswordOutcome(reply)
    {
      var user := User(email);
      p := new Promise();
      calls := calls + [ForgotPasswordCall(user)];
      match reply
      case Forwarded =>
      case Own(r) => ReplyCallback(p, r);
    }

    method ConfirmPassword(dto: Dtos.ConfirmPasswordDto, reply: Reply<JsValue>) returns (p: Promise)
      modifies this
      ensures fresh(p)
      ensures calls == old(calls) + [ConfirmPasswordCall(User(dto.email), dto.confirmationCode, dto.newPassword)]
      ensures p.state == ReplyOutcome(reply)
    {
      var user := User(dto.email);
      p := new Promise();
      calls := calls + [ConfirmPasswordCall(user, dto.confirmationCode, dto.newPassword)];
      ReplyCallback(p, reply);
    }

    /** The change call is issued only from the authentication's `onSuccess`;
        `change` is the provider's answer to it and is not consulted otherwise. */
    method ChangePassword(dto: ChangePasswordDto, auth: Reply<Session>, change: NodeReply) returns (p: Promise)
      modifies this
      ensures fresh(p)
      ensures calls == old(calls) + ChangePasswordCalls(User(dto.email), dto, auth)
      ensures p.state == ChangePasswordOutcome(auth, change)
    {
      var details := AuthenticationDetails(dto.email, dto.currentPassword);
      var user := User(dto.email);
      p := new Promise();
      calls := calls + [AuthenticateUserCall(user, details)];
      match auth
      case OnSuccess(_) =>
        calls := calls + [ChangePasswordCall(user, dto.currentPassword, dto.newPassword)];
        if Truthy(change.error) {
          p.Reject(change.error);
          return;
        }
        p.Resolve(change.result);
      case OnFailure(err) =>
        p.Reject(err);
    }

    /** There is no reject path: the promise is fulfilled once the provider's
        callback fires. */
    method SignOut(email: JsValue) returns (p: Promise)
      modifies this
      ensures fresh(p)
      ensures calls == old(calls) + [SignOutCall(User(email))]
      ensures p.state == Fulfilled(JsUndefined)
    {
      var user := User(email);
      p := new Promise();
      calls := calls + [SignOutCall(user)];
      p.Resolve(JsUndefined);
    }

    method GlobalSignOut(email: JsValue, reply: Reply<JsValue>) returns (p: Promise)
      modifies this
      ensures fresh(p)
      ensures calls == old(calls) + [GlobalSignOutCall(User(email))]
      ensures p.state == ReplyOutcome(reply)
    {
      var user := User(email);
      p := new Promise();
      calls := calls + [GlobalSignOutCall(user)];
      ReplyCallback(p, reply);
    }

    method SetUserMfaPreference(dto: SetUserMfaPreferenceDto, reply: NodeReply) returns (p: Promise)
      modifies this
      ensures fresh(p)
      ensures calls == old(calls) + [SetUserMfaPreferenceCall(User(dto.email), MfaRequestFor(dto.preferenceType))]
      ensures p.state == NodeOutcome(reply)
    {
      var user := User(dto.email);
      var request := MfaRequestFor(dto.preferenceType);
      p := new Promise();
      calls := calls + [SetUserMfaPreferenceCall(user, request)];
      NodeCallback(p, reply);
    }

    method DisableMfa(email: JsValue, reply: NodeReply) returns (p: Promise)
      modifies this
      ensures fresh(p)
      ensures calls == old(calls) + [SetUserMfaPreferenceCall(User(email), DisableMfaRequest)]
      ensures p.state == NodeOutcome(reply)
    {
      var user := User(email);
      p := new Promise();
      calls := calls + [SetUserMfaPreferenceCall(user, DisableMfaRequest)];
      NodeCallback(p, reply);
    }

    method GetDevice(email: JsValue, reply: Reply<JsValue>) returns (p: Promise)
      modifies this
      ensures fresh(p)
      ensures calls == old(calls) + [GetDeviceCall(User(email))]
      ensures p.state == ReplyOutcome(reply)
    {
      var user := User(email);
      p := new Promise();
      calls := calls + [GetDeviceCall(user)];
      ReplyCallback(p, reply);
    }

    /** A missing or `null` pagination token is sent as `null`. */
    method ListDevices(dto: ListDevicesDto, reply: Reply<JsValue>) returns (p: Promise)
      modifies this
      ensures fresh(p)
      ensures calls == old(calls) + [ListDevicesCall(User(dto.email), dto.limit, Nullish(dto.paginationToken, JsNull))]
      ensures p.state == ReplyOutcome(reply)
    {
      var user := User(dto.email);
      p := new Promise();
      calls := calls + [ListDevicesCall(user, dto.limit, Nullish(dto.paginationToken, JsNull))];
      ReplyCallback(p, reply);
    }

    method SetDeviceStatusRemembered(email: JsValue, reply: Reply<JsValue>) returns (p: Promise)
      modifies this
      ensures fresh(p)
      ensures calls == old(calls) + [SetDeviceStatusRememberedCall(User(email))]
      ensures p.state == ReplyOutcome(reply)
    {
      var user := User(email);
      p := new Promise();
      calls := calls + [SetDeviceStatusRememberedCall(user)];
      ReplyCallback(p, reply);
    }

    method SetDeviceStatusNotRemembered(email: JsValue, reply: Reply<JsValue>) returns (p: Promise)
      modifies this
      ensures fresh(p)
      ensures calls == old(calls) + [SetDeviceStatusNotRememberedCall(User(email))]
      ensures p.state == ReplyOutcome(reply)
    {
      var user := User(email);
      p := new Promise();
      calls := calls + [SetDeviceStatusNotRememberedCall(user)];
      ReplyCallback(p, reply);
    }

    method ForgetDevice(email: JsValue, reply: Reply<JsValue>) returns (p: Promise)
      modifies this
      ensures fresh(p)
      ensures calls == old(calls) + [ForgetDeviceCall(User(email))]
      ensures p.state == ReplyOutcome(reply)
    {
      var user := User(email);
      p := new Promise();
      calls := calls + [ForgetDeviceCall(user)];
      ReplyCallback(p, reply);
    }

    method DeleteUser(email: JsValue, reply: NodeReply) returns (p: Promise)
      modifies this
      ensures fresh(p)
      ensures calls == old(calls) + [DeleteUserCall(User(email))]
      ensures p.state == NodeOutcome(reply)
    {
      var user := User(email);
      p := new Promise();
      calls := calls + [DeleteUserCall(user)];
      NodeCallback(p, reply);
    }

    /** Sign-up goes to the pool with the fields other than `email` and
        `password` as attributes and `null` validation data; the result's
        presence decides the outcome. The request is a JavaScript object, so its
        keys are distinct. */
    method Register(dto: RegisterUserDto, reply: NodeReply) returns (p: Promise)
      requires DistinctKeys(dto.fields)
      modifies this
      ensures fresh(p)
      ensures calls == old(calls) + [SignUpCall(userPool, Get(dto.fields, "email"), Get(dto.fields, "password"), RegisterAttributes(dto.fields), JsNull)]
      ensures p.state == RegisterOutcome(reply)
    {
      var userAttributes := RegisterAttributes(dto.fields);
      p := new Promise();
      calls := calls + [SignUpCall(userPool, Get(dto.fields, "email"), Get(dto.fields, "password"), userAttributes, JsNull)];
      if !Truthy(reply.result) {
        p.Reject(reply.error);
      } else {
        p.Resolve(Member(reply.result, "user"));
      }
    }

    method GetUserAttributes(email: JsValue, reply: NodeReply) returns (p: Promise)
      modifies this
      ensures fresh(p)
      ensures calls == old(calls) + [GetUserAttributesCall(User(email))]
      ensures p.state == NodeOutcome(reply)
    {
      var user := User(email);
      p := new Promise();
      calls := calls + [GetUserAttributesCall(user)];
      NodeCallback(p, reply);
    }

    /** The fields other than `email` become attributes; a falsy error resolves
        `{ result, details }`. The request is a JavaScript object, so its keys
        are distinct. */
    method UpdateAttributes(fields: seq<Property>, error: JsValue, result: JsValue, details: JsValue) returns (p: Promise)
      requires DistinctKeys(fields)
      modifies this
      ensures fresh(p)
      ensures calls == old(calls) + [UpdateAttributesCall(User(Get(fields, "email")), Attributes.UpdateAttributes(fields))]
      ensures p.state == NodeOutcome(NodeReply(error, ResultDetails(result, details)))
    {
      var user := User(Get(fields, "email"));
      var userAttributes := Attributes.UpdateAttributes(fields);
      p := new Promise();
      calls := calls + [UpdateAttributesCall(user, userAttributes)];
      NodeCallback(p, NodeReply(error, ResultDetails(result, details)));
    }

    method DeleteAttributes(dto: DeleteAttributesDto, reply: NodeReply) returns (p: Promise)
      modifies this
      ensures fresh(p)
      ensures calls == old(calls) + [DeleteAttributesCall(User(dto.email), dto.attributeList)]
      ensures p.state == NodeOutcome(reply)
    {
      var user := User(dto.email);
      p := new Promise();
      calls := calls + [DeleteAttributesCall(user, dto.attributeList)];
      NodeCallback(p, reply);
    }
  }
}
