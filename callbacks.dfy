/**
 * The callback bodies through which the service settles its promises, each
 * written as the sequence of `resolve`/`reject` calls it makes, with the
 * state a fresh promise ends in. The provider's answer to a call is a value
 * of this module: the `(error, result)` pair it passes to a Node-style
 * callback, or the `onSuccess`/`onFailure` choice it makes.
 */
module Callbacks {
  import opened JsValues
  import opened Promises

  /** The arguments of a Node-style callback. */
  datatype NodeReply = NodeReply(error: JsValue, result: JsValue)

  /** Which of `onSuccess` and `onFailure` the provider calls, with its argument. */
  datatype Reply<T> = OnSuccess(value: T) | OnFailure(error: JsValue)

  /** For operations that also pass callbacks of the caller's through to the
      provider (authenticateUser's `options`, forgotPassword's
      `inputVerificationCode`): `Forwarded` is the provider calling one of those
      instead, which settles nothing. */
  datatype Forwardable<T> = Own(reply: Reply<T>) | Forwarded

  /** A provider session, by the two tokens authenticateUser reads from it
      (`getAccessToken().getJwtToken()`, `getRefreshToken().getToken()`). */
  datatype Session = Session(accessJwt: string, refreshToken: string)

  /** `(error, result) => { if (error) { reject(error); } resolve(result); }` */
  function NodeActions(r: NodeReply): seq<Action> {
    (if Truthy(r.error) then [RejectCall(r.error)] else []) + [ResolveCall(r.result)]
  }

  /** The error wins when it is truthy, and the `resolve` that follows the
      `reject` has no effect; otherwise the result is the value. */
  function NodeOutcome(r: NodeReply): (s: State)
    ensures Truthy(r.error) ==> s == Rejected(r.error)
    ensures !Truthy(r.error) ==> s == Fulfilled(r.result)
  {
    FirstCallDecides(NodeActions(r));
    Run(Pending, NodeActions(r))
  }

  /** If the provider invoked a Node-style callback a second time, the first
      invocation would still decide the outcome. */
  lemma NodeCallbackTwice(first: NodeReply, second: NodeReply)
    ensures Run(Pending, NodeActions(first) + NodeActions(second)) == NodeOutcome(first)
  {
    FirstCallDecides(NodeActions(first));
    SecondDeliveryIgnored(NodeActions(first), NodeActions(second));
  }

  /** register's callback:
      `(err, result) => { if (!result) { reject(err); } else { resolve(result.user); } }` */
  function RegisterActions(r: NodeReply): seq<Action> {
    if !Truthy(r.result) then [RejectCall(r.error)] else [ResolveCall(Member(r.result, "user"))]
  }

  /** The result's presence decides: a truthy result resolves its `user` even
      when an error came with it; otherwise the error, whatever it is, rejects. */
  function RegisterOutcome(r: NodeReply): (s: State)
    ensures Truthy(r.result) ==> s == Fulfilled(Member(r.result, "user"))
    ensures !Truthy(r.result) ==> s == Rejected(r.error)
  {
    FirstCallDecides(RegisterActions(r));
    Run(Pending, RegisterActions(r))
  }

  /** The two policies disagree on an answer that carries both an error and a
      result, and on one that carries neither. */
  lemma RegisterPolicyDiffers()
    ensures NodeOutcome(NodeReply(JsString("e"), JsObject([Property("user", JsString("u"))]))) == Rejected(JsString("e"))
    ensures RegisterOutcome(NodeReply(JsString("e"), JsObject([Property("user", JsString("u"))]))) == Fulfilled(JsString("u"))
    ensures NodeOutcome(NodeReply(JsNull, JsNull)) == Fulfilled(JsNull)
    ensures RegisterOutcome(NodeReply(JsNull, JsNull)) == Rejected(JsNull)
  {
  }

  /** `{ onSuccess: (result) => { resolve(result); }, onFailure: (error) => { reject(error); } }` */
  function ReplyActions(r: Reply<JsValue>): seq<Action> {
    match r
    case OnSuccess(v) => [ResolveCall(v)]
    case OnFailure(e) => [RejectCall(e)]
  }

  /** The provider's value or error passes through unchanged. */
  function ReplyOutcome(r: Reply<JsValue>): (s: State)
    ensures r.OnSuccess? ==> s == Fulfilled(r.value)
    ensures r.OnFailure? ==> s == Rejected(r.error)
  {
    FirstCallDecides(ReplyActions(r));
    Run(Pending, ReplyActions(r))
  }

  /** forgotPassword: its own callbacks as above; the forwarded
      `inputVerificationCode` settles nothing. */
  function ForgotPasswordOutcome(r: Forwardable<JsValue>): (s: State)
    ensures r.Forwarded? ==> s == Pending
    ensures r.Own? ==> s == ReplyOutcome(r.reply)
  {
    match r
    case Forwarded => Pending
    case Own(reply) => Run(Pending, ReplyActions(reply))
  }

  /** `{ accessToken: ..., refreshToken: ... }` built from a session. */
  function TokenPair(s: Session): (v: JsValue)
    ensures v.JsObject? && Keys(v.props) == ["accessToken", "refreshToken"]
    ensures Get(v.props, "accessToken") == JsString(s.accessJwt)
    ensures Get(v.props, "refreshToken") == JsString(s.refreshToken)
  {
    JsObject([Property("accessToken", JsString(s.accessJwt)), Property("refreshToken", JsString(s.refreshToken))])
  }

  /** authenticateUser's `onSuccess` resolves the token pair, its `onFailure`
      rejects with the provider's error. */
  function AuthenticateActions(r: Forwardable<Session>): seq<Action> {
    match r
    case Forwarded => []
    case Own(OnSuccess(session)) => [ResolveCall(TokenPair(session))]
    case Own(OnFailure(e)) => [RejectCall(e)]
  }

  /** Success yields exactly the two tokens of the session; failure passes the
      provider's error on untouched, so the caller cannot tell one kind of
      rejected login from another beyond what the provider itself says. */
  function AuthenticateOutcome(r: Forwardable<Session>): (s: State)
    ensures r.Forwarded? ==> s == Pending
    ensures r.Own? && r.reply.OnSuccess? ==> s == Fulfilled(TokenPair(r.reply.value))
    ensures r.Own? && r.reply.OnFailure? ==> s == Rejected(r.reply.error)
  {
    match r
    case Forwarded => Pending
    case Own(_) => FirstCallDecides(AuthenticateActions(r)); Run(Pending, AuthenticateActions(r))
  }

  /** changePassword's inner callback:
      `(err, result) => { if (err) { reject(err); return; } resolve(result); }` */
  function ChangeActions(r: NodeReply): seq<Action> {
    if Truthy(r.error) then [RejectCall(r.error)] else [ResolveCall(r.result)]
  }

  /** The early `return` changes nothing: the inner callback settles the
      promise exactly as the Node-style callbacks do. */
  lemma ChangeReturnRedundant(r: NodeReply)
    ensures Run(Pending, ChangeActions(r)) == NodeOutcome(r)
  {
    FirstCallDecides(ChangeActions(r));
  }

  /** changePassword: the authentication's `onFailure` rejects with its error;
      after its `onSuccess` the change call's answer decides. */
  function ChangePasswordOutcome(auth: Reply<Session>, change: NodeReply): (s: State)
    ensures auth.OnFailure? ==> s == Rejected(auth.error)
    ensures auth.OnSuccess? ==> s == NodeOutcome(change)
  {
    match auth
    case OnSuccess(_) => ChangeReturnRedundant(change); Run(Pending, ChangeActions(change))
    case OnFailure(e) => FirstCallDecides([RejectCall(e)]); Run(Pending, [RejectCall(e)])
  }

  /** signOut's callback `() => resolve()`. */
  const SignOutActions: seq<Action> := [ResolveCall(JsUndefined)]

  /** signOut has no reject path: once its callback has fired the promise is
      fulfilled with `undefined`, whatever is called on it afterwards. */
  lemma SignOutNeverRejects(later: seq<Action>)
    ensures Run(Pending, SignOutActions + later) == Fulfilled(JsUndefined)
  {
    FirstCallDecides(SignOutActions + later);
  }

  /** updateAttributes resolves `{ result, details }`. */
  function ResultDetails(result: JsValue, details: JsValue): (v: JsValue)
    ensures v.JsObject? && Keys(v.props) == ["result", "details"]
    ensures Get(v.props, "result") == result && Get(v.props, "details") == details
  {
    JsObject([Property("result", result), Property("details", details)])
  }
}
