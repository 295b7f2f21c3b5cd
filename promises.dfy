/**
 * The JavaScript Promise that every service operation returns, reduced to what
 * the operations rely on: `resolve` and `reject` settle a pending promise, and
 * once settled a promise ignores every later call to either.
 */
module Promises {
  import opened JsValues

  datatype State = Pending | Fulfilled(value: JsValue) | Rejected(reason: JsValue)

  /** A call an executor or callback makes on the promise it was given. */
  datatype Action = ResolveCall(value: JsValue) | RejectCall(reason: JsValue)

  /** The state an action settles a pending promise into. */
  function Settled(a: Action): State {
    match a
    case ResolveCall(v) => Fulfilled(v)
    case RejectCall(e) => Rejected(e)
  }

  /** One call to `resolve` or `reject`: only a pending promise changes. */
  function Apply(s: State, a: Action): State {
    if s.Pending? then Settled(a) else s
  }

  /** A sequence of calls, in the order the callback makes them. */
  function Run(s: State, acts: seq<Action>): State
    decreases |acts|
  {
    if acts == [] then s else Run(Apply(s, acts[0]), acts[1..])
  }

  /** A settled promise stays as it is whatever is called on it afterwards. */
  lemma {:induction false} SettledIsFinal(s: State, acts: seq<Action>)
    requires !s.Pending?
    ensures Run(s, acts) == s
    decreases |acts|
  {
    if acts != [] {
      SettledIsFinal(Apply(s, acts[0]), acts[1..]);
    }
  }

  /** The first call made on a pending promise decides its state for good. */
  lemma {:induction false} FirstCallDecides(acts: seq<Action>)
    requires acts != []
    ensures Run(Pending, acts) == Settled(acts[0])
  {
    SettledIsFinal(Settled(acts[0]), acts[1..]);
  }

  /** Running two call sequences one after the other. */
  lemma {:induction false} RunAppend(s: State, a: seq<Action>, b: seq<Action>)
    ensures Run(s, a + b) == Run(Run(s, a), b)
    decreases |a|
  {
    if a == [] {
      assert a + b == b;
    } else {
      assert (a + b)[1..] == a[1..] + b;
      RunAppend(Apply(s, a[0]), a[1..], b);
    }
  }

  /** Once a callback has settled the promise, a second invocation of any
      callback (a raced or repeated delivery) changes nothing. */
  lemma SecondDeliveryIgnored(a: seq<Action>, b: seq<Action>)
    requires Run(Pending, a) != Pending
    ensures Run(Pending, a + b) == Run(Pending, a)
  {
    RunAppend(Pending, a, b);
    SettledIsFinal(Run(Pending, a), b);
  }

  /** The promise object handed to an executor through `resolve` and `reject`. */
  class Promise {
    var state: State

    /** `new Promise(executor)` before the executor has called anything. */
    constructor ()
      ensures state == Pending
    {
      state := Pending;
    }

    method Resolve(v: JsValue)
      modifies this
      ensures state == Apply(old(state), ResolveCall(v))
      ensures old(state) != Pending ==> state == old(state)
    {
      if state.Pending? {
        state := Fulfilled(v);
      }
    }

    method Reject(e: JsValue)
      modifies this
      ensures state == Apply(old(state), RejectCall(e))
      ensures old(state) != Pending ==> state == old(state)
    {
      if state.Pending? {
        state := Rejected(e);
      }
    }
  }
}
