/**
 * The JavaScript values that reach the validators and the service: what `typeof`,
 * truthiness (`if (v)`, `!v`), property access and object rest-destructuring
 * (`{ email, ...rest }`) do with them.
 */
module JsValues {

  /** A JavaScript value as far as the modelled code inspects it. NaN is its own
      constructor because, with 0, it is the falsy number. */
  datatype JsValue =
    | JsUndefined
    | JsNull
    | JsBool(b: bool)
    | JsNumber(n: real)
    | JsNaN
    | JsString(str: string)
    | JsObject(props: seq<Property>)

  /** An own enumerable property of an object; an object's properties are kept in
      the order in which `Object.keys` enumerates them. */
  datatype Property = Property(key: string, value: JsValue)

  /** `typeof v === "string"` */
  predicate IsString(v: JsValue) {
    v.JsString?
  }

  /** ECMAScript ToBoolean: the test that `if (v)` and `!v` perform. */
  predicate Truthy(v: JsValue) {
    match v
    case JsUndefined => false
    case JsNull => false
    case JsBool(b) => b
    case JsNumber(n) => n != 0.0
    case JsNaN => false
    case JsString(s) => s != ""
    case JsObject(_) => true
  }

  /** The keys of an object in enumeration order (`Object.keys`). */
  function Keys(props: seq<Property>): (ks: seq<string>)
    ensures |ks| == |props|
    ensures forall i :: 0 <= i < |props| ==> ks[i] == props[i].key
  {
    if props == [] then [] else [props[0].key] + Keys(props[1..])
  }

  /** The keys of an object as a set. */
  function KeySet(props: seq<Property>): set<string> {
    set p | p in props :: p.key
  }

  /** JavaScript objects never hold two properties with the same key. */
  predicate DistinctKeys(props: seq<Property>) {
    forall i, j :: 0 <= i < j < |props| ==> props[i].key != props[j].key
  }

  /** Reading `o[key]` on an object: the value of the property with that key,
      `undefined` when there is none. */
  function Get(props: seq<Property>, key: string): (v: JsValue)
    ensures (forall i :: 0 <= i < |props| ==> props[i].key != key) ==> v == JsUndefined
    ensures forall i :: (0 <= i < |props| && props[i].key == key &&
                         (forall j :: 0 <= j < i ==> props[j].key != key)) ==> v == props[i].value
  {
    if props == [] then JsUndefined
    else if props[0].key == key then props[0].value
    else Get(props[1..], key)
  }

  /** With distinct keys, reading a property's key gives that property's value. */
  lemma GetOwn(props: seq<Property>, p: Property)
    requires DistinctKeys(props) && p in props
    ensures Get(props, p.key) == p.value
  {
    var i :| 0 <= i < |props| && props[i] == p;
    assert forall j :: 0 <= j < i ==> props[j].key != p.key;
  }

  /** Reading `v.key` on a value already known to be truthy: objects look the
      key up; booleans, numbers and strings have no such own property. */
  function Member(v: JsValue, key: string): JsValue {
    if v.JsObject? then Get(v.props, key) else JsUndefined
  }

  /** `const { a, b, ...rest } = o`: the properties of `o` whose keys are not
      destructured by name, in their original order. */
  function Omit(props: seq<Property>, named: set<string>): (rest: seq<Property>)
    ensures |rest| <= |props|
    ensures forall p :: p in rest ==> p in props && p.key !in named
    ensures forall p :: p in props && p.key !in named ==> p in rest
  {
    if props == [] then []
    else if props[0].key in named then Omit(props[1..], named)
    else [props[0]] + Omit(props[1..], named)
  }

  /** Rest-destructuring keeps the order of the properties: omitting from a
      concatenation is concatenating what is omitted from each part. */
  lemma {:induction false} OmitAppend(a: seq<Property>, b: seq<Property>, named: set<string>)
    ensures Omit(a + b, named) == Omit(a, named) + Omit(b, named)
  {
    if a == [] {
      assert a + b == b;
    } else {
      assert (a + b)[1..] == a[1..] + b;
      OmitAppend(a[1..], b, named);
    }
  }

  /** Reading a key that was not destructured by name from the rest object gives
      what reading it from the original object gives; a named key is gone. */
  lemma {:induction false} GetOmit(props: seq<Property>, named: set<string>, key: string)
    ensures Get(Omit(props, named), key) == if key in named then JsUndefined else Get(props, key)
  {
    if props != [] {
      GetOmit(props[1..], named, key);
    }
  }

  /** Rest-destructuring keeps objects well formed. */
  lemma {:induction false} OmitDistinct(props: seq<Property>, named: set<string>)
    requires DistinctKeys(props)
    ensures DistinctKeys(Omit(props, named))
  {
    if props != [] {
      OmitDistinct(props[1..], named);
      var tail := Omit(props[1..], named);
      assert forall p :: p in tail ==> p in props[1..];
    }
  }

  /** A property whose key is not the one read does not change what is read,
      wherever it stands among the others. */
  lemma {:induction false} GetInsertOther(a: seq<Property>, p: Property, b: seq<Property>, key: string)
    requires p.key != key
    ensures Get(a + [p] + b, key) == Get(a + b, key)
  {
    if a == [] {
      assert a + [p] + b == [p] + b;
      assert ([p] + b)[1..] == b;
      assert a + b == b;
    } else {
      assert (a + [p] + b)[1..] == a[1..] + [p] + b;
      assert (a + b)[1..] == a[1..] + b;
      GetInsertOther(a[1..], p, b, key);
    }
  }
}
