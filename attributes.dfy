/**
 * The attribute lists the service builds with
 *   Object.keys(rest).map((key) => new CognitoUserAttribute({ Name: key, Value: rest[key] }))
 * from what is left of the request once the named fields are destructured.
 */
module Attributes {
  import opened JsValues

  /** A `CognitoUserAttribute` as the service constructs it. */
  datatype Attribute = Attribute(name: string, value: JsValue)

  /** One attribute per property, in key order. */
  function AttributesOf(props: seq<Property>): (attrs: seq<Attribute>)
    ensures |attrs| == |props|
  {
    if props == [] then [] else [Attribute(props[0].key, props[0].value)] + AttributesOf(props[1..])
  }

  /** `register`: everything but `email` and `password`. */
  function RegisterAttributes(fields: seq<Property>): seq<Attribute> {
    AttributesOf(Omit(fields, {"email", "password"}))
  }

  /** `updateAttributes`: everything but `email`. */
  function UpdateAttributes(fields: seq<Property>): seq<Attribute> {
    AttributesOf(Omit(fields, {"email"}))
  }

  /** Reading an attribute list back by name: the value of the first attribute
      with that name, `undefined` when none has it. */
  function ValueNamed(attrs: seq<Attribute>, name: string): JsValue {
    if attrs == [] then JsUndefined
    else if attrs[0].name == name then attrs[0].value
    else ValueNamed(attrs[1..], name)
  }

  lemma {:induction false} AttributeAt(props: seq<Property>, i: nat)
    requires i < |props|
    ensures AttributesOf(props)[i] == Attribute(props[i].key, props[i].value)
  {
    if i > 0 {
      AttributeAt(props[1..], i - 1);
    }
  }

  /** The attributes are the properties renamed, in the same order. */
  lemma AttributesMirrorProperties(props: seq<Property>)
    ensures forall i :: 0 <= i < |props| ==> AttributesOf(props)[i] == Attribute(props[i].key, props[i].value)
  {
    forall i | 0 <= i < |props| ensures AttributesOf(props)[i] == Attribute(props[i].key, props[i].value) {
      AttributeAt(props, i);
    }
  }

  lemma {:induction false} ValueNamedOf(props: seq<Property>, name: string)
    ensures ValueNamed(AttributesOf(props), name) == Get(props, name)
  {
    if props != [] {
      ValueNamedOf(props[1..], name);
    }
  }

  /** Round trip of the attribute list of an object without the named fields:
      reading a name back gives the object's own value for every field that is
      kept, and nothing for a field that is destructured by name. */
  lemma ReadBack(fields: seq<Property>, named: set<string>, name: string)
    ensures ValueNamed(AttributesOf(Omit(fields, named)), name) == if name in named then JsUndefined else Get(fields, name)
  {
    ValueNamedOf(Omit(fields, named), name);
    GetOmit(fields, named, name);
  }

  /** An attribute is in the list exactly when the property it renames is in
      the object. */
  lemma {:induction false} AttributeMembership(props: seq<Property>, a: Attribute)
    ensures a in AttributesOf(props) <==> Property(a.name, a.value) in props
  {
    if props != [] {
      AttributeMembership(props[1..], a);
      assert props == [props[0]] + props[1..];
    }
  }

  /** What is left after destructuring `named`, as attributes: no named key,
      one attribute per other field with that field's value, nothing more. */
  lemma RestAttributesExact(fields: seq<Property>, named: set<string>)
    ensures forall a :: a in AttributesOf(Omit(fields, named)) ==> a.name !in named && Property(a.name, a.value) in fields
    ensures forall p :: p in fields && p.key !in named ==> Attribute(p.key, p.value) in AttributesOf(Omit(fields, named))
  {
    var rest := Omit(fields, named);
    forall a | a in AttributesOf(rest) ensures a.name !in named && Property(a.name, a.value) in fields {
      AttributeMembership(rest, a);
    }
    forall p | p in fields && p.key !in named ensures Attribute(p.key, p.value) in AttributesOf(rest) {
      AttributeMembership(rest, Attribute(p.key, p.value));
    }
  }

  /** On a JavaScript object, whose keys are distinct, every attribute carries
      what the object reads for its name (`rest[key]`). */
  lemma AttributeValuesAreLookups(fields: seq<Property>, named: set<string>)
    requires DistinctKeys(fields)
    ensures forall a :: a in AttributesOf(Omit(fields, named)) ==> a.value == Get(fields, a.name)
  {
    forall a | a in AttributesOf(Omit(fields, named)) ensures a.value == Get(fields, a.name) {
      AttributeMembership(Omit(fields, named), a);
      GetOwn(fields, Property(a.name, a.value));
    }
  }

  /** `register` never sends `email` or `password` as an attribute, sends one
      attribute per other field with that field's value, and nothing more. */
  lemma RegisterAttributesExact(fields: seq<Property>)
    ensures forall a :: a in RegisterAttributes(fields) ==> a.name != "email" && a.name != "password"
    ensures forall a :: a in RegisterAttributes(fields) ==> Property(a.name, a.value) in fields
    ensures forall p :: p in fields && p.key != "email" && p.key != "password" ==> Attribute(p.key, p.value) in RegisterAttributes(fields)
    ensures DistinctKeys(fields) ==> |RegisterAttributes(fields)| == |fields| - |{"email", "password"} * KeySet(fields)|
  {
    RestAttributesExact(fields, {"email", "password"});
    if DistinctKeys(fields) {
      OmitCount(fields, {"email", "password"});
    }
  }

  /** `updateAttributes` never sends `email`, and sends every other field. */
  lemma UpdateAttributesExact(fields: seq<Property>)
    ensures forall a :: a in UpdateAttributes(fields) ==> a.name != "email"
    ensures forall a :: a in UpdateAttributes(fields) ==> Property(a.name, a.value) in fields
    ensures forall p :: p in fields && p.key != "email" ==> Attribute(p.key, p.value) in UpdateAttributes(fields)
    ensures DistinctKeys(fields) ==> |UpdateAttributes(fields)| == |fields| - |{"email"} * KeySet(fields)|
  {
    RestAttributesExact(fields, {"email"});
    if DistinctKeys(fields) {
      OmitCount(fields, {"email"});
    }
  }

  /** On a well-formed object, rest-destructuring drops exactly one property
      per named key that the object has. */
  lemma {:induction false} OmitCount(props: seq<Property>, named: set<string>)
    requires DistinctKeys(props)
    ensures |Omit(props, named)| == |props| - |named * KeySet(props)|
  {
    if props == [] {
      assert named * KeySet(props) == {};
    } else {
      var tail := props[1..];
      HeadKeyFresh(props);
      OmitCount(tail, named);
      CountStep(named, KeySet(tail), props[0].key);
    }
  }

  lemma CountStep(named: set<string>, keys: set<string>, k: string)
    requires k !in keys
    ensures |named * (keys + {k})| == |named * keys| + if k in named then 1 else 0
  {
    if k in named {
      assert named * (keys + {k}) == (named * keys) + {k};
    } else {
      assert named * (keys + {k}) == named * keys;
    }
  }

  /** The first key of a well-formed object occurs nowhere else in it. */
  lemma HeadKeyFresh(props: seq<Property>)
    requires DistinctKeys(props) && props != []
    ensures KeySet(props) == KeySet(props[1..]) + {props[0].key}
    ensures props[0].key !in KeySet(props[1..])
    ensures DistinctKeys(props[1..])
  {
    assert props == [props[0]] + props[1..];
    forall p | p in props[1..] ensures p.key != props[0].key {
      var j :| 0 <= j < |props[1..]| && props[1..][j] == p;
      assert props[j + 1] == p;
    }
  }
}
