/**
 * The recursive payload validator (Validator.js).
 *
 * A schema is a JavaScript object literal: each own key maps either to a
 * nested schema or, for the constraint keys `required` and `type`, to a
 * constraint of the enclosing key. A node's `required` and `type` are read by
 * its parent, and `required` may be a function evaluated against the
 * top-level payload. `Date.parse` is a parameter (`isDate v` means
 * `!isNaN(Date.parse(v))`).
 */
module Validator {
  import opened Wrappers
  import opened Json
  import JsString

  // ---------------------------------------------------------------------------
  // Schemas and errors
  // ---------------------------------------------------------------------------

  /** A key that can name a nested schema: any key but the two constraint keys. */
  type ChildKey = k: string | k != "required" && k != "type"

  /** The value of a `required` key: a flag (by its truthiness) or a function of the top-level payload. */
  datatype Required = Flag(b: bool) | Fn(f: Option<Value> -> bool)

  /** The value of a `type` key: a constructor, known by its `name` (`"String"`, `"Number"`, ...). */
  datatype TypeCtor = Ctor(name: string)

  /** One own property of a schema object, in `Object.keys` order. */
  datatype Prop =
    | Child(key: ChildKey, node: Schema)
    | RequiredProp(required: Required)
    | TypeProp(ctor: TypeCtor)

  datatype Schema = Schema(props: seq<Prop>)

  datatype ErrorKind = RequiredParam | ShouldBeString | ShouldBeNumber | ShouldBeBoolean | ShouldBeDate

  /** An entry of the error list: `key + ERRORS.<kind>`, or one of the two payload-level errors. */
  datatype SchemaError = Keyed(kind: ErrorKind, key: string) | UndefinedPayload | UndefinedSchema

  function Key(p: Prop): string
  {
    match p
    case Child(k, _) => k
    case RequiredProp(_) => "required"
    case TypeProp(_) => "type"
  }

  /** `Object.keys(schema)`. */
  function Keys(s: Schema): seq<string>
  {
    seq(|s.props|, i requires 0 <= i < |s.props| => Key(s.props[i]))
  }

  /** Own keys are distinct, as in every JavaScript object. */
  ghost predicate Distinct(ks: seq<string>)
  {
    forall i, j :: 0 <= i < j < |ks| ==> ks[i] != ks[j]
  }

  /** The position of the property `schema[k]`, or -1 when it is `undefined`. */
  function Find(props: seq<Prop>, k: string): (i: int)
    ensures -1 <= i < |props|
    ensures i == -1 <==> forall j :: 0 <= j < |props| ==> Key(props[j]) != k
    ensures 0 <= i ==> Key(props[i]) == k
  {
    if props == [] then -1
    else if Key(props[0]) == k then 0
    else
      var j := Find(props[1..], k);
      assert forall m :: 1 <= m < |props| ==> props[m] == props[1..][m - 1];
      if j == -1 then -1 else j + 1
  }

  /** `schema.required` of a nested schema, `undefined` when it has none. */
  function RequiredOf(node: Schema): Option<Required>
  {
    var i := Find(node.props, "required");
    if 0 <= i && node.props[i].RequiredProp? then Some(node.props[i].required) else None
  }

  /** `schema.type` of a nested schema, `undefined` when it has none. */
  function TypeOfNode(node: Schema): Option<TypeCtor>
  {
    var i := Find(node.props, "type");
    if 0 <= i && node.props[i].TypeProp? then Some(node.props[i].ctor) else None
  }

  /** `schema[key].required`: constraint values themselves carry no `required`. */
  function EntryRequired(p: Prop): Option<Required>
  {
    if p.Child? then RequiredOf(p.node) else None
  }

  /** `schema[key].type`. */
  function EntryType(p: Prop): Option<TypeCtor>
  {
    if p.Child? then TypeOfNode(p.node) else None
  }

  /** Truthiness of the raw `required` value: every function is truthy. */
  predicate RequiredTruthy(r: Option<Required>)
  {
    match r
    case None => false
    case Some(Flag(b)) => b
    case Some(Fn(_)) => true
  }

  /** `isRequired`: a function is called with the top-level payload bound as `this`. */
  predicate EvalRequired(r: Option<Required>, top: Option<Value>)
  {
    match r
    case None => false
    case Some(Flag(b)) => b
    case Some(Fn(f)) => f(top)
  }

  // ---------------------------------------------------------------------------
  // Constraint keys and the two error producers
  // ---------------------------------------------------------------------------

  /** `isNotConstraintKey`. */
  predicate IsNotConstraintKey(key: string)
  {
    key != "required" && key != "type"
  }

  /** `body[key]` is `undefined` or `null`, or there is no body at all. */
  predicate IsMissing(body: Option<Value>, key: string)
  {
    !Truthy(body) || GetOpt(body, key).None? || GetOpt(body, key) == Some(Null)
  }

  /** `getRequiredErrors`: one REQUIRED_PARAM error when the raw `required` is truthy and the value is missing. */
  function GetRequiredErrors(schema: Schema, body: Option<Value>, schemaKey: string): (errors: seq<SchemaError>)
    requires 0 <= Find(schema.props, schemaKey)
    ensures errors == [] || errors == [Keyed(RequiredParam, schemaKey)]
    ensures errors != [] <==>
      RequiredTruthy(EntryRequired(schema.props[Find(schema.props, schemaKey)])) && IsMissing(body, schemaKey)
  {
    var requiredKey := EntryRequired(schema.props[Find(schema.props, schemaKey)]);
    if RequiredTruthy(requiredKey) then
      if !Truthy(body) then [Keyed(RequiredParam, schemaKey)]
      else if GetOpt(body, schemaKey).None? || GetOpt(body, schemaKey) == Some(Null) then [Keyed(RequiredParam, schemaKey)]
      else []
    else []
  }

  /** The type error of `kind` a constructor named `typeKey` reports for the value `v`. */
  predicate TypeViolation(kind: ErrorKind, typeKey: string, v: Option<Value>, isDate: Option<Value> -> bool)
  {
    match kind
    case ShouldBeString => typeKey == "String" && TypeOf(v) != "string"
    case ShouldBeNumber => typeKey == "Number" && TypeOf(v) != "number"
    case ShouldBeBoolean => typeKey == "Boolean" && TypeOf(v) != "boolean"
    case ShouldBeDate => typeKey == "Date" && !isDate(v)
    case RequiredParam => false
  }

  /** `getTypeErrors`: at most one SHOULD_BE_* error, the one the constructor's name selects. */
  function GetTypeErrors(schema: Schema, body: Value, schemaKey: string, isDate: Option<Value> -> bool)
    : (errors: seq<SchemaError>)
    requires 0 <= Find(schema.props, schemaKey)
    requires EntryType(schema.props[Find(schema.props, schemaKey)]).Some?
    requires !body.Null?
    ensures |errors| <= 1
    ensures forall e :: e in errors ==> e.Keyed? && e.key == schemaKey
  {
    var typeKey := EntryType(schema.props[Find(schema.props, schemaKey)]).value.name;
    var value := Get(body, schemaKey);
    (if typeKey == "String" && TypeOf(value) != "string" then [Keyed(ShouldBeString, schemaKey)] else [])
    + (if typeKey == "Number" && TypeOf(value) != "number" then [Keyed(ShouldBeNumber, schemaKey)] else [])
    + (if typeKey == "Boolean" && TypeOf(value) != "boolean" then [Keyed(ShouldBeBoolean, schemaKey)] else [])
    + (if typeKey == "Date" && !isDate(value) then [Keyed(ShouldBeDate, schemaKey)] else [])
  }

  /** `getTypeErrors` reports the error of `kind` exactly when the value violates the named constructor. */
  lemma TypeErrorsExactly(schema: Schema, body: Value, schemaKey: string, isDate: Option<Value> -> bool, kind: ErrorKind)
    requires 0 <= Find(schema.props, schemaKey)
    requires EntryType(schema.props[Find(schema.props, schemaKey)]).Some?
    requires !body.Null?
    ensures Keyed(kind, schemaKey) in GetTypeErrors(schema, body, schemaKey, isDate) <==>
      TypeViolation(kind, EntryType(schema.props[Find(schema.props, schemaKey)]).value.name, Get(body, schemaKey), isDate)
  {

  }

  // ---------------------------------------------------------------------------
  // Splicing the constraint keys
  // ---------------------------------------------------------------------------

  /** The list without the first occurrence of `x`: the element `indexOf` finds is cut out. */
  function RemoveFirst(ks: seq<string>, x: string): (r: seq<string>)
    ensures |r| == if x in ks then |ks| - 1 else |ks|
  {
    var i := JsString.IndexOf(ks, x);
    if i == -1 then ks else ks[..i] + ks[i + 1..]
  }

  /** Removing an element never adds one. */
  lemma RemoveFirstKeeps(ks: seq<string>, x: string, y: string)
    ensures y in RemoveFirst(ks, x) ==> y in ks
  {

  }

  /** The key list once `spliceConstraintKeys` is done with it. */
  function SplicedKeys(ks: seq<string>): seq<string>
  {
    RemoveFirst(RemoveFirst(ks, "type"), "required")
  }

  /** The keys that are not constraint keys, in order. */
  function ChildKeys(ks: seq<string>): (r: seq<string>)
    ensures forall k :: k in r <==> k in ks && IsNotConstraintKey(k)
  {
    if ks == [] then []
    else if IsNotConstraintKey(ks[0]) then [ks[0]] + ChildKeys(ks[1..])
    else ChildKeys(ks[1..])
  }

  /** Splicing position `j + 1` out of `[k] + rest` is splicing position `j` out of `rest`, after `k`. */
  lemma SpliceAfterHead(k: string, rest: seq<string>, j: nat)
    requires j < |rest|
    ensures [k] + (rest[..j] + rest[j + 1..]) == ([k] + rest)[..j + 1] + ([k] + rest)[j + 2..]
  {

  }

  /** A leading element other than `x` stays in front. */
  lemma RemoveFirstCons(k: string, rest: seq<string>, x: string)
    requires k != x
    ensures RemoveFirst([k] + rest, x) == [k] + RemoveFirst(rest, x)
  {
    var ks := [k] + rest;
    assert ks[1..] == rest;
    var j := JsString.IndexOf(rest, x);
    if j != -1 {
      assert JsString.IndexOf(ks, x) == j + 1;
      SpliceAfterHead(k, rest, j);
    }
  }

  /** A leading `x` is the one removed. */
  lemma RemoveFirstHead(x: string, rest: seq<string>)
    ensures RemoveFirst([x] + rest, x) == rest
  {

  }

  /**
   * On the distinct keys of an object, splicing leaves exactly the keys the
   * first pass inspects, in the same order: both passes visit the same keys.
   */
  lemma {:induction false} SplicedKeysAreChildKeys(ks: seq<string>)
    requires Distinct(ks)
    ensures SplicedKeys(ks) == ChildKeys(ks)
  {
    if ks != [] {
      var k := ks[0];
      var rest := ks[1..];
      assert ks == [k] + rest;
      assert Distinct(rest) by {
        forall i, j | 0 <= i < j < |rest| ensures rest[i] != rest[j] {
          assert rest[i] == ks[i + 1] && rest[j] == ks[j + 1];
        }
      }
      assert k !in rest by {
        forall j | 0 <= j < |rest| ensures rest[j] != k {
          assert rest[j] == ks[j + 1];
        }
      }
      SplicedKeysAreChildKeys(rest);
      if k == "type" {
        RemoveFirstHead("type", rest);
      } else if k == "required" {
        RemoveFirstCons("required", rest, "type");
        RemoveFirstHead("required", RemoveFirst(rest, "type"));
        RemoveFirstKeeps(rest, "type", "required");
      } else {
        RemoveFirstCons(k, rest, "type");
        RemoveFirstCons(k, RemoveFirst(rest, "type"), "required");
      }
    }
  }

  /** A JavaScript array of keys, changed in place by `splice`. */
  class KeyArray {
    var elems: seq<string>

    constructor (keys: seq<string>)
      ensures elems == keys
    {
      elems := keys;
    }

    /** `splice(start, 1)`: removes the element at `start`. */
    method Splice(start: nat)
      requires start < |elems|
      modifies this
      ensures elems == old(elems[..start] + elems[start + 1..])
    {
      elems := elems[..start] + elems[start + 1..];
    }
  }

  /** `spliceConstraintKeys`: removes the first `type` and the first `required`, in place, and returns the same array. */
  method SpliceConstraintKeys(schemaKeys: KeyArray) returns (r: KeyArray)
    modifies schemaKeys
    ensures r == schemaKeys
    ensures schemaKeys.elems == SplicedKeys(old(schemaKeys.elems))
  {
    ghost var keys := schemaKeys.elems;
    var at := JsString.IndexOf(schemaKeys.elems, "type");
    if at > -1 {
      schemaKeys.Splice(at);
    }
    assert schemaKeys.elems == RemoveFirst(keys, "type");
    ghost var typeless := schemaKeys.elems;
    at := JsString.IndexOf(schemaKeys.elems, "required");
    if at > -1 {
      schemaKeys.Splice(at);
    }
    assert schemaKeys.elems == RemoveFirst(typeless, "required");
    r := schemaKeys;
  }

  // ---------------------------------------------------------------------------
  // The walk
  // ---------------------------------------------------------------------------

  /** The errors one key contributes in the first pass. */
  function KeyErrors(s: Schema, k: string, body: Option<Value>, top: Option<Value>, isDate: Option<Value> -> bool)
    : (errors: seq<SchemaError>)
    ensures forall e :: e in errors ==> e.Keyed? && e.key == k
    ensures |errors| <= 2
    ensures |errors| == 2 ==> errors[0] != errors[1]
  {
    if !IsNotConstraintKey(k) || Find(s.props, k) < 0 then []
    else
      var p := s.props[Find(s.props, k)];
      (if EvalRequired(EntryRequired(p), top) then GetRequiredErrors(s, body, k) else [])
      + (if Truthy(body) && Truthy(Get(body.value, k)) && EntryType(p).Some?
         then GetTypeErrors(s, body.value, k, isDate) else [])
  }

  /** The errors of the first pass over the keys `ks`, in order. */
  function FirstPass(s: Schema, ks: seq<string>, body: Option<Value>, top: Option<Value>,
                     isDate: Option<Value> -> bool): (errors: seq<SchemaError>)
    ensures forall e :: e in errors ==> e.Keyed? && e.key in ks
  {
    if ks == [] then []
    else FirstPass(s, ks[..|ks| - 1], body, top, isDate) + KeyErrors(s, ks[|ks| - 1], body, top, isDate)
  }

  /** `validateJSONSchema`, as a specification: first-pass errors, then the nested schemas' errors. */
  function Validate(s: Schema, body: Option<Value>, top: Option<Value>, isDate: Option<Value> -> bool)
    : (errors: seq<SchemaError>)
    ensures FirstPass(s, Keys(s), body, top, isDate) <= errors
    ensures forall e :: e in errors ==> e.Keyed?
    decreases s, 1
  {
    FirstPass(s, Keys(s), body, top, isDate) + SecondPass(s, SplicedKeys(Keys(s)), body, top, isDate)
  }

  /** The errors of the second pass over the keys `ks`: one recursive walk per key whose value is an object. */
  function SecondPass(s: Schema, ks: seq<string>, body: Option<Value>, top: Option<Value>,
                      isDate: Option<Value> -> bool): (errors: seq<SchemaError>)
    ensures forall e :: e in errors ==> e.Keyed?
    decreases s, 0, |ks|
  {
    if ks == [] then []
    else
      var k := ks[|ks| - 1];
      SecondPass(s, ks[..|ks| - 1], body, top, isDate) + NestedErrors(s, k, body, top, isDate)
  }

  /** The errors one key contributes in the second pass: the nested walk when its value is an object. */
  function NestedErrors(s: Schema, k: string, body: Option<Value>, top: Option<Value>,
                        isDate: Option<Value> -> bool): (errors: seq<SchemaError>)
    ensures forall e :: e in errors ==> e.Keyed?
    decreases s, 0, 0
  {
    if Truthy(body) && TypeOf(Get(body.value, k)) == "object" && 0 <= Find(s.props, k) then
      match s.props[Find(s.props, k)]
      case Child(_, node) => Validate(node, Get(body.value, k), top, isDate)
      case _ => []
    else []
  }

  lemma {:induction false} SplicedKeysOfSchema(s: Schema, k: string)
    requires k in SplicedKeys(Keys(s))
    ensures 0 <= Find(s.props, k)
  {
    RemoveFirstKeeps(RemoveFirst(Keys(s), "type"), "required", k);
    RemoveFirstKeeps(Keys(s), "type", k);
    var i :| 0 <= i < |Keys(s)| && Keys(s)[i] == k;
    assert Key(s.props[i]) == k;
  }

  lemma FirstPassAppend(s: Schema, ks: seq<string>, i: nat, body: Option<Value>, top: Option<Value>,
                        isDate: Option<Value> -> bool)
    requires i < |ks|
    ensures FirstPass(s, ks[..i + 1], body, top, isDate)
         == FirstPass(s, ks[..i], body, top, isDate) + KeyErrors(s, ks[i], body, top, isDate)
  {
    assert ks[..i + 1][..i] == ks[..i];
  }

  lemma SecondPassAppend(s: Schema, ks: seq<string>, i: nat, body: Option<Value>, top: Option<Value>,
                         isDate: Option<Value> -> bool)
    requires i < |ks|
    ensures SecondPass(s, ks[..i + 1], body, top, isDate)
         == SecondPass(s, ks[..i], body, top, isDate) + NestedErrors(s, ks[i], body, top, isDate)
  {
    assert ks[..i + 1][..i] == ks[..i];
  }

  /** The first `forEach` callback: the errors it concatenates for `schemaKey`. */
  method CheckKey(schema: Schema, schemaKey: string, body: Option<Value>, top: Option<Value>,
                  isDate: Option<Value> -> bool)
    returns (found: seq<SchemaError>)
    ensures found == KeyErrors(schema, schemaKey, body, top, isDate)
  {
    found := [];
    if IsNotConstraintKey(schemaKey) && 0 <= Find(schema.props, schemaKey) {
      var entry := schema.props[Find(schema.props, schemaKey)];
      var isRequired := EvalRequired(EntryRequired(entry), top);
      if isRequired {
        found := found + GetRequiredErrors(schema, body, schemaKey);
      }
      if Truthy(body) && Truthy(Get(body.value, schemaKey)) && EntryType(entry).Some? {
        found := found + GetTypeErrors(schema, body.value, schemaKey, isDate);
      }
    }
  }

  /** The second `forEach` callback: the nested walk when `body[schemaKey]` is an object. */
  method CheckNested(schema: Schema, schemaKey: string, body: Option<Value>, top: Option<Value>,
                     isDate: Option<Value> -> bool)
    returns (found: seq<SchemaError>)
    requires 0 <= Find(schema.props, schemaKey)
    ensures found == NestedErrors(schema, schemaKey, body, top, isDate)
    decreases schema, 0
  {
    found := [];
    if Truthy(body) && TypeOf(Get(body.value, schemaKey)) == "object" {
      match schema.props[Find(schema.props, schemaKey)]
      case Child(_, node) =>
        found := ValidateJSONSchema(node, Get(body.value, schemaKey), top, isDate);
      case _ =>
    }
  }

  /** The first `forEach`: every key of the array through the first callback, in order. */
  method CollectKeyErrors(schema: Schema, schemaKeys: KeyArray, body: Option<Value>, top: Option<Value>,
                          isDate: Option<Value> -> bool)
    returns (errors: seq<SchemaError>)
    requires schemaKeys.elems == Keys(schema)
    ensures errors == FirstPass(schema, Keys(schema), body, top, isDate)
  {
    errors := [];
    var i := 0;
    while i < |schemaKeys.elems|
      invariant 0 <= i <= |Keys(schema)|
      invariant errors == FirstPass(schema, Keys(schema)[..i], body, top, isDate)
    {
      FirstPassAppend(schema, Keys(schema), i, body, top, isDate);
      var found := CheckKey(schema, schemaKeys.elems[i], body, top, isDate);
      errors := errors + found;
      i := i + 1;
    }
    assert Keys(schema)[..i] == Keys(schema);
  }

  /** The second `forEach`: every key left after splicing through the second callback, in order. */
  method CollectNestedErrors(schema: Schema, remaining: KeyArray, body: Option<Value>, top: Option<Value>,
                             isDate: Option<Value> -> bool)
    returns (errors: seq<SchemaError>)
    requires remaining.elems == SplicedKeys(Keys(schema))
    ensures errors == SecondPass(schema, SplicedKeys(Keys(schema)), body, top, isDate)
    decreases schema, 1
  {
    ghost var keys := remaining.elems;
    errors := [];
    var i := 0;
    while i < |remaining.elems|
      invariant 0 <= i <= |keys|
      invariant errors == SecondPass(schema, keys[..i], body, top, isDate)
    {
      SecondPassAppend(schema, keys, i, body, top, isDate);
      SplicedKeysOfSchema(schema, keys[i]);
      var found := CheckNested(schema, remaining.elems[i], body, top, isDate);
      errors := errors + found;
      i := i + 1;
    }
    assert keys[..i] == keys;
  }

  /** `validateJSONSchema`: the first pass, the in-place splice, then the recursive pass. */
  method ValidateJSONSchema(schema: Schema, body: Option<Value>, top: Option<Value>, isDate: Option<Value> -> bool)
    returns (errors: seq<SchemaError>)
    ensures errors == Validate(schema, body, top, isDate)
    decreases schema, 2
  {
    var schemaKeys := new KeyArray(Keys(schema));
    errors := CollectKeyErrors(schema, schemaKeys, body, top, isDate);
    var remaining := SpliceConstraintKeys(schemaKeys);
    var nested := CollectNestedErrors(schema, remaining, body, top, isDate);
    errors := errors + nested;
  }

  // ---------------------------------------------------------------------------
  // What the walk reports
  // ---------------------------------------------------------------------------

  /** A list in which no error appears twice. */
  ghost predicate NoDuplicates(es: seq<SchemaError>)
  {
    forall i, j :: 0 <= i < j < |es| ==> es[i] != es[j]
  }

  /** A function-valued `required` is always truthy, so evaluating it never reports more than the flag would. */
  lemma EvaluatedRequiredIsTruthy(r: Option<Required>, top: Option<Value>)
    ensures EvalRequired(r, top) ==> RequiredTruthy(r)
  {
  }

  /**
   * The errors one key contributes: nothing for a constraint key; REQUIRED_PARAM
   * exactly when the evaluated `required` holds and the value is missing; a
   * SHOULD_BE_* error exactly when the value is truthy, the node has a `type`
   * and the value violates it. Falsy values are never type-checked.
   */
  lemma KeyErrorsExactly(s: Schema, k: string, body: Option<Value>, top: Option<Value>,
                         isDate: Option<Value> -> bool, kind: ErrorKind)
    ensures !IsNotConstraintKey(k) ==> KeyErrors(s, k, body, top, isDate) == []
    ensures IsNotConstraintKey(k) && 0 <= Find(s.props, k) && kind == RequiredParam ==>
      (Keyed(kind, k) in KeyErrors(s, k, body, top, isDate) <==>
       EvalRequired(EntryRequired(s.props[Find(s.props, k)]), top) && IsMissing(body, k))
    ensures IsNotConstraintKey(k) && 0 <= Find(s.props, k) && kind != RequiredParam ==>
      (Keyed(kind, k) in KeyErrors(s, k, body, top, isDate) <==>
       Truthy(body) && Truthy(Get(body.value, k)) && EntryType(s.props[Find(s.props, k)]).Some? &&
       TypeViolation(kind, EntryType(s.props[Find(s.props, k)]).value.name, Get(body.value, k), isDate))
    ensures !Truthy(body) || !Truthy(Get(body.value, k)) ==>
      forall e :: e in KeyErrors(s, k, body, top, isDate) ==> e == Keyed(RequiredParam, k)
  {
    if IsNotConstraintKey(k) && 0 <= Find(s.props, k) {
      var p := s.props[Find(s.props, k)];
      EvaluatedRequiredIsTruthy(EntryRequired(p), top);
      var required := if EvalRequired(EntryRequired(p), top) then GetRequiredErrors(s, body, k) else [];
      var typed := if Truthy(body) && Truthy(Get(body.value, k)) && EntryType(p).Some?
                   then GetTypeErrors(s, body.value, k, isDate) else [];
      assert KeyErrors(s, k, body, top, isDate) == required + typed;
      if typed != [] {
        TypeErrorsExactly(s, body.value, k, isDate, kind);
        TypeErrorsExactly(s, body.value, k, isDate, RequiredParam);
      }
    }
  }

  /** An error is in the first pass over `ks` exactly when one of the keys in `ks` contributes it. */
  lemma {:induction false} FirstPassMembership(s: Schema, ks: seq<string>, body: Option<Value>, top: Option<Value>,
                                               isDate: Option<Value> -> bool, e: SchemaError)
    ensures e in FirstPass(s, ks, body, top, isDate) <==>
      e.Keyed? && e.key in ks && e in KeyErrors(s, e.key, body, top, isDate)
  {
    if e in FirstPass(s, ks, body, top, isDate) {
      FirstPassContributor(s, ks, body, top, isDate, e);
    }
    if e.Keyed? && e.key in ks && e in KeyErrors(s, e.key, body, top, isDate) {
      FirstPassCollects(s, ks, body, top, isDate, e);
    }
  }

  lemma {:induction false} FirstPassContributor(s: Schema, ks: seq<string>, body: Option<Value>, top: Option<Value>,
                                                isDate: Option<Value> -> bool, e: SchemaError)
    requires e in FirstPass(s, ks, body, top, isDate)
    ensures e.Keyed? && e in KeyErrors(s, e.key, body, top, isDate)
  {
    var init := ks[..|ks| - 1];
    var last := ks[|ks| - 1];
    if e in FirstPass(s, init, body, top, isDate) {
      FirstPassContributor(s, init, body, top, isDate, e);
    } else {
      assert e in KeyErrors(s, last, body, top, isDate);
    }
  }

  lemma {:induction false} FirstPassCollects(s: Schema, ks: seq<string>, body: Option<Value>, top: Option<Value>,
                                             isDate: Option<Value> -> bool, e: SchemaError)
    requires e.Keyed? && e.key in ks && e in KeyErrors(s, e.key, body, top, isDate)
    ensures e in FirstPass(s, ks, body, top, isDate)
  {
    var init := ks[..|ks| - 1];
    var last := ks[|ks| - 1];
    assert ks == init + [last];
    if e.key != last {
      FirstPassCollects(s, init, body, top, isDate, e);
    }
  }

  /** Over the distinct keys of an object the first pass reports each violation once. */
  lemma {:induction false} FirstPassNoDuplicates(s: Schema, ks: seq<string>, body: Option<Value>, top: Option<Value>,
                                                 isDate: Option<Value> -> bool)
    requires Distinct(ks)
    ensures NoDuplicates(FirstPass(s, ks, body, top, isDate))
  {
    if ks != [] {
      var init := ks[..|ks| - 1];
      var last := ks[|ks| - 1];
      forall i, j | 0 <= i < j < |init| ensures init[i] != init[j] {
        assert init[i] == ks[i] && init[j] == ks[j];
      }
      assert last !in init by {
        forall j | 0 <= j < |init| ensures init[j] != last {
          assert init[j] == ks[j];
        }
      }
      FirstPassNoDuplicates(s, init, body, top, isDate);
      var a := FirstPass(s, init, body, top, isDate);
      var b := KeyErrors(s, last, body, top, isDate);
      assert FirstPass(s, ks, body, top, isDate) == a + b;
      ShortNoDuplicates(b);
      forall e | e in a ensures e !in b {
        assert e.key in init;
      }
      ConcatNoDuplicates(a, b);
    }
  }

  lemma ShortNoDuplicates(b: seq<SchemaError>)
    requires |b| <= 2 && (|b| == 2 ==> b[0] != b[1])
    ensures NoDuplicates(b)
  {
  }

  lemma ConcatNoDuplicates(a: seq<SchemaError>, b: seq<SchemaError>)
    requires NoDuplicates(a) && NoDuplicates(b)
    requires forall e :: e in a ==> e !in b
    ensures NoDuplicates(a + b)
  {
    forall i, j | 0 <= i < j < |a + b| ensures (a + b)[i] != (a + b)[j] {
      if i < |a| <= j {
        assert (a + b)[i] == a[i] && (a + b)[j] == b[j - |a|];
        assert a[i] in a;
      }
    }
  }

  /**
   * Every error of the recursive pass comes from a nested walk started at one
   * of the keys `ks` whose value is an object (`typeof` is `"object"`, which
   * includes `null` and arrays) and whose schema entry is a nested schema.
   */
  lemma {:induction false} SecondPassOrigin(s: Schema, ks: seq<string>, body: Option<Value>, top: Option<Value>,
                                            isDate: Option<Value> -> bool, e: SchemaError)
    requires e in SecondPass(s, ks, body, top, isDate)
    ensures Truthy(body)
    ensures exists k :: k in ks && IsNotConstraintKey(k) && TypeOf(Get(body.value, k)) == "object" &&
                        e in NestedErrors(s, k, body, top, isDate)
  {
    var init := ks[..|ks| - 1];
    var last := ks[|ks| - 1];
    assert ks == init + [last];
    if e in SecondPass(s, init, body, top, isDate) {
      SecondPassOrigin(s, init, body, top, isDate, e);
      var k :| k in init && IsNotConstraintKey(k) && TypeOf(Get(body.value, k)) == "object" &&
               e in NestedErrors(s, k, body, top, isDate);
      assert k in ks;
    } else {
      assert e in NestedErrors(s, last, body, top, isDate);
      assert Key(s.props[Find(s.props, last)]) == last;
    }
  }

  /** Without a property of object type among the keys `ks` there is no recursion and no error from it. */
  lemma {:induction false} SecondPassQuiet(s: Schema, ks: seq<string>, body: Option<Value>, top: Option<Value>,
                                           isDate: Option<Value> -> bool)
    requires !Truthy(body) || forall k :: k in ks ==> TypeOf(Get(body.value, k)) != "object"
    ensures SecondPass(s, ks, body, top, isDate) == []
  {
    if ks != [] {
      var init := ks[..|ks| - 1];
      assert forall k :: k in init ==> k in ks;
      SecondPassQuiet(s, init, body, top, isDate);
      assert ks[|ks| - 1] in ks;
    }
  }

  /** A flat payload is only checked against the node's own keys: the walk is its first pass. */
  lemma FlatPayload(s: Schema, body: Option<Value>, top: Option<Value>, isDate: Option<Value> -> bool)
    requires !Truthy(body) || forall k :: k in Keys(s) ==> TypeOf(Get(body.value, k)) != "object"
    ensures Validate(s, body, top, isDate) == FirstPass(s, Keys(s), body, top, isDate)
  {
    forall k | k in SplicedKeys(Keys(s)) ensures k in Keys(s) {
      RemoveFirstKeeps(RemoveFirst(Keys(s), "type"), "required", k);
      RemoveFirstKeeps(Keys(s), "type", k);
    }
    SecondPassQuiet(s, SplicedKeys(Keys(s)), body, top, isDate);
  }

  // ---------------------------------------------------------------------------
  // isValidJSONSchema
  // ---------------------------------------------------------------------------

  /** The `schema` argument: `undefined`/`null`, another falsy value (`0`, `""`, `false`), or a schema object. */
  datatype SchemaArg = Missing | FalsyPrimitive | Given(schema: Schema)

  /** How the returned promise settles. */
  datatype Settlement =
    | Resolved(payload: Option<Value>)
    | RejectedWith(errors: seq<SchemaError>)
    | RejectedThrown(message: string)

  /** The `TypeError` message `Object.keys` throws on `undefined` or `null`. */
  const OBJECT_KEYS_NULL_CAUSE := "Cannot convert undefined or null to object"

  /** The payload-level errors, pushed before the walk. */
  function LeadingErrors(schema: SchemaArg, alert: Option<Value>): (errors: seq<SchemaError>)
    ensures UndefinedPayload in errors <==> !Truthy(alert)
    ensures UndefinedSchema in errors <==> !schema.Given?
    ensures !Truthy(alert) ==> errors[0] == UndefinedPayload
  {
    (if !Truthy(alert) then [UndefinedPayload] else [])
    + (if !schema.Given? then [UndefinedSchema] else [])
  }

  /** The errors of a walk over a falsy primitive: `Object.keys` of it is empty. */
  function WalkErrors(schema: SchemaArg, alert: Option<Value>, isDate: Option<Value> -> bool)
    : (errors: seq<SchemaError>)
    requires !schema.Missing?
    ensures forall e :: e in errors ==> e.Keyed?
  {
    if schema.Given? then Validate(schema.schema, alert, alert, isDate) else []
  }

  /**
   * `isValidJSONSchema`, as written: the executor pushes the payload-level
   * errors and then walks the schema with the payload as both body and top.
   * On an `undefined` or `null` schema the walk's `Object.keys` throws, and the
   * throw inside the executor rejects the promise with that `TypeError`, so
   * UNDEFINED_SCHEMA never reaches the caller for the very value it names.
   */
  function IsValidJSONSchema(schema: SchemaArg, alert: Option<Value>, isDate: Option<Value> -> bool)
    : (r: Settlement)
    ensures schema.Missing? <==> r.RejectedThrown?
    ensures r.RejectedThrown? ==> r.message == OBJECT_KEYS_NULL_CAUSE
    ensures r.Resolved? <==> schema.Given? && Truthy(alert) && Validate(schema.schema, alert, alert, isDate) == []
    ensures r.Resolved? ==> r.payload == alert
    ensures r.RejectedWith? ==> r.errors != [] && ((r.errors[0] == UndefinedPayload) <==> !Truthy(alert))
    ensures r.RejectedWith? && UndefinedSchema in r.errors ==> schema.FalsyPrimitive?
    ensures r.RejectedWith? ==> r.errors == LeadingErrors(schema, alert) + WalkErrors(schema, alert, isDate)
  {
    if schema.Missing? then RejectedThrown(OBJECT_KEYS_NULL_CAUSE)
    else
      var leading := LeadingErrors(schema, alert);
      var walk := WalkErrors(schema, alert, isDate);
      var errors := leading + walk;
      assert leading == [] && walk != [] ==> errors[0] == walk[0] && walk[0] in walk;
      if |errors| > 0 then RejectedWith(errors) else Resolved(alert)
  }

  /**
   * `isValidJSONSchema` as its checks intend: a missing schema is reported as
   * UNDEFINED_SCHEMA (after UNDEFINED_PAYLOAD) instead of being walked.
   */
  function IsValidJSONSchemaCorrected(schema: SchemaArg, alert: Option<Value>, isDate: Option<Value> -> bool)
    : (r: Settlement)
    ensures !r.RejectedThrown?
    ensures !schema.Given? ==> r == RejectedWith(LeadingErrors(schema, alert)) && UndefinedSchema in r.errors
    ensures schema.Given? ==> r == IsValidJSONSchema(schema, alert, isDate)
    ensures r.Resolved? <==> schema.Given? && Truthy(alert) && Validate(schema.schema, alert, alert, isDate) == []
    ensures r.RejectedWith? ==> r.errors != [] && ((r.errors[0] == UndefinedPayload) <==> !Truthy(alert))
  {
    var errors := LeadingErrors(schema, alert)
                  + (if schema.Given? then Validate(schema.schema, alert, alert, isDate) else []);
    if |errors| > 0 then RejectedWith(errors) else Resolved(alert)
  }

  /** The discrepancy on a concrete call: an empty payload object and an `undefined` schema. */
  lemma MissingSchemaIsNeverReported()
    ensures IsValidJSONSchema(Missing, Some(Object(map[])), _ => true) == RejectedThrown(OBJECT_KEYS_NULL_CAUSE)
    ensures IsValidJSONSchemaCorrected(Missing, Some(Object(map[])), _ => true) == RejectedWith([UndefinedSchema])
  {
  }
}
