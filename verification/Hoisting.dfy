/** `_hoisted` (backend/routes/openapi_documents.py): every inline copy of an injected
    schema replaced by a Reference Object (section 4.8.23 of the OpenAPI Specification
    3.1.0), over JSON documents. */
module Hoisting {

  /** A JSON value; an object is its members, in no order. */
  datatype Json =
    | Obj(fields: map<string, Json>)
    | Arr(items: seq<Json>)
    | Str(text: string)
    | Num(number: real)
    | Bool(truth: bool)
    | Null

  const REF_PREFIX := "#/components/schemas/"

  /** The injected schemas, in the order they are compared. */
  datatype Injection = Injection(name: string, schema: Json)

  function Ref(name: string): Json {
    Obj(map["$ref" := Str(REF_PREFIX + name)])
  }

  predicate WellNamed(injected: seq<Injection>) {
    && (forall i, j :: 0 <= i < j < |injected| ==> injected[i].name != injected[j].name)
    && (forall i :: 0 <= i < |injected| ==> injected[i].schema.Obj?)
  }

  /** The first injection whose schema this node equals, or `|injected|`. */
  function FirstMatch(node: Json, injected: seq<Injection>): (k: nat)
    ensures k <= |injected|
    ensures k < |injected| ==> injected[k].schema == node
    ensures forall i :: 0 <= i < k ==> injected[i].schema != node
  {
    if injected == [] || injected[0].schema == node then 0
    else
      assert forall i :: 0 < i < 1 + FirstMatch(node, injected[1..]) ==> injected[i] == injected[1..][i - 1];
      1 + FirstMatch(node, injected[1..])
  }

  function Hoisted(node: Json, injected: seq<Injection>): Json
    decreases node
  {
    match node
    case Obj(fields) =>
      var k := FirstMatch(node, injected);
      if k < |injected| then Ref(injected[k].name)
      else Obj(map key | key in fields :: Hoisted(fields[key], injected))
    case Arr(items) => Arr(seq(|items|, i requires 0 <= i < |items| => Hoisted(items[i], injected)))
    case _ => node
  }

  /** The injection this node refers to, or `|injected|`. */
  function Referred(node: Json, injected: seq<Injection>): (k: nat)
    ensures k <= |injected|
    ensures k < |injected| ==> node == Ref(injected[k].name)
    ensures k == |injected| ==> forall i :: 0 <= i < |injected| ==> node != Ref(injected[i].name)
  {
    if injected == [] || node == Ref(injected[0].name) then 0
    else
      assert forall i :: 0 < i < |injected| ==> injected[i] == injected[1..][i - 1];
      1 + Referred(node, injected[1..])
  }

  /** A reader following the injected references, and no others. */
  function Resolved(node: Json, injected: seq<Injection>): Json
    decreases node
  {
    match node
    case Obj(fields) =>
      var k := Referred(node, injected);
      if k < |injected| then injected[k].schema
      else Obj(map key | key in fields :: Resolved(fields[key], injected))
    case Arr(items) => Arr(seq(|items|, i requires 0 <= i < |items| => Resolved(items[i], injected)))
    case _ => node
  }

  /** Nothing in the document refers to an injected schema. */
  predicate RefFree(node: Json, injected: seq<Injection>)
    decreases node
  {
    match node
    case Obj(fields) =>
      && Referred(node, injected) == |injected|
      && forall key :: key in fields ==> RefFree(fields[key], injected)
    case Arr(items) => forall i :: 0 <= i < |items| ==> RefFree(items[i], injected)
    case _ => true
  }

  /** Nothing in the document is an inline copy of an injected schema. */
  predicate CopyFree(node: Json, injected: seq<Injection>)
    decreases node
  {
    match node
    case Obj(fields) =>
      && FirstMatch(node, injected) == |injected|
      && forall key :: key in fields ==> CopyFree(fields[key], injected)
    case Arr(items) => forall i :: 0 <= i < |items| ==> CopyFree(items[i], injected)
    case _ => true
  }

  /** No injected schema refers to an injected schema. */
  predicate SelfContained(injected: seq<Injection>) {
    forall i :: 0 <= i < |injected| ==> RefFree(injected[i].schema, injected)
  }

  lemma RefsDiffer(a: string, b: string)
    requires Ref(a) == Ref(b)
    ensures a == b
  {
    assert Ref(a).fields["$ref"] == Ref(b).fields["$ref"];
    assert (REF_PREFIX + a)[|REF_PREFIX|..] == a && (REF_PREFIX + b)[|REF_PREFIX|..] == b;
  }

  lemma ReferredIsOwn(injected: seq<Injection>, k: nat)
    requires WellNamed(injected) && k < |injected|
    ensures Referred(Ref(injected[k].name), injected) == k
  {
    var j := Referred(Ref(injected[k].name), injected);
    if j < |injected| { RefsDiffer(injected[j].name, injected[k].name); }
  }

  /** Hoisting leaves no trace only where it changed nothing. */
  lemma {:induction false} UnhoistedIsUnchanged(node: Json, injected: seq<Injection>)
    requires WellNamed(injected) && RefFree(Hoisted(node, injected), injected)
    ensures Hoisted(node, injected) == node
    decreases node
  {
    match node
    case Obj(fields) =>
      if FirstMatch(node, injected) == |injected| {
        forall key | key in fields ensures Hoisted(fields[key], injected) == fields[key] {
          assert Hoisted(node, injected).fields[key] == Hoisted(fields[key], injected);
          UnhoistedIsUnchanged(fields[key], injected);
        }
      }
    case Arr(items) =>
      forall i | 0 <= i < |items| ensures Hoisted(items[i], injected) == items[i] {
        assert Hoisted(node, injected).items[i] == Hoisted(items[i], injected);
        UnhoistedIsUnchanged(items[i], injected);
      }
    case _ =>
  }

  /** No inline copy of an injected schema survives hoisting. */
  lemma {:induction false} NoCopySurvives(node: Json, injected: seq<Injection>)
    requires WellNamed(injected) && SelfContained(injected)
    ensures CopyFree(Hoisted(node, injected), injected)
    decreases node
  {
    var hoisted := Hoisted(node, injected);
    match node
    case Obj(fields) =>
      var k := FirstMatch(node, injected);
      var m := FirstMatch(hoisted, injected);
      if k < |injected| { ReferredIsOwn(injected, k); }
      if m < |injected| {
        assert RefFree(injected[m].schema, injected);
        UnhoistedIsUnchanged(node, injected);
        assert false;
      }
      if k == |injected| {
        forall key | key in hoisted.fields ensures CopyFree(hoisted.fields[key], injected) {
          NoCopySurvives(fields[key], injected);
        }
      }
    case Arr(items) =>
      forall i | 0 <= i < |items| ensures CopyFree(hoisted.items[i], injected) {
        NoCopySurvives(items[i], injected);
      }
    case _ =>
  }

  lemma {:induction false} CopyFreeIsFixed(node: Json, injected: seq<Injection>)
    requires CopyFree(node, injected)
    ensures Hoisted(node, injected) == node
    decreases node
  {
    match node
    case Obj(fields) =>
      forall key | key in fields ensures Hoisted(fields[key], injected) == fields[key] {
        CopyFreeIsFixed(fields[key], injected);
      }
    case Arr(items) =>
      forall i | 0 <= i < |items| ensures Hoisted(items[i], injected) == items[i] {
        CopyFreeIsFixed(items[i], injected);
      }
    case _ =>
  }

  /** Hoisting twice is hoisting once. */
  lemma HoistingIsIdempotent(node: Json, injected: seq<Injection>)
    requires WellNamed(injected) && SelfContained(injected)
    ensures Hoisted(Hoisted(node, injected), injected) == Hoisted(node, injected)
  {
    NoCopySurvives(node, injected);
    CopyFreeIsFixed(Hoisted(node, injected), injected);
  }

  /** A node that hoisting rebuilt is an injected reference only if it was one already. */
  lemma RebuiltIsNoNewRef(node: Json, injected: seq<Injection>)
    requires node.Obj? && FirstMatch(node, injected) == |injected|
    ensures Referred(Hoisted(node, injected), injected) == |injected| || Referred(node, injected) < |injected|
  {
  }

  lemma {:induction false} HoistedResolves(node: Json, injected: seq<Injection>)
    requires WellNamed(injected) && SelfContained(injected) && RefFree(node, injected)
    ensures Resolved(Hoisted(node, injected), injected) == node
    decreases node
  {
    var hoisted := Hoisted(node, injected);
    match node
    case Obj(fields) =>
      var k := FirstMatch(node, injected);
      if k < |injected| {
        ReferredIsOwn(injected, k);
      } else {
        RebuiltIsNoNewRef(node, injected);
        forall key | key in fields ensures Resolved(hoisted.fields[key], injected) == fields[key] {
          HoistedResolves(fields[key], injected);
        }
      }
    case Arr(items) =>
      forall i | 0 <= i < |items| ensures Resolved(hoisted.items[i], injected) == items[i] {
        HoistedResolves(items[i], injected);
      }
    case _ =>
  }

  /** A reference that was there before hoisting resolves to the schema, never to itself. */
  lemma ExistingRefIsLost(node: Json, injected: seq<Injection>)
    requires WellNamed(injected) && SelfContained(injected) && Referred(node, injected) < |injected|
    ensures Resolved(Hoisted(node, injected), injected) != node
  {
  }

  lemma {:induction false} ResolvesOnlyRefFree(node: Json, injected: seq<Injection>)
    requires WellNamed(injected) && SelfContained(injected)
    requires Resolved(Hoisted(node, injected), injected) == node
    ensures RefFree(node, injected)
    decreases node
  {
    var hoisted := Hoisted(node, injected);
    match node
    case Obj(fields) =>
      var k := FirstMatch(node, injected);
      if k < |injected| {
        assert RefFree(injected[k].schema, injected);
      } else if Referred(node, injected) < |injected| {
        ExistingRefIsLost(node, injected);
      } else {
        RebuiltIsNoNewRef(node, injected);
        assert Resolved(hoisted, injected).fields == fields;
        forall key | key in fields ensures RefFree(fields[key], injected) {
          assert Resolved(hoisted, injected).fields[key] == Resolved(hoisted.fields[key], injected);
          ResolvesOnlyRefFree(fields[key], injected);
        }
      }
    case Arr(items) =>
      forall i | 0 <= i < |items| ensures RefFree(items[i], injected) {
        assert Resolved(hoisted, injected).items[i] == Resolved(hoisted.items[i], injected);
        ResolvesOnlyRefFree(items[i], injected);
      }
    case _ =>
  }

  /** Hoisting preserves meaning: following the injected references in the hoisted
      document gives the document back exactly when it held none of them to begin with,
      which is what refusing an already declared name is for. */
  lemma HoistingPreservesMeaningExactly(node: Json, injected: seq<Injection>)
    requires WellNamed(injected) && SelfContained(injected)
    ensures Resolved(Hoisted(node, injected), injected) == node <==> RefFree(node, injected)
  {
    if RefFree(node, injected) { HoistedResolves(node, injected); }
    if Resolved(Hoisted(node, injected), injected) == node { ResolvesOnlyRefFree(node, injected); }
  }
}
