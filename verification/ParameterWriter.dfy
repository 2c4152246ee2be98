/**
 * `ParameterWriter`: writes OpenAPI 3.0.3 Parameter Objects (section 4.7.12 of
 * the OpenAPI Specification) into a Jackson tree, either as a map of named
 * parameters or as a list.
 */
module ParameterWriter {
  import opened Wrappers
  import opened JsonTree
  import opened JsonNode
  import opened Parameters
  import opened SiblingWriters

  // The property names of a Parameter Object, as they appear on the wire.
  const ParametersKey: string := "parameters"
  const RefKey: string := "$ref"
  const NameKey: string := "name"
  const InKey: string := "in"
  const DescriptionKey: string := "description"
  const RequiredKey: string := "required"
  const SchemaKey: string := "schema"
  const AllowEmptyValueKey: string := "allowEmptyValue"
  const DeprecatedKey: string := "deprecated"
  const StyleKey: string := "style"
  const ExplodeKey: string := "explode"
  const AllowReservedKey: string := "allowReserved"
  const ExampleKey: string := "example"
  const ExamplesKey: string := "examples"
  const ContentKey: string := "content"

  /** The keys the entity writer may put before the extensions, in the order it puts them. */
  const FieldKeys: seq<string> := [
    RefKey, NameKey, InKey, DescriptionKey, RequiredKey, SchemaKey, AllowEmptyValueKey,
    DeprecatedKey, StyleKey, ExplodeKey, AllowReservedKey, ExampleKey, ExamplesKey, ContentKey]

  /**
   * The value the entity writer sets for each key of `FieldKeys`, at the same
   * position; `None` where the getter returns null, so that the setter does
   * nothing.
   */
  function FieldValues(m: Parameter, w: Writers): (vs: seq<Option<Json>>)
    ensures |vs| == |FieldKeys|
  {
    [ Text(m.ref),
      Text(m.name),
      EnumText(m.location, InName),
      Text(m.description),
      Flag(m.required),
      Lift(m.schema, w.writeSchema),
      Flag(m.allowEmptyValue),
      Flag(m.deprecated),
      EnumText(m.style, StyleName),
      Flag(m.explode),
      Flag(m.allowReserved),
      Lift(m.example, w.writeObject),
      Lift(m.examples, w.writeExamples),
      Lift(m.content, w.writeContent) ]
  }

  /** Each property of the Parameter Object with its value, in the order the entity writer sets them. */
  function Slots(m: Parameter, w: Writers): Slots {
    Zip(FieldKeys, FieldValues(m, w))
  }

  /** The members for the non-null properties, in the order they are set. */
  function Fields(m: Parameter, w: Writers): Members {
    Present(Slots(m, w))
  }

  /**
   * The object the entity writer fills into a fresh, empty node: the
   * properties, with the extension members put on top of them.
   */
  function Render(m: Parameter, w: Writers): Members {
    PutAll(Fields(m, w), ExtensionMembers(m, w))
  }

  lemma FieldKeysDistinct()
    ensures Distinct(FieldKeys)
  {
  }

  /** The properties are set under the keys of `FieldKeys`, in that order. */
  lemma SlotsKeys(m: Parameter, w: Writers)
    ensures Names(Slots(m, w)) == FieldKeys
  {
    ZipNames(FieldKeys, FieldValues(m, w));
  }

  /**
   * The written properties follow the fixed order `$ref`, `name`, `in`, ...,
   * `content`, and no key is written twice.
   */
  lemma FieldsInKeyOrder(m: Parameter, w: Writers)
    ensures Subsequence(Keys(Fields(m, w)), FieldKeys)
    ensures UniqueKeys(Fields(m, w))
  {
    SlotsKeys(m, w);
    PresentInOrder(Slots(m, w));
    FieldKeysDistinct();
    SubsequenceDistinct(Keys(Fields(m, w)), FieldKeys);
  }

  /** A property is written exactly when the model's value is not null, and then with that value. */
  lemma FieldsLookup(m: Parameter, w: Writers, i: nat)
    requires i < |FieldKeys|
    ensures Lookup(Fields(m, w), FieldKeys[i]) == FieldValues(m, w)[i]
  {
    SlotsKeys(m, w);
    FieldKeysDistinct();
    PresentLookup(Slots(m, w), i);
  }

  /** No key outside `FieldKeys` is written among the properties. */
  lemma FieldsKnownKeys(m: Parameter, w: Writers, k: string)
    requires k !in FieldKeys
    ensures Lookup(Fields(m, w), k) == None
  {
    FieldsInKeyOrder(m, w);
    if k in Keys(Fields(m, w)) {
      SubsequenceIn(Keys(Fields(m, w)), FieldKeys, k);
    }
  }

  /** The rendered object never holds a key twice, even when an extension reuses a property's key. */
  lemma RenderUniqueKeys(m: Parameter, w: Writers)
    ensures UniqueKeys(Render(m, w))
  {
    FieldsInKeyOrder(m, w);
  }

  /** Into a fresh node, the entity writer puts `Render(m, w)`. */
  lemma RenderFresh(m: Parameter, w: Writers)
    ensures PutAll(SetAll([], Slots(m, w)), ExtensionMembers(m, w)) == Render(m, w)
  {
    var f := Fields(m, w);
    SetAllPresent([], Slots(m, w));
    FieldsInKeyOrder(m, w);
    assert [] + f == f;
    PutAllFresh([], f);
  }

  /**
   * Under a property's key the rendered object holds the last extension
   * member with that key, if there is one, and otherwise the property's own
   * value, or nothing when the model's value is null.
   */
  lemma RenderProperty(m: Parameter, w: Writers, i: nat)
    requires i < |FieldKeys|
    ensures var x := LastValue(ExtensionMembers(m, w), FieldKeys[i]);
      Lookup(Render(m, w), FieldKeys[i]) == if x.Some? then x else FieldValues(m, w)[i]
  {
    PutAllLookup(Fields(m, w), ExtensionMembers(m, w), FieldKeys[i]);
    FieldsLookup(m, w, i);
  }

  /** Under any other key the rendered object holds what the extension writer put last, if anything. */
  lemma RenderOtherKey(m: Parameter, w: Writers, k: string)
    requires k !in FieldKeys
    ensures Lookup(Render(m, w), k) == LastValue(ExtensionMembers(m, w), k)
  {
    PutAllLookup(Fields(m, w), ExtensionMembers(m, w), k);
    FieldsKnownKeys(m, w, k);
  }

  /**
   * When the extensions bring keys of their own, the rendered object is the
   * properties in key order followed by the extensions in their order.
   */
  lemma RenderLayout(m: Parameter, w: Writers)
    requires UniqueKeys(Fields(m, w) + ExtensionMembers(m, w))
    ensures Render(m, w) == Fields(m, w) + ExtensionMembers(m, w)
  {
    PutAllFresh(Fields(m, w), ExtensionMembers(m, w));
  }

  /**
   * `writeParameter(node, model)`: sets `$ref`, `name`, `in`, `description`,
   * `required`, `schema`, `allowEmptyValue`, `deprecated`, `style`, `explode`,
   * `allowReserved`, `example`, `examples` and `content`, each only when the
   * model's value is not null, and then puts the extensions.
   */
  method WriteParameter(node: ObjectNode, model: Parameter, w: Writers)
    requires node.Valid()
    modifies node
    ensures node.Valid()
    ensures node.members == PutAll(SetAll(old(node.members), Slots(model, w)), ExtensionMembers(model, w))
  {
    ghost var s := Slots(model, w);
    assert s[0..] == s;
    SetAllStep(node.members, s, 0);
    StringProperty(node, RefKey, model.ref);
    SetAllStep(node.members, s, 1);
    StringProperty(node, NameKey, model.name);
    SetAllStep(node.members, s, 2);
    EnumProperty(node, InKey, model.location, InName);
    SetAllStep(node.members, s, 3);
    StringProperty(node, DescriptionKey, model.description);
    SetAllStep(node.members, s, 4);
    BooleanProperty(node, RequiredKey, model.required);
    SetAllStep(node.members, s, 5);
    WriteSchema(node, model.schema, SchemaKey, w);
    SetAllStep(node.members, s, 6);
    BooleanProperty(node, AllowEmptyValueKey, model.allowEmptyValue);
    SetAllStep(node.members, s, 7);
    BooleanProperty(node, DeprecatedKey, model.deprecated);
    SetAllStep(node.members, s, 8);
    EnumProperty(node, StyleKey, model.style, StyleName);
    SetAllStep(node.members, s, 9);
    BooleanProperty(node, ExplodeKey, model.explode);
    SetAllStep(node.members, s, 10);
    BooleanProperty(node, AllowReservedKey, model.allowReserved);
    SetAllStep(node.members, s, 11);
    WriteObject(node, ExampleKey, model.example, w);
    SetAllStep(node.members, s, 12);
    WriteExamples(node, model.examples, w);
    SetAllStep(node.members, s, 13);
    WriteContent(node, model.content, w);
    assert s[14..] == [];
    WriteExtensions(node, model, w);
  }

  /** The value `writeParameter(parent, model, name)` puts under `name`, or nothing for a null model. */
  function NamedObject(model: Option<Parameter>, w: Writers): Option<Json> {
    if model.Some? then Some(JObject(Render(model.value, w))) else None
  }

  /** `writeParameter(parent, model, name)`: a null model is skipped; otherwise its object is put under `name`. */
  method WriteNamedParameter(parent: ObjectNode, model: Option<Parameter>, name: string, w: Writers)
    requires parent.Valid()
    modifies parent
    ensures parent.Valid()
    ensures parent.members == PutIfSome(old(parent.members), name, NamedObject(model, w))
    ensures model.None? ==> parent.members == old(parent.members)
  {
    if model.None? {
      return;
    }
    var node := new ObjectNode();
    WriteParameter(node, model.value, w);
    RenderFresh(model.value, w);
    parent.Put(name, node.Value());
  }

  /** A Java map never holds the same key twice. */
  predicate DistinctNames(ps: seq<(string, Option<Parameter>)>) {
    forall i, j :: 0 <= i < j < |ps| ==> ps[i].0 != ps[j].0
  }

  /** The names of the map, in its iteration order. */
  function MapNames(ps: seq<(string, Option<Parameter>)>): (ks: seq<string>)
    ensures |ks| == |ps|
  {
    seq(|ps|, i requires 0 <= i < |ps| => ps[i].0)
  }

  /** The names of the map whose parameter is not null. */
  function PresentNames(ps: seq<(string, Option<Parameter>)>): set<string> {
    set j | 0 <= j < |ps| && ps[j].1.Some? :: ps[j].0
  }

  /** One slot per entry of the map: its name, with the object written for its parameter. */
  function NamedSlots(ps: seq<(string, Option<Parameter>)>, w: Writers): (s: Slots)
    ensures |s| == |ps|
  {
    seq(|ps|, i requires 0 <= i < |ps| => (ps[i].0, NamedObject(ps[i].1, w)))
  }

  /** The members of the `"parameters"` object written for the map `ps`. */
  function ParametersObject(ps: seq<(string, Option<Parameter>)>, w: Writers): Members {
    Present(NamedSlots(ps, w))
  }

  /** One more turn of the map writer's loop. */
  lemma ParametersObjectStep(ps: seq<(string, Option<Parameter>)>, w: Writers, i: nat)
    requires DistinctNames(ps) && i < |ps|
    ensures ParametersObject(ps[..i + 1], w)
         == PutIfSome(ParametersObject(ps[..i], w), ps[i].0, NamedObject(ps[i].1, w))
  {
    var s := NamedSlots(ps[..i], w);
    assert NamedSlots(ps[..i + 1], w) == s + [(ps[i].0, NamedObject(ps[i].1, w))];
    assert ps[i].0 !in Keys(Present(s)) by {
      PresentKeys(s, ps[i].0);
      forall j | 0 <= j < |s| ensures s[j].0 != ps[i].0 {
        assert s[j].0 == ps[j].0;
      }
    }
    PresentSnoc(s, ps[i].0, NamedObject(ps[i].1, w));
  }

  /** The keys of the `"parameters"` object are exactly the names whose parameter is not null. */
  lemma ParametersObjectKeys(ps: seq<(string, Option<Parameter>)>, w: Writers, k: string)
    ensures k in Keys(ParametersObject(ps, w)) <==> k in PresentNames(ps)
  {
    var s := NamedSlots(ps, w);
    PresentKeys(s, k);
    if k in PresentNames(ps) {
      var j :| 0 <= j < |ps| && ps[j].1.Some? && ps[j].0 == k;
      assert s[j].0 == k && s[j].1.Some?;
    }
  }

  /** They follow the map's iteration order, and none is repeated. */
  lemma ParametersObjectInOrder(ps: seq<(string, Option<Parameter>)>, w: Writers)
    requires DistinctNames(ps)
    ensures Subsequence(Keys(ParametersObject(ps, w)), MapNames(ps))
    ensures UniqueKeys(ParametersObject(ps, w))
  {
    var s := NamedSlots(ps, w);
    assert Names(s) == MapNames(ps);
    PresentInOrder(s);
    SubsequenceDistinct(Keys(ParametersObject(ps, w)), MapNames(ps));
  }

  /** Each name holds the object rendered from its parameter, or is absent when the parameter is null. */
  lemma ParametersObjectLookup(ps: seq<(string, Option<Parameter>)>, w: Writers, j: nat)
    requires DistinctNames(ps) && j < |ps|
    ensures Lookup(ParametersObject(ps, w), ps[j].0) == NamedObject(ps[j].1, w)
  {
    var s := NamedSlots(ps, w);
    assert Names(s) == MapNames(ps);
    PresentLookup(s, j);
  }

  /**
   * `writeParameters(parent, parameters)`: nothing for a null map; otherwise a
   * `"parameters"` object holding one member per non-null parameter.
   */
  method WriteParameters(parent: ObjectNode, parameters: Option<seq<(string, Option<Parameter>)>>, w: Writers)
    requires parent.Valid()
    requires parameters.Some? ==> DistinctNames(parameters.value)
    modifies parent
    ensures parent.Valid()
    ensures parameters.None? ==> parent.members == old(parent.members)
    ensures parameters.Some? ==>
      parent.members == Put(old(parent.members), ParametersKey, JObject(ParametersObject(parameters.value, w)))
    ensures parameters.Some? ==>
      Lookup(parent.members, ParametersKey) == Some(JObject(ParametersObject(parameters.value, w)))
    ensures forall k :: k != ParametersKey ==> Lookup(parent.members, k) == Lookup(old(parent.members), k)
  {
    if parameters.None? {
      return;
    }
    var ps := parameters.value;
    var node := new ObjectNode();
    for i := 0 to |ps|
      invariant node.Valid()
      invariant node.members == ParametersObject(ps[..i], w)
      invariant parent.members == old(parent.members)
    {
      ParametersObjectStep(ps, w, i);
      WriteNamedParameter(node, ps[i].1, ps[i].0, w);
    }
    assert ps[..|ps|] == ps;
    parent.Put(ParametersKey, node.Value());
    forall k | true
      ensures Lookup(parent.members, k) == if k == ParametersKey then Some(node.Value()) else Lookup(old(parent.members), k)
    {
      PutLookup(old(parent.members), ParametersKey, node.Value(), k);
    }
  }

  /** The index of the first null element of the list, if there is one. */
  function FirstNull(ms: seq<Option<Parameter>>): (r: Option<nat>)
    ensures r.None? <==> forall k :: 0 <= k < |ms| ==> ms[k].Some?
    ensures r.Some? ==> r.value < |ms| && ms[r.value].None? && forall k :: 0 <= k < r.value ==> ms[k].Some?
  {
    if ms == [] then None
    else if ms[0].None? then Some(0)
    else match FirstNull(ms[1..])
      case None => None
      case Some(j) => Some(j + 1)
  }

  /** The object appended for one list element: it stays empty when the element is null. */
  function ElementObject(m: Option<Parameter>, w: Writers): Json {
    if m.Some? then JObject(Render(m.value, w)) else JObject([])
  }

  /** One object per element of `ms`, in order. */
  function ElementObjects(ms: seq<Option<Parameter>>, w: Writers): (items: seq<Json>)
    ensures |items| == |ms|
  {
    seq(|ms|, i requires 0 <= i < |ms| => ElementObject(ms[i], w))
  }

  lemma ElementObjectsSnoc(ms: seq<Option<Parameter>>, w: Writers, i: nat)
    requires i < |ms|
    ensures ElementObjects(ms[..i + 1], w) == ElementObjects(ms[..i], w) + [ElementObject(ms[i], w)]
  {
  }

  /**
   * The `"parameters"` array written for the list `ms`: one object per
   * element, up to and including the first null element, whose object stays
   * empty because the entity writer fails on it.
   */
  function ParametersArray(ms: seq<Option<Parameter>>, w: Writers): seq<Json> {
    ElementObjects(ms[..if FirstNull(ms).Some? then FirstNull(ms).value + 1 else |ms|], w)
  }

  /**
   * Without null elements the array has one element per list element, the
   * rendering of that parameter, in list order; with one, it ends with an
   * empty object at the first null element.
   */
  lemma ParametersArrayShape(ms: seq<Option<Parameter>>, w: Writers)
    ensures var items := ParametersArray(ms, w);
      FirstNull(ms).None? ==>
        |items| == |ms| && forall i :: 0 <= i < |ms| ==> items[i] == JObject(Render(ms[i].value, w))
    ensures var items := ParametersArray(ms, w);
      FirstNull(ms).Some? ==>
        && |items| == FirstNull(ms).value + 1
        && items[|items| - 1] == JObject([])
        && forall i :: 0 <= i < |items| - 1 ==> items[i] == JObject(Render(ms[i].value, w))
  {
    var n := if FirstNull(ms).Some? then FirstNull(ms).value + 1 else |ms|;
  }

  lemma ParametersArrayStopped(ms: seq<Option<Parameter>>, w: Writers, i: nat)
    requires i < |ms| && ms[i].None?
    requires forall k :: 0 <= k < i ==> ms[k].Some?
    ensures FirstNull(ms) == Some(i)
    ensures ParametersArray(ms, w) == ElementObjects(ms[..i], w) + [ElementObject(ms[i], w)]
  {
    var r := FirstNull(ms);
    assert r.Some? && r.value == i;
    ElementObjectsSnoc(ms, w, i);
  }

  /**
   * The body of the list writer's loop: `addObject()` appends an empty object,
   * then the entity writer fills it, or fails at once when the model is null.
   */
  method AddParameterObject(node: ArrayNode, model: Option<Parameter>, w: Writers) returns (failed: bool)
    modifies node
    ensures failed == model.None?
    ensures node.items == old(node.items) + [ElementObject(model, w)]
  {
    var paramNode := new ObjectNode();
    failed := model.None?;
    if !failed {
      WriteParameter(paramNode, model.value, w);
      RenderFresh(model.value, w);
    }
    node.Add(paramNode.Value());
  }

  /** How a call of the list writer ends. */
  datatype Completion = Normal | NullPointerException(index: nat)

  /** The outcome the list writer reports for a non-null list. */
  function ListOutcome(ms: seq<Option<Parameter>>): Completion {
    if FirstNull(ms).Some? then NullPointerException(FirstNull(ms).value) else Normal
  }

  /**
   * The loop of the list writer: one `addObject()` and one entity write per
   * element, in list order, until an element is null.
   */
  method WriteElements(node: ArrayNode, ms: seq<Option<Parameter>>, w: Writers) returns (outcome: Completion)
    modifies node
    ensures node.items == old(node.items) + ParametersArray(ms, w)
    ensures outcome == ListOutcome(ms)
  {
    ghost var start := node.items;
    outcome := Normal;
    var i := 0;
    while i < |ms|
      invariant 0 <= i <= |ms|
      invariant forall k :: 0 <= k < i ==> ms[k].Some?
      invariant node.items == start + ElementObjects(ms[..i], w)
      invariant outcome == Normal
    {
      var failed := AddParameterObject(node, ms[i], w);
      if failed {
        outcome := NullPointerException(i);
        break;
      }
      ElementObjectsSnoc(ms, w, i);
      i := i + 1;
    }
    if outcome.Normal? {
      assert ms[..|ms|] == ms;
    } else {
      ParametersArrayStopped(ms, w, i);
    }
  }

  /**
   * `writeParameterList(parent, models)`: nothing for a null list; otherwise a
   * `"parameters"` array with one object per element, in list order. A null
   * element is not skipped: an empty object is appended for it and the entity
   * writer then fails on the null model.
   */
  method WriteParameterList(parent: ObjectNode, models: Option<seq<Option<Parameter>>>, w: Writers)
    returns (outcome: Completion)
    requires parent.Valid()
    modifies parent
    ensures parent.Valid()
    ensures models.None? ==> outcome == Normal && parent.members == old(parent.members)
    ensures models.Some? ==>
      parent.members == Put(old(parent.members), ParametersKey, JArray(ParametersArray(models.value, w)))
    ensures models.Some? ==>
      Lookup(parent.members, ParametersKey) == Some(JArray(ParametersArray(models.value, w)))
    ensures models.Some? ==> outcome == ListOutcome(models.value)
    ensures forall k :: k != ParametersKey ==> Lookup(parent.members, k) == Lookup(old(parent.members), k)
  {
    outcome := Normal;
    if models.None? {
      return;
    }
    var node := new ArrayNode();
    outcome := WriteElements(node, models.value, w);
    assert node.items == ParametersArray(models.value, w);
    parent.Put(ParametersKey, JArray(node.items));
    forall k | true
      ensures Lookup(parent.members, k) == if k == ParametersKey then Some(JArray(node.items)) else Lookup(old(parent.members), k)
    {
      PutLookup(old(parent.members), ParametersKey, JArray(node.items), k);
    }
  }

  /** The parameters of a map, in its iteration order. */
  function MapValues(ps: seq<(string, Option<Parameter>)>): (ms: seq<Option<Parameter>>)
    ensures |ms| == |ps|
  {
    seq(|ps|, i requires 0 <= i < |ps| => ps[i].1)
  }

  /**
   * A parameter renders to the same object on both paths: for a map without
   * null parameters, the `"parameters"` object holds, in order, the very
   * objects the list writer appends for the map's parameters.
   */
  lemma MapAndListAgree(ps: seq<(string, Option<Parameter>)>, w: Writers)
    requires forall i :: 0 <= i < |ps| ==> ps[i].1.Some?
    ensures Values(ParametersObject(ps, w)) == ParametersArray(MapValues(ps), w)
  {
    var s := NamedSlots(ps, w);
    PresentAll(s);
    ParametersArrayShape(MapValues(ps), w);
  }
}
