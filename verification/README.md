# ParameterWriter — a Dafny model

SmallRye OpenAPI's `ParameterWriter` turns the MicroProfile OpenAPI
`Parameter` model into Parameter Objects (section 4.7.12 of the OpenAPI
Specification 3.0.3) inside a Jackson tree that is later printed as JSON or
YAML. It has two public entry points and two private helpers:

- `writeParameters(parent, map)` puts a `"parameters"` object under
  `parent` and, for each name of the map in its iteration order, puts the
  rendering of that parameter under the name, skipping null parameters;
- `writeParameterList(parent, list)` puts a `"parameters"` array and, for
  each element in list order, appends an object and renders the element into it;
- `writeParameter(parent, model, name)` is the null-skipping step of the map path;
- `writeParameter(node, model)` sets the fourteen properties `$ref`, `name`,
  `in`, `description`, `required`, `schema`, `allowEmptyValue`,
  `deprecated`, `style`, `explode`, `allowReserved`, `example`,
  `examples`, `content` in that order, each only when the model's value is not
  null, and then hands the node to the extension writer.

The model is imperative, like the source. `JsonNode.ObjectNode` and
`JsonNode.ArrayNode` are the Jackson nodes, classes whose `members` and `items`
fields the methods change. An object's members are an ordered sequence of
key/value pairs with distinct keys: `put` replaces an existing key where it
stands and appends a new one, as Jackson's insertion-ordered `ObjectNode` does.
Each Java method is a Dafny method with the same steps. Each one ensures the new
state in terms of a specification function, and the lemmas next to it prove what
that function means:

- `Fields` is the properties that are set, in their fixed order;
- `Render` is the properties with the extensions put over them;
- `ParametersObject` and `ParametersArray` are what the two entry points write.

A Java `null` is `None` of an `Option`. A Java `Map` is a sequence of
(name, parameter) pairs with distinct names, in the map's iteration order.

The Java code creates the child node in the parent first (`putObject`,
`addObject`) and fills it afterwards. The model builds the child and then
inserts it. The two agree because nothing else holds a reference to the child in
between.

A null element of the list is not skipped: `addObject()` has already appended an
empty object, and the entity writer then dereferences the null model. The model
keeps this behaviour. `WriteParameterList` returns a `Completion` that is
`NullPointerException(i)` for the first null element `i`. The array then ends
with that empty object, and the later elements are never written.

Two consequences of the code are easy to miss:

- a `$ref` does not suppress the other properties (`FieldsLookup`);
- a null list element is not skipped on the list path.

## Model

| member | source | states |
|---|---|---|
| ParameterWriter.WriteParameters | implementation/src/main/java/io/smallrye/openapi/runtime/io/parameter/ParameterWriter.java:37-45 | a null map leaves the parent unchanged; otherwise the parent gains (or has replaced in place) the key `"parameters"` whose value is the object `ParametersObject` for the map, and every other key of the parent keeps its value |
| ParameterWriter.ParametersObjectStep | implementation/src/main/java/io/smallrye/openapi/runtime/io/parameter/ParameterWriter.java:42-44 | one turn of the loop over the map's names: the object for the first i+1 entries is the object for the first i entries with the i-th name put when its parameter is not null |
| ParameterWriter.ParametersObjectKeys | implementation/src/main/java/io/smallrye/openapi/runtime/io/parameter/ParameterWriter.java:42-57 | the `"parameters"` object has a key exactly for each name whose parameter is not null (both directions) |
| ParameterWriter.ParametersObjectInOrder | implementation/src/main/java/io/smallrye/openapi/runtime/io/parameter/ParameterWriter.java:42-44 | its keys appear in the map's iteration order, as a subsequence of the names, and none twice |
| ParameterWriter.ParametersObjectLookup | implementation/src/main/java/io/smallrye/openapi/runtime/io/parameter/ParameterWriter.java:54-59 | under each name it holds the rendering of that name's parameter, or nothing when the parameter is null |
| ParameterWriter.WriteNamedParameter | implementation/src/main/java/io/smallrye/openapi/runtime/io/parameter/ParameterWriter.java:54-60 | a null model leaves the parent unchanged; otherwise the parent holds, under `name`, the object the entity writer produces in a fresh node |
| ParameterWriter.WriteParameterList | implementation/src/main/java/io/smallrye/openapi/runtime/io/parameter/ParameterWriter.java:68-77 | a null list leaves the parent unchanged and completes normally; otherwise the parent's `"parameters"` is the array `ParametersArray`, the call ends with a null-pointer failure at the first null element if there is one, and every other key keeps its value |
| ParameterWriter.WriteElements | implementation/src/main/java/io/smallrye/openapi/runtime/io/parameter/ParameterWriter.java:73-76 | the loop appends exactly `ParametersArray` to the array and reports the first null element |
| ParameterWriter.AddParameterObject | implementation/src/main/java/io/smallrye/openapi/runtime/io/parameter/ParameterWriter.java:74-75 | one turn of the list loop appends one object: the rendering of the model, or an empty object when the model is null, and reports failure exactly for a null model |
| ParameterWriter.FirstNull | implementation/src/main/java/io/smallrye/openapi/runtime/io/parameter/ParameterWriter.java:73-75 | the index of the first null element of the list: none exactly when every element is non-null, otherwise a null element with only non-null elements before it |
| ParameterWriter.ParametersArrayShape | implementation/src/main/java/io/smallrye/openapi/runtime/io/parameter/ParameterWriter.java:72-76 | without null elements the array has one object per element, in list order, each the rendering of that element; with one, it stops at the first null element with an empty object |
| ParameterWriter.ParametersArrayStopped | implementation/src/main/java/io/smallrye/openapi/runtime/io/parameter/ParameterWriter.java:73-75 | when element i is the first null, the array is the objects of the elements before i followed by the empty object for i |
| ParameterWriter.WriteParameter | implementation/src/main/java/io/smallrye/openapi/runtime/io/parameter/ParameterWriter.java:85-101 | the node's new members are its old members with the fourteen properties set in order, each only when not null, and then the extension members put one after another |
| ParameterWriter.SlotsKeys | implementation/src/main/java/io/smallrye/openapi/runtime/io/parameter/ParameterWriter.java:86-99 | the properties are set under the keys `$ref`, `name`, `in`, `description`, `required`, `schema`, `allowEmptyValue`, `deprecated`, `style`, `explode`, `allowReserved`, `example`, `examples`, `content`, in that order |
| ParameterWriter.FieldsInKeyOrder | implementation/src/main/java/io/smallrye/openapi/runtime/io/parameter/ParameterWriter.java:86-99 | the written properties follow that fixed key order and no key is written twice |
| ParameterWriter.FieldsLookup | implementation/src/main/java/io/smallrye/openapi/runtime/io/parameter/ParameterWriter.java:86-99 | each property is present exactly when the model's value is not null, and then holds that value (string, boolean, enum name or sibling writer's rendering), whatever the other properties, `$ref` included |
| ParameterWriter.FieldsKnownKeys | implementation/src/main/java/io/smallrye/openapi/runtime/io/parameter/ParameterWriter.java:86-99 | no key other than the fourteen property keys is written before the extensions |
| ParameterWriter.RenderUniqueKeys | implementation/src/main/java/io/smallrye/openapi/runtime/io/parameter/ParameterWriter.java:85-100 | the rendered object never holds a key twice, even when an extension reuses a property key |
| ParameterWriter.RenderFresh | implementation/src/main/java/io/smallrye/openapi/runtime/io/parameter/ParameterWriter.java:58-59 | rendering into a fresh empty node gives exactly `Render`, the object both entry points insert |
| ParameterWriter.RenderProperty | implementation/src/main/java/io/smallrye/openapi/runtime/io/parameter/ParameterWriter.java:86-100 | under a property key the rendered object holds the last extension member with that key if there is one, and otherwise the property's value or nothing |
| ParameterWriter.RenderOtherKey | implementation/src/main/java/io/smallrye/openapi/runtime/io/parameter/ParameterWriter.java:100 | under any other key it holds the value the extension writer put last under that key, or nothing |
| ParameterWriter.RenderLayout | implementation/src/main/java/io/smallrye/openapi/runtime/io/parameter/ParameterWriter.java:86-100 | when the extension keys are new, the rendered object is the properties in key order followed by the extension members in their order |
| ParameterWriter.MapAndListAgree | implementation/src/main/java/io/smallrye/openapi/runtime/io/parameter/ParameterWriter.java:41-75 | for a map without null parameters, the values of the `"parameters"` object are, in order, exactly the objects the list writer appends for the same parameters |
| Parameters.InNameInjective | implementation/src/main/java/io/smallrye/openapi/runtime/io/parameter/ParameterWriter.java:88 | distinct `in` locations are written as distinct strings |
| Parameters.StyleNameInjective | implementation/src/main/java/io/smallrye/openapi/runtime/io/parameter/ParameterWriter.java:94 | distinct styles are written as distinct strings |
| JsonNode.ObjectNode.constructor | implementation/src/main/java/io/smallrye/openapi/runtime/io/parameter/ParameterWriter.java:58 | a new object node is empty |
| JsonNode.ObjectNode.Put | implementation/src/main/java/io/smallrye/openapi/runtime/io/parameter/ParameterWriter.java:41 | `put` sets one key: a present key is replaced where it stands, a new key is appended, and keys stay distinct |
| JsonNode.ObjectNode.PutIfPresent | implementation/src/main/java/io/smallrye/openapi/runtime/io/parameter/ParameterWriter.java:86-99 | the setters' shared rule: a null value changes nothing, a non-null value is put |
| JsonNode.ArrayNode.constructor | implementation/src/main/java/io/smallrye/openapi/runtime/io/parameter/ParameterWriter.java:72 | a new array node is empty |
| JsonNode.ArrayNode.Add | implementation/src/main/java/io/smallrye/openapi/runtime/io/parameter/ParameterWriter.java:74 | `addObject` appends one element at the end |
| JsonNode.StringProperty | implementation/src/main/java/io/smallrye/openapi/runtime/io/parameter/ParameterWriter.java:86 | `JsonUtil.stringProperty` puts the string under the key when it is not null, else changes nothing |
| JsonNode.EnumProperty | implementation/src/main/java/io/smallrye/openapi/runtime/io/parameter/ParameterWriter.java:88 | `JsonUtil.enumProperty` puts the enum's canonical string when it is not null, else changes nothing |
| JsonNode.BooleanProperty | implementation/src/main/java/io/smallrye/openapi/runtime/io/parameter/ParameterWriter.java:90 | `JsonUtil.booleanProperty` puts the boolean when it is not null, else changes nothing |
| SiblingWriters.WriteSchema | implementation/src/main/java/io/smallrye/openapi/runtime/io/parameter/ParameterWriter.java:91 | `SchemaWriter.writeSchema` puts the schema's rendering under `schema` when it is not null, else changes nothing |
| SiblingWriters.WriteObject | implementation/src/main/java/io/smallrye/openapi/runtime/io/parameter/ParameterWriter.java:97 | `ObjectWriter.writeObject` puts the example's rendering under `example` when it is not null, else changes nothing |
| SiblingWriters.WriteExamples | implementation/src/main/java/io/smallrye/openapi/runtime/io/parameter/ParameterWriter.java:98 | `ExampleWriter.writeExamples` puts the examples under `examples` when not null, else changes nothing |
| SiblingWriters.WriteContent | implementation/src/main/java/io/smallrye/openapi/runtime/io/parameter/ParameterWriter.java:99 | `ContentWriter.writeContent` puts the content under `content` when not null, else changes nothing |
| SiblingWriters.WriteExtensions | implementation/src/main/java/io/smallrye/openapi/runtime/io/parameter/ParameterWriter.java:100 | `ExtensionWriter.writeExtensions` puts each extension member in turn, later ones replacing earlier values of the same key |
| JsonTree.PutKeys | implementation/src/main/java/io/smallrye/openapi/runtime/io/parameter/ParameterWriter.java:41 | `put` keeps the key order: an existing key stays in place, a new key goes last |
| JsonTree.PutLookup | implementation/src/main/java/io/smallrye/openapi/runtime/io/parameter/ParameterWriter.java:41 | after `put(k, v)` the key k holds v and every other key holds what it held before |
| JsonTree.PutUnique | implementation/src/main/java/io/smallrye/openapi/runtime/io/parameter/ParameterWriter.java:41 | `put` keeps the keys distinct |
| JsonTree.PutIdempotent | implementation/src/main/java/io/smallrye/openapi/runtime/io/parameter/ParameterWriter.java:58 | putting the same key and value twice is the same as putting it once |
| JsonTree.PutAllLookup | implementation/src/main/java/io/smallrye/openapi/runtime/io/parameter/ParameterWriter.java:100 | after a sequence of puts, a key holds the last value put under it, or its old value when none was put |
| JsonTree.PutAllAppend | implementation/src/main/java/io/smallrye/openapi/runtime/io/parameter/ParameterWriter.java:100 | putting a + b is putting a and then b |
| JsonTree.PutAllFresh | implementation/src/main/java/io/smallrye/openapi/runtime/io/parameter/ParameterWriter.java:100 | putting members whose keys are all new appends them in order |
| JsonTree.PresentInOrder | implementation/src/main/java/io/smallrye/openapi/runtime/io/parameter/ParameterWriter.java:86-99 | the keys of the non-null settings appear in the order they are set |
| JsonTree.PresentKeys | implementation/src/main/java/io/smallrye/openapi/runtime/io/parameter/ParameterWriter.java:86-99 | a key is present exactly when some setting under it has a non-null value |
| JsonTree.PresentLookup | implementation/src/main/java/io/smallrye/openapi/runtime/io/parameter/ParameterWriter.java:86-99 | with distinct keys, each key holds its own setting's value, or nothing when it is null |
| JsonTree.PresentSnoc | implementation/src/main/java/io/smallrye/openapi/runtime/io/parameter/ParameterWriter.java:42-44 | one more setting under a new key is one more null-skipping put |
| JsonTree.SetAllPresent | implementation/src/main/java/io/smallrye/openapi/runtime/io/parameter/ParameterWriter.java:86-99 | running the null-skipping setters one after another equals putting the non-null settings all at once |
| JsonTree.PresentAll | implementation/src/main/java/io/smallrye/openapi/runtime/io/parameter/ParameterWriter.java:42-44 | when no setting is null, every setting is kept, in order |

## Left out

- Jackson itself, and the JSON or YAML text printed from the tree, are not part of this model. An object node is its ordered list of members; an array node is its list of items.
- `JsonUtil` is not part of this model, nor are `SchemaWriter`, `ObjectWriter`, `ExampleWriter`, `ContentWriter`, `ExtensionWriter` and `ParameterConstant`. Their assumed contract:
  - each setter does nothing for a null value;
  - the schema, example, examples and content writers each put one member under their key;
  - the extension writer puts a sequence of members one after another.
  - What each of them renders is a parameter of the model (`SiblingWriters.Writers`). The key strings are the OpenAPI property names.
- Nested model types (`Schema`, `Example`, `Content`, extension values) are opaque types; only their renderings matter here.
- Parameters.InNameInjective: the canonical enum strings are taken to be the MicroProfile names (`path`, `query`, `header`, `cookie`; `matrix`, `label`, `form`, `simple`, `spaceDelimited`, `pipeDelimited`, `deepObject`). The enum classes are not part of this model.
- ParameterWriter.WriteParameters requires distinct names, which every Java `Map` has. A `Map` whose iteration order changes between `keySet()` and `get` is not modelled; nor are concurrent changes to the map or the list.
- ParameterWriter.WriteParameterList: a null `parent` is not modelled (Java would throw before writing). Of the exceptions the Java code can raise, only the one a null list element causes is modelled.
- ParameterWriter.WriteParameter: the Java `writeParameter(node, model)` with a null `model` is reached only from the list path. There it is the null-pointer outcome described above, so the entity method itself takes a non-null model.
