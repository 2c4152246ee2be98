/**
 * The writers `ParameterWriter` delegates to: `SchemaWriter`, `ObjectWriter`,
 * `ExampleWriter`, `ContentWriter` and `ExtensionWriter`. Their own code is not
 * part of this model, so what each one renders is a parameter of the model.
 * Each returns at once for a null value; otherwise the first four put one
 * member under their key, and the extension writer puts its members onto the
 * node one after another.
 */
module SiblingWriters {
  import opened Wrappers
  import opened JsonTree
  import opened JsonNode
  import opened Parameters

  /** What each sibling writer renders for a non-null value. */
  datatype Writers = Writers(
    writeSchema: Schema -> Json,
    writeObject: AnyValue -> Json,
    writeExamples: ExampleMap -> Json,
    writeContent: ContentMap -> Json,
    writeExtensions: ExtensionMap -> Members)

  /** The rendering of a nullable value, or nothing for null. */
  function Lift<T>(v: Option<T>, render: T -> Json): Option<Json> {
    if v.Some? then Some(render(v.value)) else None
  }

  /** The members the extension writer puts for `model`. */
  function ExtensionMembers(model: Parameter, w: Writers): Members {
    if model.extensions.Some? then w.writeExtensions(model.extensions.value) else []
  }

  /** `SchemaWriter.writeSchema(node, schema, key)`. */
  method WriteSchema(node: ObjectNode, schema: Option<Schema>, key: string, w: Writers)
    requires node.Valid()
    modifies node
    ensures node.Valid()
    ensures node.members == PutIfSome(old(node.members), key, Lift(schema, w.writeSchema))
  {
    node.PutIfPresent(key, Lift(schema, w.writeSchema));
  }

  /** `ObjectWriter.writeObject(node, key, value)`. */
  method WriteObject(node: ObjectNode, key: string, value: Option<AnyValue>, w: Writers)
    requires node.Valid()
    modifies node
    ensures node.Valid()
    ensures node.members == PutIfSome(old(node.members), key, Lift(value, w.writeObject))
  {
    node.PutIfPresent(key, Lift(value, w.writeObject));
  }

  /** `ExampleWriter.writeExamples(node, examples)`, which writes under `"examples"`. */
  method WriteExamples(node: ObjectNode, examples: Option<ExampleMap>, w: Writers)
    requires node.Valid()
    modifies node
    ensures node.Valid()
    ensures node.members == PutIfSome(old(node.members), "examples", Lift(examples, w.writeExamples))
  {
    node.PutIfPresent("examples", Lift(examples, w.writeExamples));
  }

  /** `ContentWriter.writeContent(node, content)`, which writes under `"content"`. */
  method WriteContent(node: ObjectNode, content: Option<ContentMap>, w: Writers)
    requires node.Valid()
    modifies node
    ensures node.Valid()
    ensures node.members == PutIfSome(old(node.members), "content", Lift(content, w.writeContent))
  {
    node.PutIfPresent("content", Lift(content, w.writeContent));
  }

  /** `ExtensionWriter.writeExtensions(node, model)`: puts each extension member in turn. */
  method WriteExtensions(node: ObjectNode, model: Parameter, w: Writers)
    requires node.Valid()
    modifies node
    ensures node.Valid()
    ensures node.members == PutAll(old(node.members), ExtensionMembers(model, w))
  {
    var xs := ExtensionMembers(model, w);
    for i := 0 to |xs|
      invariant node.Valid()
      invariant node.members == PutAll(old(node.members), xs[..i])
    {
      assert xs[..i + 1][..i] == xs[..i];
      node.Put(xs[i].0, xs[i].1);
    }
    assert xs[..|xs|] == xs;
  }
}
