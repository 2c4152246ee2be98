/**
 * The MicroProfile OpenAPI `Parameter` as the writer sees it: every getter may
 * return null, so every field is optional. Nested model types that only the
 * sibling writers look into are left abstract.
 */
module Parameters {
  import opened Wrappers
  import opened JsonTree

  /** A `Schema` model, rendered by `SchemaWriter`. */
  type Schema
  /** An arbitrary Java object (the `example` value, an extension value), rendered by `ObjectWriter`. */
  type AnyValue
  /** The `Map<String, Example>` of named examples, rendered by `ExampleWriter`. */
  type ExampleMap
  /** A `Content` model (media type name to media type), rendered by `ContentWriter`. */
  type ContentMap
  /** The `Map<String, Object>` of vendor extensions, rendered by `ExtensionWriter`. */
  type ExtensionMap

  /** `Parameter.In`: where in the request the parameter travels. */
  datatype In = Path | Query | Header | Cookie

  /** `Parameter.Style`: how the value is serialised. */
  datatype Style = Matrix | Label | Form | Simple | SpaceDelimited | PipeDelimited | DeepObject

  /** The canonical form of an `In` constant (its `toString`). */
  function InName(i: In): string {
    match i
    case Path => "path"
    case Query => "query"
    case Header => "header"
    case Cookie => "cookie"
  }

  /** The canonical form of a `Style` constant (its `toString`). */
  function StyleName(s: Style): string {
    match s
    case Matrix => "matrix"
    case Label => "label"
    case Form => "form"
    case Simple => "simple"
    case SpaceDelimited => "spaceDelimited"
    case PipeDelimited => "pipeDelimited"
    case DeepObject => "deepObject"
  }

  /** Distinct locations are written as distinct strings. */
  lemma InNameInjective(a: In, b: In)
    ensures InName(a) == InName(b) ==> a == b
  {
  }

  /** Distinct styles are written as distinct strings. */
  lemma StyleNameInjective(a: Style, b: Style)
    ensures StyleName(a) == StyleName(b) ==> a == b
  {
  }

  /** One request parameter; `None` is a getter that returns null. */
  datatype Parameter = Parameter(
    ref: Option<string>,
    name: Option<string>,
    location: Option<In>,
    description: Option<string>,
    required: Option<bool>,
    schema: Option<Schema>,
    allowEmptyValue: Option<bool>,
    deprecated: Option<bool>,
    style: Option<Style>,
    explode: Option<bool>,
    allowReserved: Option<bool>,
    example: Option<AnyValue>,
    examples: Option<ExampleMap>,
    content: Option<ContentMap>,
    extensions: Option<ExtensionMap>)
}
