/**
 * The mutable Jackson nodes the writers are handed, and the JsonUtil setters
 * that put a scalar property only when the domain value is not null.
 */
module JsonNode {
  import opened Wrappers
  import opened JsonTree

  /** A Jackson `ObjectNode`: the members of one JSON object, changed in place. */
  class ObjectNode {
    var members: Members

    ghost predicate Valid()
      reads this
    {
      UniqueKeys(members)
    }

    /** The JSON value this node stands for. */
    function Value(): Json
      reads this
    {
      JObject(members)
    }

    /** A new, empty object node (`objectNode()`, and the child of `putObject`/`addObject`). */
    constructor ()
      ensures Valid() && members == []
    {
      members := [];
    }

    /** `put(key, value)`: sets one member, replacing an existing key where it stands. */
    method Put(key: string, value: Json)
      requires Valid()
      modifies this
      ensures Valid()
      ensures members == JsonTree.Put(old(members), key, value)
    {
      PutUnique(members, key, value);
      members := JsonTree.Put(members, key, value);
    }

    /** The single no-op-on-null rule every property setter relies on. */
    method PutIfPresent(key: string, value: Option<Json>)
      requires Valid()
      modifies this
      ensures Valid()
      ensures members == PutIfSome(old(members), key, value)
      ensures value.None? ==> members == old(members)
    {
      if value.Some? {
        Put(key, value.value);
      }
    }
  }

  /** A Jackson `ArrayNode`: a list of JSON values that only grows at its end. */
  class ArrayNode {
    var items: seq<Json>

    constructor ()
      ensures items == []
    {
      items := [];
    }

    /** `add`/`addObject`: appends one element. */
    method Add(value: Json)
      modifies this
      ensures items == old(items) + [value]
    {
      items := items + [value];
    }
  }

  /** The JSON string for a nullable Java `String`. */
  function Text(v: Option<string>): Option<Json> {
    if v.Some? then Some(JString(v.value)) else None
  }

  /** The JSON boolean for a nullable Java `Boolean`. */
  function Flag(v: Option<bool>): Option<Json> {
    if v.Some? then Some(JBool(v.value)) else None
  }

  /** The JSON string for a nullable enum constant, written in its canonical form. */
  function EnumText<E>(v: Option<E>, canonical: E -> string): Option<Json> {
    if v.Some? then Some(JString(canonical(v.value))) else None
  }

  /** `JsonUtil.stringProperty`: puts the string when it is not null. */
  method StringProperty(node: ObjectNode, key: string, value: Option<string>)
    requires node.Valid()
    modifies node
    ensures node.Valid()
    ensures node.members == PutIfSome(old(node.members), key, Text(value))
  {
    node.PutIfPresent(key, Text(value));
  }

  /** `JsonUtil.booleanProperty`: puts the boolean when it is not null. */
  method BooleanProperty(node: ObjectNode, key: string, value: Option<bool>)
    requires node.Valid()
    modifies node
    ensures node.Valid()
    ensures node.members == PutIfSome(old(node.members), key, Flag(value))
  {
    node.PutIfPresent(key, Flag(value));
  }

  /** `JsonUtil.enumProperty`: puts the enum's canonical string when it is not null. */
  method EnumProperty<E>(node: ObjectNode, key: string, value: Option<E>, canonical: E -> string)
    requires node.Valid()
    modifies node
    ensures node.Valid()
    ensures node.members == PutIfSome(old(node.members), key, EnumText(value, canonical))
  {
    node.PutIfPresent(key, EnumText(value, canonical));
  }
}
