/** The values the library accepts as types, and the name it prints for them
    (src/object-type.ts). */
module ObjectTypes {
  import opened Wrappers

  /** A value handed to the library where it expects a type. Normally this is a
      class (a constructor function); the model also covers the two nullish
      values and plain objects, but no other primitive. `Null` and `Undefined`
      are the nullish values. `Object` is one object: `id` is its identity, so
      two objects that carry the same names are still different keys;
      `name` is its own `name` property, "" when that property is missing or
      falsy; `constructorName` is `Some` of the `name` of its `constructor`
      property, or `None` when that property is missing or falsy. An object's
      names are fixed, so one `id` always comes with the same names: keys with
      equal `id`s and different names never arise. The `id` 0 is reserved for
      the global `Function`, the container's sentinel key. */
  datatype ObjectType =
    | Null
    | Undefined
    | Object(id: nat, name: string, constructorName: Option<string>)

  /** The name used in every diagnostic: the value's own name when it has one,
      else its constructor's name, else a fixed placeholder. */
  function GetObjectTypeName(objectType: ObjectType): (r: string)
    ensures |r| > 0
    ensures !objectType.Object? ==> r == "null object"
    ensures objectType.Object? && objectType.name != "" ==> r == objectType.name
    ensures (objectType.Object? && objectType.name == "" && objectType.constructorName.Some?
             && objectType.constructorName.value != "")
            ==> r == objectType.constructorName.value
    ensures (objectType.Object? && objectType.name == ""
             && (objectType.constructorName.None? || objectType.constructorName.value == ""))
            ==> r == "unknown type"
  {
    match objectType
    case Null => "null object"
    case Undefined => "null object"
    case Object(_, name, constructorName) =>
      if name != "" then name
      else if constructorName.Some? && constructorName.value != "" then constructorName.value
      else "unknown type"
  }
}
