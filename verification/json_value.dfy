/**
 The JSON values a task-definition document is made of, as Python's json
 module decodes them. Only `image` strings, objects and arrays are ever
 inspected by the transform; every other value is opaque and is only copied
 or compared for equality.
 */
module JsonValues {

  /** A decoded JSON value. `JNull` is Python's None. */
  datatype Json =
    | JNull
    | JBool(b: bool)
    | JNumber(n: int)
    | JString(s: string)
    | JArray(items: seq<Json>)
    | JObject(fields: map<string, Json>)

  /** A JSON object: a Python dict with string keys. */
  type Object = map<string, Json>
}

/**
 The failures the scripts can run into. The source defines no error types of
 its own: each case names the Python exception that the corresponding
 subscript, iteration or method call raises.
 */
module Errors {
  import opened JsonValues

  datatype Error =
      /** KeyError: `d[key]` on a dict without that key. */
    | MissingKey(key: string)
      /** TypeError: `v[key]` where the value `v` reached through `key` is not a dict. */
    | NotAnObject(key: string)
      /** TypeError: iterating a containerDefinitions value that is not iterable. */
    | NotIterable
      /** TypeError: `cd['image']` on the element at `index`, which is not a dict. */
    | ContainerNotObject(index: nat)
      /** KeyError: the container at `index` has no `image` key. */
    | MissingImage(index: nat)
      /** AttributeError: `.split` on an `image` value that is not a str. */
    | ImageNotString(index: nat)
      /** TypeError: a value handed to the command line that is not a str. */
    | NotAString(key: string)

  /** Either the value the code goes on with, or the exception it raised. */
  datatype Result<+T> = Ok(value: T) | Err(error: Error)

  /**
   Python's `v[key]` on a decoded JSON value, where `owner` names `v` in the
   document: a TypeError unless `v` is a dict, a KeyError unless it has `key`.
   */
  function Subscript(v: Json, key: string, owner: string): (r: Result<Json>)
    ensures r.Ok? <==> v.JObject? && key in v.fields
    ensures r.Ok? ==> r.value == v.fields[key]
    ensures !v.JObject? ==> r == Err(NotAnObject(owner))
    ensures v.JObject? && key !in v.fields ==> r == Err(MissingKey(key))
  {
    match v
    case JObject(fields) => if key in fields then Ok(fields[key]) else Err(MissingKey(key))
    case _ => Err(NotAnObject(owner))
  }
}
