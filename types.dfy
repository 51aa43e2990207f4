/** Type descriptors as the decoder consumes them: one constructor per kind
    the decoder distinguishes, each with the metadata that kind carries. */
module Types {
  import opened Values

  /** What a type's validating constructor gives back: the instance it built,
      or a refusal together with the path segments it appended itself. */
  datatype Built<T> = Built(value: T) | Refused(detail: seq<string>)

  /** A type descriptor. `name` is the type's display name. A `build`
      function is the type's own constructor. */
  datatype Type =
    | Irreducible(name: string, build: Value -> Built<Value>)  // irreducible types and enums
    | Maybe(name: string, inner: Type)
    | Subtype(name: string, inner: Type, accepts: Value -> bool)
    | Struct(name: string, props: seq<(string, Type)>, build: Value -> Built<Value>)
    | Interface(name: string, props: seq<(string, Type)>)
    | List(name: string, elem: Type)
    | Union(name: string, members: seq<Type>, dispatch: Value -> int)
    | Tuple(name: string, types: seq<Type>)
    | Dict(name: string, domainName: string, domain: string -> Built<string>, codomain: Type)
    | Intersection(name: string, types: seq<Type>, build: Value -> Built<Value>)

  /** A path segment `at: TypeName`, as pushed when decoding descends into a
      property, an index or an intersection member. */
  function Segment(at: string, t: Type): (s: string)
  {
    at + ": " + t.name
  }
}
