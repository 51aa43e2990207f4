# tcomb `fromJSON`: a verified model of the JSON decoder

tcomb describes runtime types: irreducible types and enums, maybe, subtype
(refinement), struct, interface, list, union, tuple, dict and intersection.
`fromJSON(value, type, path)` takes a loosely typed JSON-like value and a type
descriptor and rebuilds a typed value. It switches on the descriptor's kind and
checks the value's shape. It decodes each property, element, dict entry and
intersection member with a diagnostic path one segment longer; maybe, subtype
and union pass the path on unchanged. It either returns the decoded value or
throws.

This project models that decoder and its helper `assignMany`, and proves what
each branch guarantees.

- `values.dfy` (module `Values`) defines the JSON-like `Value`.
  - An object is a list of `(name, value)` pairs in enumeration order, so the
    order of a for-in loop is part of the model.
  - It defines property read (`Lookup`) and property write (`Put`), and writes
    in sequence (`PutAll`): an existing name keeps its place, and a new name is
    added last.
  - It defines the left-to-right merge `MergeAll` and the method `AssignMany`,
    which performs that merge with nested loops.
- `results.dfy` (module `Results`) defines a failure as a kind plus the path
  where it arose. `CollectSeq` combines children's results with "the first
  failure wins", as `Array.prototype.map` and a for-in loop do when a
  recursive call throws.
- `types.dfy` (module `Types`) defines the type descriptor: one constructor
  per kind, carrying the kind's metadata. A type's own constructor
  (`type(value, path)`, or `new type(ret)` for a struct) is a function `build` that returns
  the built value or a refusal.
- `decoder.dfy` (module `Decoder`) has the decoder twice.
  - `Decode` is its specification as a recursive function.
  - `FromJSON` is the decoder as written: a recursive method whose every
    branch calls `FromJSON` again on each child. Its struct, interface and
    dict branches create `ret = {}` and fill it key by key in a loop
    (`DecodeProps`, `DecodeEntries`). Its list and tuple branches loop over
    the elements (`DecodeElements`), and its intersection branch over the
    members (`DecodeMembers`).
  - Each method is proved equal to the specification.
- `properties.dfy` (module `DecoderProperties`) proves the guarantees of each
  kind, and two facts about the diagnostic path:
  - the path only ever grows by appending, except for a struct constructor's
    refusal, which is reported from the struct's own name;
  - success does not depend on the path.
- `examples_decoding.dfy` (module `DecodingExamples`) works through a `Point`
  interface, a list of numbers and nested maybes concretely.

Two details of the code shape the model.

- Intersection: the code checks only the first member result
  (`isObject(values[0])`, lib/fromJSON.js:141). If that result is an object,
  all results are merged, even non-objects among the later ones. The model
  does the same (`IntersectionDecode`).
- Struct constructor: among the kind branches, the struct's `new type(ret)`
  (lib/fromJSON.js:64) is the only constructor call made without a path. (The
  `new type(value)` of lib/fromJSON.js:30 is outside the modelled kinds.) So
  a refusal by a struct's constructor is reported from the struct's own type
  name, not from the caller's path. The model gives that failure its own
  kind, `StructConstructorRefused`.

## Model

| member | source | states |
|---|---|---|
| Values.Lookup | lib/fromJSON.js:61 | reading a property an object does not have yields undefined (`Nil`) |
| Values.LookupPresent | lib/fromJSON.js:61 | reading a property an object (with distinct names) has yields that property's value |
| Values.Put | lib/fromJSON.js:131 | after `ret[k] = x` the names are the old ones plus `k` and `k` reads `x`; a new name is appended at the end; an existing name keeps its place, so the length and the order of names are unchanged |
| Values.PutOther | lib/fromJSON.js:131 | after `ret[k] = x` every other name reads as before |
| Values.PutAllKeys | lib/fromJSON.js:58-63 | writing a sequence of entries adds exactly their names to the object |
| Values.PutAllLookup | lib/fromJSON.js:128-133 | after a sequence of writes, a written name holds the value of its LAST write and every other name keeps its old value |
| Values.PutAllDistinct | lib/fromJSON.js:58-63 | writing entries with distinct names into `{}` yields exactly those entries in that order |
| Values.LastLookupAt | lib/fromJSON.js:131 | the last write to a name is the one no later entry shares the name with |
| Values.MergeAllKeeps | lib/fromJSON.js:11-15 | every own property of any merged value is a property of the merge |
| Values.MergeAllSource | lib/fromJSON.js:11-15 | every property of the merge comes from some merged value, whose index it returns |
| Values.MergeAllKeys | lib/fromJSON.js:11-15 | the merge has a property if and only if some merged value has it |
| Values.MergeAllLastWins | lib/fromJSON.js:11-15 | later values overwrite earlier ones: a property holds its value in the last merged value that has it |
| Values.AssignMany | lib/fromJSON.js:11-15 | the fold of `assign` over the values, from `{}`, computes exactly the left-to-right merge |
| Results.CollectOk | lib/fromJSON.js:89-91 | mapping the children succeeds if and only if every child succeeds, and then yields their values in order and of the same number |
| Results.FirstFailure | lib/fromJSON.js:89-91 | a failed combination fails with the failure of some child whose predecessors all succeeded |
| Results.CollectStopsAt | lib/fromJSON.js:59-63 | once the children before `i` succeeded and child `i` fails, the whole combination fails with child `i`'s failure |
| Results.CollectFirstError | lib/fromJSON.js:114-116 | the combination fails with `e` if and only if some child fails with `e` and every earlier child succeeds |
| Results.CollectSameOutcome | lib/fromJSON.js:89-91 | children that agree one by one on success and value combine to results that agree |
| Decoder.FromJSON | lib/fromJSON.js:17-147 | the decoder as written returns exactly the specified result `Decode(value, type, path or [name])`, failure included |
| Decoder.DecodeProps | lib/fromJSON.js:57-63 | the struct/interface loop `ret[k] = fromJSON(value[k], props[k], path + "k: Name")` in declaration order yields the stored decoded properties, or the first property failure |
| Decoder.DecodeElements | lib/fromJSON.js:89-91 | the list and tuple loop calling `fromJSON(x, elemType, path + "i: Elem")` on each element in order yields exactly the specified element results, or the first element failure |
| Decoder.DecodeMembers | lib/fromJSON.js:137-139 | the intersection loop calling `fromJSON(value, types[i], path + "i: Name")` on each member in order yields exactly the specified member results, or the first member failure |
| Decoder.DecodeEntries | lib/fromJSON.js:124-133 | the dict loop over the value's own keys, transforming each key by the domain and decoding each value by the codomain, yields the stored pairs or the first failure |
| DecoderProperties.ShapeBeforeContent | lib/fromJSON.js:51-123 | struct, interface and dict fail with a shape error on a non-object, list and tuple on a non-array, and a tuple on an array of the wrong length, before any child is decoded |
| DecoderProperties.MaybeDecode | lib/fromJSON.js:39-40 | nil decodes to nil; any other value decodes exactly as the inner type with the same path |
| DecoderProperties.SubtypeDecode | lib/fromJSON.js:42-49 | a success equals the inner decoding and satisfies the predicate; an inner success the predicate accepts is the result; an inner success the predicate rejects fails at this path; an inner failure passes through |
| DecoderProperties.UnionDecode | lib/fromJSON.js:93-100 | the dispatched member decodes the value with the path unchanged; a dispatch naming no member fails |
| DecoderProperties.PropsOutcome | lib/fromJSON.js:59-63 | the declared properties decode if and only if each does; otherwise the first failing one in declaration order decides the failure |
| DecoderProperties.FirstFailingProp | lib/fromJSON.js:59-63 | a failing property loop reports the failure of a property whose predecessors all decoded |
| DecoderProperties.PropsPairs | lib/fromJSON.js:59-63 | when every property decodes, the loop visits one pair per declared property, in declaration order |
| DecoderProperties.PropsDecoded | lib/fromJSON.js:57-63 | when every property decodes, the result has exactly the declared names and holds property `k`'s decoded value under `k`, in declaration order |
| DecoderProperties.InterfaceDecode | lib/fromJSON.js:66-79 | an object decodes to the plain object of its decoded declared properties; success if and only if every property decodes; otherwise the first failing property decides the failure |
| DecoderProperties.StructDecode | lib/fromJSON.js:51-64 | when every property decodes, the struct's constructor receives the object of decoded properties and its refusal is reported from the struct's name; otherwise the first failing property decides the failure |
| DecoderProperties.ListDecode | lib/fromJSON.js:81-91 | an array decodes element by element with path `path + "i: Elem"`; success if and only if each element decodes; the result has the input's length and order; otherwise the first failing element decides the failure |
| DecoderProperties.TupleDecode | lib/fromJSON.js:102-116 | an array of the tuple's arity decodes position `i` against `types[i]`; the result has the arity's length; otherwise the first failing position decides the failure |
| DecoderProperties.DictOutcome | lib/fromJSON.js:129-133 | the dict loop succeeds if and only if every key passes the domain and every value decodes; otherwise the first failing entry decides the failure |
| DecoderProperties.DictPairs | lib/fromJSON.js:129-133 | when every entry goes through, entry `i` gives its domain-transformed key and its decoded value |
| DecoderProperties.DictKeys | lib/fromJSON.js:129-133 | when every entry goes through, the decoded dict's keys are exactly the transformed keys |
| DecoderProperties.DictLastWins | lib/fromJSON.js:131 | a transformed key that no later entry produces again holds the decoded value of its entry |
| DecoderProperties.DictDecodeOutcome | lib/fromJSON.js:118-134 | an object decodes as a dict if and only if every entry passes the domain and the codomain; otherwise the first failing entry in own-key order decides the failure |
| DecoderProperties.DictDecodeContents | lib/fromJSON.js:118-134 | a decoded dict is an object keyed by the transformed keys, each holding the decoded value of the last entry producing it |
| DecoderProperties.IntersectionDecode | lib/fromJSON.js:136-143 | when every member decodes the raw value (path `path + "i: Name"`), the constructor receives the left-to-right merge of the results if the first one is an object, and the raw value otherwise |
| DecoderProperties.IntersectionFails | lib/fromJSON.js:137-139 | when some member fails, the first failing member decides the failure |
| DecoderProperties.FailurePathExtendsCaller | lib/fromJSON.js:17-147 | every failure's path has the caller's path as a prefix, except a struct constructor's refusal |
| DecoderProperties.RootPath | lib/fromJSON.js:23 | at the top level (no path given, so the path defaults to `[type name]`) every failure other than a struct constructor's refusal has a path starting with the type's name |
| DecoderProperties.SuccessIgnoresPath | lib/fromJSON.js:17-147 | whether decoding succeeds, and the value it yields, do not depend on the starting path |
| DecodingExamples.PointDecodes | lib/fromJSON.js:66-79 | `{x: 1, y: 2}` decodes against `{x: Number, y: Number}` to itself |
| DecodingExamples.PointMissingY | lib/fromJSON.js:74-77 | `{x: 1}` fails at path `["Point", "y: Number"]` |
| DecodingExamples.ArrayIsNoPoint | lib/fromJSON.js:67-71 | an array fails the interface's object check at `["Point"]` |
| DecodingExamples.ListFailsAtIndex | lib/fromJSON.js:89-91 | `[1, "a"]` against a list of numbers fails at path `["Numbers", "1: Number"]` |
| DecodingExamples.NestedMaybeKeepsPath | lib/fromJSON.js:39-40 | `"a"` against a maybe of a maybe of numbers fails at the caller's path `["A"]` itself: maybe adds no segment |

## Left out

- Message text: the strings built with `assert.stringify` and `getTypeName` are not modelled. A failure is its kind plus a path, which records where in the recursion the failure arose. A constructor's refusal (`type(value, path)`) puts the path it was given into its own message. The decoder's own shape, arity, dispatch and predicate failures do not: for those kinds `Error.path` records a location that the thrown message does not show.
- The `NODE_ENV` gate and the type-argument check (lines 18-22): every `Type` value is a descriptor, so an invalid type argument cannot be expressed.
- The `type.fromJSON` hook with `create` (lines 25-27), and plain constructors handled with `instanceof` / `new type(value)` (lines 29-31): both run code that is not part of this model.
- Constructor internals: what `type(value, path)` and `new type(ret)` check, freezing, and instance identity are not modelled. Each type carries an abstract `build` function, and a refusal appends its own segments to the path it was given. `build` and a dict's `domain` take no path argument, although `type(value, path)` and `domain(k, path)` receive one (lib/fromJSON.js:131, 140-146): a constructor's verdict and the value it builds do not depend on the path it is given; the path only locates its refusal. `SuccessIgnoresPath` relies on this.
- Union dispatch is modelled as an index into the union's members. Any out-of-range index stands for "no constructor returned by dispatch". A dispatch that returns a type outside the union is not expressible.
- Recursive (self-referencing) type descriptors are not modelled: a `Type` is a finite tree, which makes decoding terminate.
- JavaScript object details are not modelled: integer-like keys that enumerate first, prototype properties, `hasOwnProperty`, and array holes. A dict's `value[k]` is the value of entry `k` itself. A property value that is `undefined` and a missing property are both `Nil`.
- Numbers are integers; floating point is not modelled.
- `assign` (lib/assign.js) is not part of this model. It is taken to copy the own enumerable properties of its second argument onto its first, in order.
- test/struct.js covers the struct combinator, idempotence, freezing and `update`, not the decoder, and is not modelled.
- FailurePathExtendsCaller: states that the caller's path is a prefix of the failure's path, and no bound on how much longer it is. A bound by the recursion depth would be false: maybe, subtype and union descend without adding a segment (`NestedMaybeKeepsPath`).
- FailurePathExtendsCaller: excludes a struct constructor's refusal, because `new type(ret)` is given no path.
- StructDecode: states the decoded properties in declaration order only when the descriptor's property names are distinct. Otherwise it states only the set of names; the names of a real props object are always distinct.
- InterfaceDecode: the same restriction to distinct property names as StructDecode.
