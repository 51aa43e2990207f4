/** The recursive decoder `fromJSON(value, type, path)`: a specification as a
    function (`Decode`) and the decoder as written, a recursive method whose
    struct, interface and dict branches fill the result in loops (`FromJSON`). */
module Decoder {
  import opened Values
  import opened Results
  import opened Types

  datatype Option<T> = None | Some(value: T)

  /** `path = path || [getTypeName(type)]`: a missing path starts at the
      type's name; a given one, even empty, is kept. */
  function DefaultPath(t: Type, path: Option<seq<string>>): (p: seq<string>)
  {
    match path
    case None => [t.name]
    case Some(given) => given
  }

  /** Hands a value to a type's constructor; a refusal is reported with `kind`
      at the path the constructor was given, extended by its own segments. */
  function Construct(b: Built<Value>, kind: ErrorKind, at: seq<string>): (r: Result<Value>)
  {
    match b
    case Built(x) => Ok(x)
    case Refused(detail) => Err(Error(kind, at + detail))
  }

  /** Pairs a decoded value with the property name it is stored under. */
  function Pair(k: string, r: Result<Value>): (p: Result<(string, Value)>)
  {
    match r
    case Ok(x) => Ok((k, x))
    case Err(e) => Err(e)
  }

  /** Stores the decoded pairs one after the other into a fresh object. */
  function CollectFields(rs: seq<Result<(string, Value)>>): (r: Result<Fields>)
  {
    match CollectSeq(rs)
    case Ok(pairs) => Ok(PutAll([], pairs))
    case Err(e) => Err(e)
  }

  /** Decoding of declared property `i` of a struct or interface: the value of
      that property, against its type, one segment deeper. */
  function PropDecode(fields: Fields, t: Type, i: nat, path: seq<string>): (r: Result<Value>)
    requires (t.Struct? || t.Interface?) && i < |t.props|
    decreases t, 0
  {
    var pt := t.props[i].1;
    Decode(Lookup(fields, t.props[i].0), pt, path + [Segment(t.props[i].0, pt)])
  }

  function PropResults(fields: Fields, t: Type, path: seq<string>): (rs: seq<Result<(string, Value)>>)
    requires t.Struct? || t.Interface?
    decreases t, 1
  {
    seq(|t.props|, i requires 0 <= i < |t.props| => Pair(t.props[i].0, PropDecode(fields, t, i, path)))
  }

  /** The type element `i` of a list or a tuple is decoded against. */
  function ElementType(t: Type, i: nat): (et: Type)
    requires t.List? || (t.Tuple? && i < |t.types|)
    ensures et < t
  {
    if t.List? then t.elem else t.types[i]
  }

  /** Decoding of element `i` of a list or a tuple, against its type, one
      segment deeper. */
  function ElementDecode(items: seq<Value>, t: Type, i: nat, path: seq<string>): (r: Result<Value>)
    requires t.List? || (t.Tuple? && |items| == |t.types|)
    requires i < |items|
    decreases t, 0
  {
    var et := ElementType(t, i);
    Decode(items[i], et, path + [Segment(Decimal(i), et)])
  }

  function ElementResults(items: seq<Value>, t: Type, path: seq<string>): (rs: seq<Result<Value>>)
    requires t.List? || (t.Tuple? && |items| == |t.types|)
    decreases t, 1
  {
    seq(|items|, i requires 0 <= i < |items| => ElementDecode(items, t, i, path))
  }

  /** Decoding of the raw value against member `i` of an intersection. */
  function MemberDecode(v: Value, t: Type, i: nat, path: seq<string>): (r: Result<Value>)
    requires t.Intersection? && i < |t.types|
    decreases t, 0
  {
    Decode(v, t.types[i], path + [Segment(Decimal(i), t.types[i])])
  }

  function MemberResults(v: Value, t: Type, path: seq<string>): (rs: seq<Result<Value>>)
    requires t.Intersection?
    decreases t, 1
  {
    seq(|t.types|, i requires 0 <= i < |t.types| => MemberDecode(v, t, i, path))
  }

  /** Entry `i` of a dict: its key goes through the domain constructor first,
      then its value is decoded against the codomain. */
  function EntryResult(fields: Fields, t: Type, i: nat, path: seq<string>): (r: Result<(string, Value)>)
    requires t.Dict? && i < |fields|
    decreases t, 0
  {
    match t.domain(fields[i].0)
    case Refused(detail) => Err(Error(ConstructorRefused, path + [t.domainName] + detail))
    case Built(key) => Pair(key, CodomainDecode(fields, t, i, path))
  }

  /** Decoding of the value of a dict's entry `i` against the codomain, one
      segment deeper. */
  function CodomainDecode(fields: Fields, t: Type, i: nat, path: seq<string>): (r: Result<Value>)
    requires t.Dict? && i < |fields|
    decreases t.codomain, 3
  {
    Decode(fields[i].1, t.codomain, path + [Segment(fields[i].0, t.codomain)])
  }

  function EntryResults(fields: Fields, t: Type, path: seq<string>): (rs: seq<Result<(string, Value)>>)
    requires t.Dict?
    decreases t, 1
  {
    seq(|fields|, i requires 0 <= i < |fields| => EntryResult(fields, t, i, path))
  }

  /** What `fromJSON(v, t, path)` returns, or the failure it raises. */
  function Decode(v: Value, t: Type, path: seq<string>): (r: Result<Value>)
    decreases t, 2
  {
    match t
    case Irreducible(_, build) =>
      Construct(build(v), ConstructorRefused, path)
    case Maybe(_, inner) =>
      if v.Nil? then Ok(Nil) else Decode(v, inner, path)
    case Subtype(_, inner, accepts) =>
      var r := Decode(v, inner, path);
      if r.Ok? && !accepts(r.value) then Err(Error(InvalidValueContent, path)) else r
    case Struct(name, _, build) =>
      if !v.Obj? then Err(Error(InvalidValueShape, path))
      else (match CollectFields(PropResults(v.fields, t, path))
        case Err(e) => Err(e)
        case Ok(ret) => Construct(build(Obj(ret)), StructConstructorRefused, [name]))
    case Interface(_, _) =>
      if !v.Obj? then Err(Error(InvalidValueShape, path))
      else (match CollectFields(PropResults(v.fields, t, path))
        case Err(e) => Err(e)
        case Ok(ret) => Ok(Obj(ret)))
    case List(_, _) =>
      if !v.Arr? then Err(Error(InvalidValueShape, path))
      else (match CollectSeq(ElementResults(v.items, t, path))
        case Err(e) => Err(e)
        case Ok(xs) => Ok(Arr(xs)))
    case Union(_, members, dispatch) =>
      var j := dispatch(v);
      if 0 <= j < |members| then Decode(v, members[j], path)
      else Err(Error(AmbiguousUnionDispatch, path))
    case Tuple(_, types) =>
      if !v.Arr? then Err(Error(InvalidValueShape, path))
      else if |v.items| != |types| then Err(Error(TupleLengthMismatch, path))
      else (match CollectSeq(ElementResults(v.items, t, path))
        case Err(e) => Err(e)
        case Ok(xs) => Ok(Arr(xs)))
    case Dict(_, _, _, _) =>
      if !v.Obj? then Err(Error(InvalidValueShape, path))
      else (match CollectFields(EntryResults(v.fields, t, path))
        case Err(e) => Err(e)
        case Ok(ret) => Ok(Obj(ret)))
    case Intersection(_, _, build) =>
      match CollectSeq(MemberResults(v, t, path))
      case Err(e) => Err(e)
      case Ok(xs) =>
        Construct(build(if |xs| > 0 && xs[0].Obj? then Obj(MergeAll(xs)) else v), ConstructorRefused, path)
  }

  /** `fromJSON(value, type, path)` as written: a switch on the kind whose
      branches call it again on every child, with the struct, interface and
      dict results filled in key by key. */
  method FromJSON(value: Value, t: Type, path: Option<seq<string>>) returns (r: Result<Value>)
    ensures r == Decode(value, t, DefaultPath(t, path))
    decreases t, 2
  {
    var p := DefaultPath(t, path);
    match t {
      case Irreducible(_, build) =>
        r := Construct(build(value), ConstructorRefused, p);
      case Maybe(_, inner) =>
        if value.Nil? {
          r := Ok(Nil);
        } else {
          r := FromJSON(value, inner, Some(p));
        }
      case Subtype(_, inner, accepts) =>
        r := FromJSON(value, inner, Some(p));
        if r.Ok? && !accepts(r.value) {
          r := Err(Error(InvalidValueContent, p));
        }
      case Struct(name, _, build) =>
        if !value.Obj? {
          r := Err(Error(InvalidValueShape, p));
        } else {
          var ret := DecodeProps(value.fields, t, p);
          if ret.Err? {
            r := Err(ret.error);
          } else {
            r := Construct(build(Obj(ret.value)), StructConstructorRefused, [name]);
          }
        }
      case Interface(_, _) =>
        if !value.Obj? {
          r := Err(Error(InvalidValueShape, p));
        } else {
          var ret := DecodeProps(value.fields, t, p);
          if ret.Err? {
            r := Err(ret.error);
          } else {
            r := Ok(Obj(ret.value));
          }
        }
      case List(_, _) =>
        if !value.Arr? {
          r := Err(Error(InvalidValueShape, p));
        } else {
          var xs := DecodeElements(value.items, t, p);
          r := if xs.Err? then Err(xs.error) else Ok(Arr(xs.value));
        }
      case Union(_, members, dispatch) =>
        var j := dispatch(value);
        if 0 <= j < |members| {
          r := FromJSON(value, members[j], Some(p));
        } else {
          r := Err(Error(AmbiguousUnionDispatch, p));
        }
      case Tuple(_, types) =>
        if !value.Arr? {
          r := Err(Error(InvalidValueShape, p));
        } else if |value.items| != |types| {
          r := Err(Error(TupleLengthMismatch, p));
        } else {
          var xs := DecodeElements(value.items, t, p);
          r := if xs.Err? then Err(xs.error) else Ok(Arr(xs.value));
        }
      case Dict(_, _, _, _) =>
        if !value.Obj? {
          r := Err(Error(InvalidValueShape, p));
        } else {
          var ret := DecodeEntries(value.fields, t, p);
          if ret.Err? {
            r := Err(ret.error);
          } else {
            r := Ok(Obj(ret.value));
          }
        }
      case Intersection(_, _, build) =>
        var xs := DecodeMembers(value, t, p);
        if xs.Err? {
          r := Err(xs.error);
        } else {
          var arg := value;
          if |xs.value| > 0 && xs.value[0].Obj? {
            var merged := AssignMany(xs.value);
            arg := Obj(merged);
          }
          r := Construct(build(arg), ConstructorRefused, p);
        }
    }
  }

  /** `value.map((element, i) => fromJSON(element, elementType, path + seg))`
      for a list, and the same against `types[i]` for a tuple. */
  method DecodeElements(items: seq<Value>, t: Type, path: seq<string>) returns (r: Result<seq<Value>>)
    requires t.List? || (t.Tuple? && |items| == |t.types|)
    ensures r == CollectSeq(ElementResults(items, t, path))
    decreases t, 1
  {
    ghost var rs := ElementResults(items, t, path);
    var xs: seq<Value> := [];
    for i := 0 to |items|
      invariant CollectSeq(rs[..i]) == Ok(xs)
    {
      var et := ElementType(t, i);
      var x := FromJSON(items[i], et, Some(path + [Segment(Decimal(i), et)]));
      assert rs[i] == ElementDecode(items, t, i, path) == x;
      if x.Err? {
        CollectStopsAt(rs, i);
        return Err(x.error);
      }
      assert rs[..i + 1][..i] == rs[..i];
      xs := xs + [x.value];
    }
    assert rs[..|rs|] == rs;
    r := Ok(xs);
  }

  /** `type.meta.types.map((type, i) => fromJSON(value, type, path + seg))`. */
  method DecodeMembers(value: Value, t: Type, path: seq<string>) returns (r: Result<seq<Value>>)
    requires t.Intersection?
    ensures r == CollectSeq(MemberResults(value, t, path))
    decreases t, 1
  {
    ghost var rs := MemberResults(value, t, path);
    var xs: seq<Value> := [];
    for i := 0 to |t.types|
      invariant CollectSeq(rs[..i]) == Ok(xs)
    {
      var x := FromJSON(value, t.types[i], Some(path + [Segment(Decimal(i), t.types[i])]));
      assert rs[i] == MemberDecode(value, t, i, path) == x;
      if x.Err? {
        CollectStopsAt(rs, i);
        return Err(x.error);
      }
      assert rs[..i + 1][..i] == rs[..i];
      xs := xs + [x.value];
    }
    assert rs[..|rs|] == rs;
    r := Ok(xs);
  }

  /** The struct and interface loop: `ret = {}`, then for each declared
      property `k` in order, `ret[k] = fromJSON(value[k], props[k], path + seg)`. */
  method DecodeProps(fields: Fields, t: Type, path: seq<string>) returns (r: Result<Fields>)
    requires t.Struct? || t.Interface?
    ensures r == CollectFields(PropResults(fields, t, path))
    decreases t, 1
  {
    ghost var rs := PropResults(fields, t, path);
    ghost var decoded: Fields := [];
    var ret: Fields := [];
    for i := 0 to |t.props|
      invariant CollectSeq(rs[..i]) == Ok(decoded)
      invariant ret == PutAll([], decoded)
    {
      var k := t.props[i].0;
      var pt := t.props[i].1;
      var x := FromJSON(Lookup(fields, k), pt, Some(path + [Segment(k, pt)]));
      assert x == PropDecode(fields, t, i, path) by {
        assert DefaultPath(pt, Some(path + [Segment(k, pt)])) == path + [Segment(k, pt)];
      }
      PropStep(fields, t, path, i, decoded);
      if x.Err? {
        return Err(x.error);
      }
      assert PutAll([], decoded + [(k, x.value)]) == Put(ret, k, x.value) by {
        assert (decoded + [(k, x.value)])[..|decoded|] == decoded;
      }
      ret := Put(ret, k, x.value);
      decoded := decoded + [(k, x.value)];
    }
    assert rs[..|rs|] == rs;
    r := Ok(ret);
  }

  /** One pass of the struct and interface loop: after the properties before
      `i` decoded into `decoded`, property `i` either ends the loop with its
      failure or extends the decoded pairs by its own. */
  lemma PropStep(fields: Fields, t: Type, path: seq<string>, i: nat, decoded: Fields)
    requires (t.Struct? || t.Interface?) && i < |t.props|
    requires CollectSeq(PropResults(fields, t, path)[..i]) == Ok(decoded)
    ensures var x := PropDecode(fields, t, i, path);
      (x.Err? ==> CollectFields(PropResults(fields, t, path)) == Err(x.error))
      && (x.Ok? ==> CollectSeq(PropResults(fields, t, path)[..i + 1]) == Ok(decoded + [(t.props[i].0, x.value)]))
  {
    var rs := PropResults(fields, t, path);
    var x := PropDecode(fields, t, i, path);
    assert rs[i] == Pair(t.props[i].0, x);
    if x.Err? {
      CollectStopsAt(rs, i);
    } else {
      assert rs[..i + 1][..i] == rs[..i];
    }
  }

  /** The dict loop: `ret = {}`, then for each own key `k` of the value, in
      order, `ret[domain(k, path + domainName)] = fromJSON(value[k], codomain, path + seg)`. */
  method DecodeEntries(fields: Fields, t: Type, path: seq<string>) returns (r: Result<Fields>)
    requires t.Dict?
    ensures r == CollectFields(EntryResults(fields, t, path))
    decreases t, 1
  {
    ghost var rs := EntryResults(fields, t, path);
    ghost var decoded: Fields := [];
    var ret: Fields := [];
    for i := 0 to |fields|
      invariant CollectSeq(rs[..i]) == Ok(decoded)
      invariant ret == PutAll([], decoded)
    {
      var k := fields[i].0;
      var key := t.domain(k);
      assert rs[i] == EntryResult(fields, t, i, path);
      if key.Refused? {
        CollectStopsAt(rs, i);
        return Err(Error(ConstructorRefused, path + [t.domainName] + key.detail));
      }
      var x := FromJSON(fields[i].1, t.codomain, Some(path + [Segment(k, t.codomain)]));
      assert x == CodomainDecode(fields, t, i, path);
      assert rs[i] == Pair(key.value, x);
      if x.Err? {
        CollectStopsAt(rs, i);
        return Err(x.error);
      }
      assert rs[..i + 1][..i] == rs[..i];
      ret := Put(ret, key.value, x.value);
      decoded := decoded + [(key.value, x.value)];
    }
    assert rs[..|rs|] == rs;
    r := Ok(ret);
  }
}
