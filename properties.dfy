/** What decoding guarantees, kind by kind, and about the diagnostic path as a
    whole. */
module DecoderProperties {
  import opened Values
  import opened Results
  import opened Types
  import opened Decoder

  /** The names a struct or interface declares. */
  function PropNames(t: Type): (names: set<string>)
    requires t.Struct? || t.Interface?
  {
    set i | 0 <= i < |t.props| :: t.props[i].0
  }

  /** No property is declared twice (always so for a real props object). */
  predicate DistinctProps(t: Type)
    requires t.Struct? || t.Interface?
  {
    forall i, j :: 0 <= i < j < |t.props| ==> t.props[i].0 != t.props[j].0
  }

  /** Child `i` of a list's or a tuple's combined results is element `i`
      decoded against its type, one segment deeper. */
  lemma ElementAt(items: seq<Value>, t: Type, p: seq<string>, i: nat)
    requires t.List? || (t.Tuple? && |items| == |t.types|)
    requires i < |items|
    ensures ElementResults(items, t, p)[i] == Decode(items[i], ElementType(t, i), p + [Segment(Decimal(i), ElementType(t, i))])
  {
  }

  /** Entry `i` of a dict goes through: the domain accepts its key and its
      value decodes. */
  predicate EntryDecodes(fields: Fields, t: Type, i: nat, p: seq<string>)
    requires t.Dict? && i < |fields|
  {
    t.domain(fields[i].0).Built? && CodomainDecode(fields, t, i, p).Ok?
  }

  /** The transformed key and the decoded value of an entry that goes through. */
  function EntryPair(fields: Fields, t: Type, i: nat, p: seq<string>): (e: (string, Value))
    requires t.Dict? && i < |fields| && EntryDecodes(fields, t, i, p)
  {
    (t.domain(fields[i].0).value, CodomainDecode(fields, t, i, p).value)
  }

  /** Child `i` of a dict's combined results is entry `i`'s result, which
      succeeds exactly when its key and its value both do. */
  lemma DictEntryAt(fields: Fields, t: Type, p: seq<string>, i: nat)
    requires t.Dict? && i < |fields|
    ensures EntryResults(fields, t, p)[i] == EntryResult(fields, t, i, p)
    ensures EntryResult(fields, t, i, p).Ok? <==> EntryDecodes(fields, t, i, p)
    ensures EntryDecodes(fields, t, i, p) ==> EntryResult(fields, t, i, p) == Ok(EntryPair(fields, t, i, p))
  {
  }

  /** Child `i` of an intersection's combined results is member `i`'s decoding. */
  lemma MemberAt(v: Value, t: Type, p: seq<string>, i: nat)
    requires t.Intersection? && i < |t.types|
    ensures MemberResults(v, t, p)[i] == MemberDecode(v, t, i, p)
  {
  }

  /** Child `i` of the combined property results is property `i` paired with its name. */
  lemma PropAt(fields: Fields, t: Type, p: seq<string>, i: nat)
    requires (t.Struct? || t.Interface?) && i < |t.props|
    ensures PropResults(fields, t, p)[i] == Pair(t.props[i].0, PropDecode(fields, t, i, p))
    ensures PropDecode(fields, t, i, p).Ok? ==> PropResults(fields, t, p)[i] == Ok((t.props[i].0, PropDecode(fields, t, i, p).value))
    ensures PropDecode(fields, t, i, p).Err? ==> PropResults(fields, t, p)[i] == Err(PropDecode(fields, t, i, p).error)
  {
  }

  /** One step of decoding an object against a struct. */
  lemma UnfoldStruct(fields: Fields, t: Type, p: seq<string>)
    requires t.Struct?
    ensures var r := CollectFields(PropResults(fields, t, p));
      Decode(Obj(fields), t, p) == if r.Err? then Err(r.error) else Construct(t.build(Obj(r.value)), StructConstructorRefused, [t.name])
  {
  }

  /** One step of decoding an object against an interface. */
  lemma UnfoldInterface(fields: Fields, t: Type, p: seq<string>)
    requires t.Interface?
    ensures var r := CollectFields(PropResults(fields, t, p));
      Decode(Obj(fields), t, p) == if r.Err? then Err(r.error) else Ok(Obj(r.value))
  {
  }

  /** One step of decoding an array against a list or a tuple of its length. */
  lemma UnfoldElements(items: seq<Value>, t: Type, p: seq<string>)
    requires t.List? || (t.Tuple? && |items| == |t.types|)
    ensures var r := CollectSeq(ElementResults(items, t, p));
      Decode(Arr(items), t, p) == if r.Err? then Err(r.error) else Ok(Arr(r.value))
  {
  }

  /** One step of decoding an object against a dict. */
  lemma UnfoldDict(fields: Fields, t: Type, p: seq<string>)
    requires t.Dict?
    ensures var r := CollectFields(EntryResults(fields, t, p));
      Decode(Obj(fields), t, p) == if r.Err? then Err(r.error) else Ok(Obj(r.value))
  {
  }

  /** One step of decoding against an intersection. */
  lemma UnfoldIntersection(v: Value, t: Type, p: seq<string>)
    requires t.Intersection?
    ensures var r := CollectSeq(MemberResults(v, t, p));
      Decode(v, t, p) == if r.Err? then Err(r.error)
        else Construct(t.build(if |r.value| > 0 && r.value[0].Obj? then Obj(MergeAll(r.value)) else v), ConstructorRefused, p)
  {
  }

  /** The shape is checked before any child is decoded: structs, interfaces
      and dicts need an object, lists and tuples an array, and a tuple's
      array must have the tuple's arity. */
  lemma ShapeBeforeContent(v: Value, t: Type, p: seq<string>)
    ensures (t.Struct? || t.Interface? || t.Dict?) && !v.Obj? ==> Decode(v, t, p) == Err(Error(InvalidValueShape, p))
    ensures (t.List? || t.Tuple?) && !v.Arr? ==> Decode(v, t, p) == Err(Error(InvalidValueShape, p))
    ensures t.Tuple? && v.Arr? && |v.items| != |t.types| ==> Decode(v, t, p) == Err(Error(TupleLengthMismatch, p))
  {
  }

  /** Maybe: nil decodes to nil without looking at the inner type; any other
      value decodes as the inner type does, at the same path. */
  lemma MaybeDecode(v: Value, t: Type, p: seq<string>)
    requires t.Maybe?
    ensures v.Nil? ==> Decode(v, t, p) == Ok(Nil)
    ensures !v.Nil? ==> Decode(v, t, p) == Decode(v, t.inner, p)
  {
  }

  /** Subtype: a success is the inner decoding's success and satisfies the
      predicate; an inner success the predicate accepts is the result; an
      inner success the predicate rejects fails at this path; an inner
      failure is passed on unchanged. */
  lemma SubtypeDecode(v: Value, t: Type, p: seq<string>)
    requires t.Subtype?
    ensures Decode(v, t, p).Ok? ==> Decode(v, t.inner, p) == Decode(v, t, p) && t.accepts(Decode(v, t, p).value)
    ensures Decode(v, t.inner, p).Ok? && t.accepts(Decode(v, t.inner, p).value) ==>
      Decode(v, t, p) == Decode(v, t.inner, p)
    ensures Decode(v, t.inner, p).Ok? && !t.accepts(Decode(v, t.inner, p).value) ==>
      Decode(v, t, p) == Err(Error(InvalidValueContent, p))
    ensures Decode(v, t.inner, p).Err? ==> Decode(v, t, p) == Decode(v, t.inner, p)
  {
  }

  /** Union: the member the dispatch picks decodes the value at the same path;
      a dispatch that picks no member fails. */
  lemma UnionDecode(v: Value, t: Type, p: seq<string>)
    requires t.Union?
    ensures 0 <= t.dispatch(v) < |t.members| ==> Decode(v, t, p) == Decode(v, t.members[t.dispatch(v)], p)
    ensures !(0 <= t.dispatch(v) < |t.members|) ==> Decode(v, t, p) == Err(Error(AmbiguousUnionDispatch, p))
  {
  }

  /** The declared properties all decode, or the first failing one (in
      declaration order) decides the failure. */
  lemma PropsOutcome(fields: Fields, t: Type, p: seq<string>)
    requires t.Struct? || t.Interface?
    ensures CollectFields(PropResults(fields, t, p)).Ok? <==>
      forall i :: 0 <= i < |t.props| ==> PropDecode(fields, t, i, p).Ok?
    ensures CollectFields(PropResults(fields, t, p)).Err? ==>
      exists i :: 0 <= i < |t.props| && PropDecode(fields, t, i, p) == Err(CollectFields(PropResults(fields, t, p)).error) &&
        forall j :: 0 <= j < i ==> PropDecode(fields, t, j, p).Ok?
  {
    var rs := PropResults(fields, t, p);
    forall i | 0 <= i < |t.props| ensures rs[i].Ok? == PropDecode(fields, t, i, p).Ok? {
      PropAt(fields, t, p, i);
    }
    CollectOk(rs);
    if CollectSeq(rs).Err? {
      var i := FirstFailure(rs);
      PropAt(fields, t, p, i);
      assert PropDecode(fields, t, i, p) == Err(CollectFields(rs).error);
    }
  }

  /** The declared property whose failure a failing decoding reports. */
  lemma FirstFailingProp(fields: Fields, t: Type, p: seq<string>) returns (i: nat)
    requires t.Struct? || t.Interface?
    requires CollectFields(PropResults(fields, t, p)).Err?
    ensures i < |t.props| && PropDecode(fields, t, i, p) == Err(CollectFields(PropResults(fields, t, p)).error)
    ensures forall j :: 0 <= j < i ==> PropDecode(fields, t, j, p).Ok?
  {
    var rs := PropResults(fields, t, p);
    i := FirstFailure(rs);
    PropAt(fields, t, p, i);
    forall j | 0 <= j < i ensures PropDecode(fields, t, j, p).Ok? {
      PropAt(fields, t, p, j);
    }
  }

  /** The decoded pairs of properties that all succeed: one per declared
      property, in declaration order. */
  lemma PropsPairs(fields: Fields, t: Type, p: seq<string>)
    requires t.Struct? || t.Interface?
    requires forall i :: 0 <= i < |t.props| ==> PropDecode(fields, t, i, p).Ok?
    ensures CollectSeq(PropResults(fields, t, p)).Ok?
    ensures |CollectSeq(PropResults(fields, t, p)).value| == |t.props|
    ensures forall i :: 0 <= i < |t.props| ==>
      CollectSeq(PropResults(fields, t, p)).value[i] == (t.props[i].0, PropDecode(fields, t, i, p).value)
  {
    var rs := PropResults(fields, t, p);
    forall i | 0 <= i < |t.props| ensures rs[i] == Ok((t.props[i].0, PropDecode(fields, t, i, p).value)) {
      PropAt(fields, t, p, i);
    }
    CollectOk(rs);
  }

  /** Pairs named one by one as the declared properties carry exactly the
      declared names. */
  lemma PairNames(pairs: Fields, t: Type)
    requires t.Struct? || t.Interface?
    requires |pairs| == |t.props| && forall i :: 0 <= i < |t.props| ==> pairs[i].0 == t.props[i].0
    ensures KeySet(pairs) == PropNames(t)
    ensures DistinctProps(t) ==> DistinctKeys(pairs)
  {
    forall k | k in PropNames(t) ensures k in KeySet(pairs) {
      var i :| 0 <= i < |t.props| && t.props[i].0 == k;
      assert pairs[i].0 == k;
    }
  }

  /** The decoded declared properties, when they all succeed: the result has
      exactly the declared names and, names being distinct, holds each
      property's decoded value in declaration order. */
  lemma PropsDecoded(fields: Fields, t: Type, p: seq<string>)
    requires t.Struct? || t.Interface?
    requires forall i :: 0 <= i < |t.props| ==> PropDecode(fields, t, i, p).Ok?
    ensures CollectFields(PropResults(fields, t, p)).Ok?
    ensures KeySet(CollectFields(PropResults(fields, t, p)).value) == PropNames(t)
    ensures DistinctProps(t) ==>
      |CollectFields(PropResults(fields, t, p)).value| == |t.props| &&
      forall i :: 0 <= i < |t.props| ==>
        CollectFields(PropResults(fields, t, p)).value[i] == (t.props[i].0, PropDecode(fields, t, i, p).value)
  {
    PropsPairs(fields, t, p);
    var pairs := CollectSeq(PropResults(fields, t, p)).value;
    assert CollectFields(PropResults(fields, t, p)) == Ok(PutAll([], pairs));
    PairNames(pairs, t);
    PutAllKeys([], pairs);
    if DistinctProps(t) {
      PutAllDistinct(pairs);
    }
  }

  /** Interface: an object decodes to the plain object of its decoded declared
      properties; the first failing property decides a failure. */
  lemma InterfaceDecode(fields: Fields, t: Type, p: seq<string>)
    requires t.Interface?
    ensures Decode(Obj(fields), t, p).Ok? <==> forall i :: 0 <= i < |t.props| ==> PropDecode(fields, t, i, p).Ok?
    ensures Decode(Obj(fields), t, p).Ok? ==>
      Decode(Obj(fields), t, p).value.Obj? && KeySet(Decode(Obj(fields), t, p).value.fields) == PropNames(t)
    ensures Decode(Obj(fields), t, p).Ok? && DistinctProps(t) ==>
      |Decode(Obj(fields), t, p).value.fields| == |t.props| &&
      forall i :: 0 <= i < |t.props| ==>
        Decode(Obj(fields), t, p).value.fields[i] == (t.props[i].0, PropDecode(fields, t, i, p).value)
    ensures Decode(Obj(fields), t, p).Err? ==>
      exists i :: 0 <= i < |t.props| && PropDecode(fields, t, i, p) == Err(Decode(Obj(fields), t, p).error) &&
        forall j :: 0 <= j < i ==> PropDecode(fields, t, j, p).Ok?
  {
    var r := CollectFields(PropResults(fields, t, p));
    UnfoldInterface(fields, t, p);
    PropsOutcome(fields, t, p);
    if r.Ok? {
      PropsDecoded(fields, t, p);
    } else {
      var i := FirstFailingProp(fields, t, p);
      assert PropDecode(fields, t, i, p) == Decode(Obj(fields), t, p);
    }
  }

  /** Struct: once every declared property decodes, the object of decoded
      properties goes to the struct's constructor, whose refusal is reported
      from the struct's own name; otherwise the first failing property
      decides the failure. */
  lemma StructDecode(fields: Fields, t: Type, p: seq<string>)
    requires t.Struct?
    ensures (forall i :: 0 <= i < |t.props| ==> PropDecode(fields, t, i, p).Ok?) ==>
      exists ret: Fields :: KeySet(ret) == PropNames(t) &&
        (DistinctProps(t) ==>
           |ret| == |t.props| && forall i :: 0 <= i < |t.props| ==> ret[i] == (t.props[i].0, PropDecode(fields, t, i, p).value)) &&
        Decode(Obj(fields), t, p) == Construct(t.build(Obj(ret)), StructConstructorRefused, [t.name])
    ensures (exists i :: 0 <= i < |t.props| && PropDecode(fields, t, i, p).Err?) ==>
      exists i :: 0 <= i < |t.props| && PropDecode(fields, t, i, p) == Decode(Obj(fields), t, p) &&
        forall j :: 0 <= j < i ==> PropDecode(fields, t, j, p).Ok?
  {
    var r := CollectFields(PropResults(fields, t, p));
    UnfoldStruct(fields, t, p);
    PropsOutcome(fields, t, p);
    if r.Ok? {
      assert forall i :: 0 <= i < |t.props| ==> PropDecode(fields, t, i, p).Ok?;
      PropsDecoded(fields, t, p);
    } else {
      var i := FirstFailingProp(fields, t, p);
      assert PropDecode(fields, t, i, p) == Decode(Obj(fields), t, p);
    }
  }

  /** List: an array decodes element by element, with the index pushed on the
      path; the result has the same length and order. */
  lemma ListDecode(items: seq<Value>, t: Type, p: seq<string>)
    requires t.List?
    ensures Decode(Arr(items), t, p).Ok? <==>
      forall i :: 0 <= i < |items| ==> Decode(items[i], t.elem, p + [Segment(Decimal(i), t.elem)]).Ok?
    ensures Decode(Arr(items), t, p).Ok? ==>
      Decode(Arr(items), t, p).value.Arr? && |Decode(Arr(items), t, p).value.items| == |items| &&
      forall i :: 0 <= i < |items| ==>
        Decode(Arr(items), t, p).value.items[i] == Decode(items[i], t.elem, p + [Segment(Decimal(i), t.elem)]).value
    ensures Decode(Arr(items), t, p).Err? ==>
      exists i :: 0 <= i < |items| && Decode(items[i], t.elem, p + [Segment(Decimal(i), t.elem)]) == Decode(Arr(items), t, p) &&
        forall j :: 0 <= j < i ==> Decode(items[j], t.elem, p + [Segment(Decimal(j), t.elem)]).Ok?
  {
    UnfoldElements(items, t, p);
    var rs := ElementResults(items, t, p);
    forall i | 0 <= i < |items| ensures rs[i] == Decode(items[i], t.elem, p + [Segment(Decimal(i), t.elem)]) {
      ElementAt(items, t, p, i);
    }
    CollectOk(rs);
    if CollectSeq(rs).Err? {
      var i := FirstFailure(rs);
    }
  }

  /** Tuple: an array of the right length decodes position by position against
      the position's type; the result has the tuple's arity. */
  lemma TupleDecode(items: seq<Value>, t: Type, p: seq<string>)
    requires t.Tuple? && |items| == |t.types|
    ensures Decode(Arr(items), t, p).Ok? <==>
      forall i :: 0 <= i < |items| ==> Decode(items[i], t.types[i], p + [Segment(Decimal(i), t.types[i])]).Ok?
    ensures Decode(Arr(items), t, p).Ok? ==>
      Decode(Arr(items), t, p).value.Arr? && |Decode(Arr(items), t, p).value.items| == |t.types| &&
      forall i :: 0 <= i < |items| ==>
        Decode(Arr(items), t, p).value.items[i] == Decode(items[i], t.types[i], p + [Segment(Decimal(i), t.types[i])]).value
    ensures Decode(Arr(items), t, p).Err? ==>
      exists i :: 0 <= i < |items| && Decode(items[i], t.types[i], p + [Segment(Decimal(i), t.types[i])]) == Decode(Arr(items), t, p) &&
        forall j :: 0 <= j < i ==> Decode(items[j], t.types[j], p + [Segment(Decimal(j), t.types[j])]).Ok?
  {
    UnfoldElements(items, t, p);
    var rs := ElementResults(items, t, p);
    forall i | 0 <= i < |items| ensures rs[i] == Decode(items[i], t.types[i], p + [Segment(Decimal(i), t.types[i])]) {
      ElementAt(items, t, p, i);
    }
    CollectOk(rs);
    if CollectSeq(rs).Err? {
      var i := FirstFailure(rs);
    }
  }

  /** The dict's entries all go through, or the first failing one (in the
      value's own key order) decides the failure. */
  lemma DictOutcome(fields: Fields, t: Type, p: seq<string>)
    requires t.Dict?
    ensures CollectFields(EntryResults(fields, t, p)).Ok? <==>
      forall i :: 0 <= i < |fields| ==> EntryDecodes(fields, t, i, p)
    ensures CollectFields(EntryResults(fields, t, p)).Err? ==>
      exists i :: 0 <= i < |fields| && EntryResult(fields, t, i, p) == Err(CollectFields(EntryResults(fields, t, p)).error) &&
        forall j :: 0 <= j < i ==> EntryDecodes(fields, t, j, p)
  {
    var rs := EntryResults(fields, t, p);
    forall i | 0 <= i < |fields|
      ensures rs[i] == EntryResult(fields, t, i, p)
      ensures rs[i].Ok? <==> EntryDecodes(fields, t, i, p)
    {
      DictEntryAt(fields, t, p, i);
    }
    CollectOk(rs);
    assert CollectFields(rs).Ok? == CollectSeq(rs).Ok?;
    if CollectSeq(rs).Err? {
      var i := FirstFailure(rs);
      assert CollectFields(rs).error == CollectSeq(rs).error;
    }
  }

  /** The pairs of a dict whose entries all go through: entry `i` gives its
      transformed key and its decoded value. */
  lemma DictPairs(fields: Fields, t: Type, p: seq<string>)
    requires t.Dict?
    requires forall i :: 0 <= i < |fields| ==> EntryDecodes(fields, t, i, p)
    ensures CollectSeq(EntryResults(fields, t, p)).Ok?
    ensures |CollectSeq(EntryResults(fields, t, p)).value| == |fields|
    ensures forall i :: 0 <= i < |fields| ==> CollectSeq(EntryResults(fields, t, p)).value[i] == EntryPair(fields, t, i, p)
  {
    var rs := EntryResults(fields, t, p);
    forall i | 0 <= i < |fields| ensures rs[i] == Ok(EntryPair(fields, t, i, p)) {
      DictEntryAt(fields, t, p, i);
    }
    CollectOk(rs);
  }

  /** The keys a dict's entries are stored under. */
  function DomainKeys(fields: Fields, t: Type): (keys: set<string>)
    requires t.Dict?
  {
    set i | 0 <= i < |fields| && t.domain(fields[i].0).Built? :: t.domain(fields[i].0).value
  }

  /** A decoded dict's keys are the transformed keys of the value. */
  lemma DictKeys(fields: Fields, t: Type, p: seq<string>)
    requires t.Dict?
    requires forall i :: 0 <= i < |fields| ==> EntryDecodes(fields, t, i, p)
    ensures CollectFields(EntryResults(fields, t, p)).Ok?
    ensures KeySet(CollectFields(EntryResults(fields, t, p)).value) == DomainKeys(fields, t)
  {
    DictPairs(fields, t, p);
    var pairs := CollectSeq(EntryResults(fields, t, p)).value;
    PutAllKeys([], pairs);
    forall k | k in KeySet(pairs) ensures k in DomainKeys(fields, t) {
      var i :| 0 <= i < |pairs| && pairs[i].0 == k;
      assert pairs[i] == EntryPair(fields, t, i, p);
    }
    forall k | k in DomainKeys(fields, t) ensures k in KeySet(pairs) {
      var i :| 0 <= i < |fields| && t.domain(fields[i].0).Built? && t.domain(fields[i].0).value == k;
      assert pairs[i] == EntryPair(fields, t, i, p);
    }
  }

  /** A transformed key that no later entry produces again holds the decoded
      value of its entry. */
  lemma DictLastWins(fields: Fields, t: Type, p: seq<string>, i: nat)
    requires t.Dict? && i < |fields|
    requires forall j :: 0 <= j < |fields| ==> EntryDecodes(fields, t, j, p)
    requires forall j :: i < j < |fields| ==> t.domain(fields[j].0) != t.domain(fields[i].0)
    ensures CollectFields(EntryResults(fields, t, p)).Ok?
    ensures Lookup(CollectFields(EntryResults(fields, t, p)).value, EntryPair(fields, t, i, p).0) == EntryPair(fields, t, i, p).1
  {
    DictPairs(fields, t, p);
    var pairs := CollectSeq(EntryResults(fields, t, p)).value;
    var k := pairs[i].0;
    assert EntryDecodes(fields, t, i, p) && pairs[i] == EntryPair(fields, t, i, p);
    forall j | i < j < |pairs| ensures pairs[j].0 != k {
      assert EntryDecodes(fields, t, j, p) && pairs[j] == EntryPair(fields, t, j, p);
      assert t.domain(fields[j].0) != t.domain(fields[i].0);
    }
    LastLookupAt(pairs, i, k);
    PutAllLookup([], pairs, k);
  }

  /** Dict: the value decodes exactly when every own key goes through the
      domain and every value through the codomain; otherwise the first
      failing entry, in the value's own key order, decides the failure. */
  lemma DictDecodeOutcome(fields: Fields, t: Type, p: seq<string>)
    requires t.Dict?
    ensures Decode(Obj(fields), t, p).Ok? <==> forall i :: 0 <= i < |fields| ==> EntryDecodes(fields, t, i, p)
    ensures Decode(Obj(fields), t, p).Err? ==>
      exists i :: 0 <= i < |fields| && EntryResult(fields, t, i, p) == Err(Decode(Obj(fields), t, p).error) &&
        forall j :: 0 <= j < i ==> EntryDecodes(fields, t, j, p)
  {
    UnfoldDict(fields, t, p);
    DictOutcome(fields, t, p);
  }

  /** Dict: a decoded dict is an object whose keys are the transformed keys,
      and a transformed key holds the decoded value of the last entry that
      produced it. */
  lemma DictDecodeContents(fields: Fields, t: Type, p: seq<string>)
    requires t.Dict?
    requires forall i :: 0 <= i < |fields| ==> EntryDecodes(fields, t, i, p)
    ensures Decode(Obj(fields), t, p).Ok? && Decode(Obj(fields), t, p).value.Obj?
    ensures KeySet(Decode(Obj(fields), t, p).value.fields) == DomainKeys(fields, t)
    ensures forall i :: 0 <= i < |fields| && (forall j :: i < j < |fields| ==> t.domain(fields[j].0) != t.domain(fields[i].0)) ==>
      Lookup(Decode(Obj(fields), t, p).value.fields, EntryPair(fields, t, i, p).0) == EntryPair(fields, t, i, p).1
  {
    UnfoldDict(fields, t, p);
    DictKeys(fields, t, p);
    var r := CollectFields(EntryResults(fields, t, p));
    forall i | 0 <= i < |fields| && (forall j :: i < j < |fields| ==> t.domain(fields[j].0) != t.domain(fields[i].0))
      ensures Lookup(r.value, EntryPair(fields, t, i, p).0) == EntryPair(fields, t, i, p).1
    {
      DictLastWins(fields, t, p, i);
    }
  }

  /** Intersection: every member decodes the same raw value, with the member's
      index pushed on the path. When they all succeed, the constructor gets
      the left-to-right merge of the results if the FIRST result is an
      object, and the raw value otherwise. */
  lemma IntersectionDecode(v: Value, t: Type, p: seq<string>)
    requires t.Intersection?
    requires forall i :: 0 <= i < |t.types| ==> MemberDecode(v, t, i, p).Ok?
    ensures
      exists xs: seq<Value> ::
        |xs| == |t.types| && (forall i :: 0 <= i < |t.types| ==> xs[i] == MemberDecode(v, t, i, p).value) &&
        Decode(v, t, p) == Construct(t.build(if |xs| > 0 && xs[0].Obj? then Obj(MergeAll(xs)) else v), ConstructorRefused, p)
  {
    UnfoldIntersection(v, t, p);
    var rs := MemberResults(v, t, p);
    forall i | 0 <= i < |t.types| ensures rs[i] == MemberDecode(v, t, i, p) {
      MemberAt(v, t, p, i);
    }
    CollectOk(rs);
    var xs := CollectSeq(rs).value;
    assert |xs| == |t.types| && forall i :: 0 <= i < |t.types| ==> xs[i] == MemberDecode(v, t, i, p).value;
  }

  /** Intersection: when some member fails, the first failing member decides
      the failure and the constructor is not called. */
  lemma IntersectionFails(v: Value, t: Type, p: seq<string>)
    requires t.Intersection?
    requires exists i :: 0 <= i < |t.types| && MemberDecode(v, t, i, p).Err?
    ensures
      exists i :: 0 <= i < |t.types| && MemberDecode(v, t, i, p) == Decode(v, t, p) &&
        forall j :: 0 <= j < i ==> MemberDecode(v, t, j, p).Ok?
  {
    UnfoldIntersection(v, t, p);
    var rs := MemberResults(v, t, p);
    forall i | 0 <= i < |t.types| ensures rs[i] == MemberDecode(v, t, i, p) {
      MemberAt(v, t, p, i);
    }
    CollectOk(rs);
    var i := FirstFailure(rs);
    assert MemberDecode(v, t, i, p) == Decode(v, t, p);
  }

  /** The path only grows by appending: every failure's path extends the path
      the decoder was called with, except a refusal by a struct constructor,
      which is reported from that struct's own name. */
  lemma {:induction false} FailurePathExtendsCaller(v: Value, t: Type, p: seq<string>)
    ensures Decode(v, t, p).Err? ==> FromCaller(Decode(v, t, p).error, p)
    decreases t, 1
  {
    match t
    case Irreducible(_, _) =>
    case Maybe(_, inner) =>
      FailurePathExtendsCaller(v, inner, p);
    case Subtype(_, inner, _) =>
      FailurePathExtendsCaller(v, inner, p);
    case Struct(_, _, _) =>
      if v.Obj? {
        UnfoldStruct(v.fields, t, p);
        PropsFromCaller(v.fields, t, p);
      }
    case Interface(_, _) =>
      if v.Obj? {
        UnfoldInterface(v.fields, t, p);
        PropsFromCaller(v.fields, t, p);
      }
    case List(_, _) =>
      if v.Arr? {
        UnfoldElements(v.items, t, p);
        ElementsFromCaller(v.items, t, p);
      }
    case Union(_, members, dispatch) =>
      if 0 <= dispatch(v) < |members| {
        FailurePathExtendsCaller(v, members[dispatch(v)], p);
      }
    case Tuple(_, types) =>
      if v.Arr? && |v.items| == |types| {
        UnfoldElements(v.items, t, p);
        ElementsFromCaller(v.items, t, p);
      }
    case Dict(_, _, _, _) =>
      if v.Obj? {
        UnfoldDict(v.fields, t, p);
        EntriesFromCaller(v.fields, t, p);
      }
    case Intersection(_, _, _) =>
      UnfoldIntersection(v, t, p);
      MembersFromCaller(v, t, p);
  }

  /** A failure is located under path `p`, or is a struct constructor's refusal. */
  predicate FromCaller(e: Error, p: seq<string>)
  {
    p <= e.path || e.kind == StructConstructorRefused
  }

  /** A failure located under a path one segment below `p` is located under `p`. */
  lemma FromChild(e: Error, p: seq<string>, s: string)
    requires FromCaller(e, p + [s])
    ensures FromCaller(e, p)
  {
    if e.kind != StructConstructorRefused {
      assert e.path[..|p|] == (p + [s])[..|p|];
    }
  }

  lemma {:induction false} PropsFromCaller(fields: Fields, t: Type, p: seq<string>)
    requires t.Struct? || t.Interface?
    ensures CollectFields(PropResults(fields, t, p)).Err? ==> FromCaller(CollectFields(PropResults(fields, t, p)).error, p)
    decreases t, 0
  {
    if CollectFields(PropResults(fields, t, p)).Err? {
      var i := FirstFailingProp(fields, t, p);
      var pt := t.props[i].1;
      FailurePathExtendsCaller(Lookup(fields, t.props[i].0), pt, p + [Segment(t.props[i].0, pt)]);
      FromChild(CollectFields(PropResults(fields, t, p)).error, p, Segment(t.props[i].0, pt));
    }
  }

  lemma {:induction false} ElementsFromCaller(items: seq<Value>, t: Type, p: seq<string>)
    requires t.List? || (t.Tuple? && |items| == |t.types|)
    ensures CollectSeq(ElementResults(items, t, p)).Err? ==> FromCaller(CollectSeq(ElementResults(items, t, p)).error, p)
    decreases t, 0
  {
    var rs := ElementResults(items, t, p);
    if CollectSeq(rs).Err? {
      var i := FirstFailure(rs);
      var et := ElementType(t, i);
      ElementAt(items, t, p, i);
      FailurePathExtendsCaller(items[i], et, p + [Segment(Decimal(i), et)]);
      FromChild(CollectSeq(rs).error, p, Segment(Decimal(i), et));
    }
  }

  lemma {:induction false} EntriesFromCaller(fields: Fields, t: Type, p: seq<string>)
    requires t.Dict?
    ensures CollectFields(EntryResults(fields, t, p)).Err? ==> FromCaller(CollectFields(EntryResults(fields, t, p)).error, p)
    decreases t, 0
  {
    var rs := EntryResults(fields, t, p);
    if CollectSeq(rs).Err? {
      var i := FirstFailure(rs);
      var e := CollectSeq(rs).error;
      assert CollectFields(rs).error == e;
      assert rs[i] == EntryResult(fields, t, i, p);
      var k := fields[i].0;
      if t.domain(k).Built? {
        FailurePathExtendsCaller(fields[i].1, t.codomain, p + [Segment(k, t.codomain)]);
        FromChild(e, p, Segment(k, t.codomain));
      } else {
        assert e.path == p + ([t.domainName] + t.domain(k).detail);
      }
    }
  }

  lemma {:induction false} MembersFromCaller(v: Value, t: Type, p: seq<string>)
    requires t.Intersection?
    ensures CollectSeq(MemberResults(v, t, p)).Err? ==> FromCaller(CollectSeq(MemberResults(v, t, p)).error, p)
    decreases t, 0
  {
    var rs := MemberResults(v, t, p);
    if CollectSeq(rs).Err? {
      var i := FirstFailure(rs);
      assert rs[i] == MemberDecode(v, t, i, p);
      FailurePathExtendsCaller(v, t.types[i], p + [Segment(Decimal(i), t.types[i])]);
      FromChild(CollectSeq(rs).error, p, Segment(Decimal(i), t.types[i]));
    }
  }

  /** At the top level the path starts at the type's name, so every failure
      other than a struct constructor's refusal is located under it. */
  lemma RootPath(v: Value, t: Type)
    ensures Decode(v, t, DefaultPath(t, None)).Err? && Decode(v, t, DefaultPath(t, None)).error.kind != StructConstructorRefused ==>
      |Decode(v, t, DefaultPath(t, None)).error.path| >= 1 && Decode(v, t, DefaultPath(t, None)).error.path[0] == t.name
  {
    FailurePathExtendsCaller(v, t, [t.name]);
  }

  /** The path is diagnostics only: whether decoding succeeds, and what it
      yields, does not depend on the path it starts from. */
  lemma {:induction false} SuccessIgnoresPath(v: Value, t: Type, p: seq<string>, q: seq<string>)
    ensures SameOutcome(Decode(v, t, p), Decode(v, t, q))
    decreases t, 1
  {
    match t
    case Irreducible(_, _) =>
    case Maybe(_, inner) =>
      SuccessIgnoresPath(v, inner, p, q);
    case Subtype(_, inner, _) =>
      SuccessIgnoresPath(v, inner, p, q);
    case Struct(_, _, _) =>
      if v.Obj? {
        UnfoldStruct(v.fields, t, p);
        UnfoldStruct(v.fields, t, q);
        PropsIgnorePath(v.fields, t, p, q);
      }
    case Interface(_, _) =>
      if v.Obj? {
        UnfoldInterface(v.fields, t, p);
        UnfoldInterface(v.fields, t, q);
        PropsIgnorePath(v.fields, t, p, q);
      }
    case List(_, _) =>
      if v.Arr? {
        UnfoldElements(v.items, t, p);
        UnfoldElements(v.items, t, q);
        ElementsIgnorePath(v.items, t, p, q);
      }
    case Union(_, members, dispatch) =>
      if 0 <= dispatch(v) < |members| {
        SuccessIgnoresPath(v, members[dispatch(v)], p, q);
      }
    case Tuple(_, types) =>
      if v.Arr? && |v.items| == |types| {
        UnfoldElements(v.items, t, p);
        UnfoldElements(v.items, t, q);
        ElementsIgnorePath(v.items, t, p, q);
      }
    case Dict(_, _, _, _) =>
      if v.Obj? {
        UnfoldDict(v.fields, t, p);
        UnfoldDict(v.fields, t, q);
        EntriesIgnorePath(v.fields, t, p, q);
      }
    case Intersection(_, _, _) =>
      UnfoldIntersection(v, t, p);
      UnfoldIntersection(v, t, q);
      MembersIgnorePath(v, t, p, q);
  }

  /** Combined field results that agree keep agreeing once stored. */
  lemma FieldsSameOutcome(rs: seq<Result<(string, Value)>>, qs: seq<Result<(string, Value)>>)
    requires SameOutcome(CollectSeq(rs), CollectSeq(qs))
    ensures SameOutcome(CollectFields(rs), CollectFields(qs))
  {
  }

  /** The declared properties decode alike from any two paths. */
  lemma {:induction false} PropsIgnorePath(fields: Fields, t: Type, p: seq<string>, q: seq<string>)
    requires t.Struct? || t.Interface?
    ensures SameOutcome(CollectFields(PropResults(fields, t, p)), CollectFields(PropResults(fields, t, q)))
    decreases t, 0
  {
    var rs, qs := PropResults(fields, t, p), PropResults(fields, t, q);
    forall i | 0 <= i < |rs| ensures SameOutcome(rs[i], qs[i]) {
      var k, pt := t.props[i].0, t.props[i].1;
      PropAt(fields, t, p, i);
      PropAt(fields, t, q, i);
      SuccessIgnoresPath(Lookup(fields, k), pt, p + [Segment(k, pt)], q + [Segment(k, pt)]);
    }
    CollectSameOutcome(rs, qs);
    FieldsSameOutcome(rs, qs);
  }

  /** The elements of a list or a tuple decode alike from any two paths. */
  lemma {:induction false} ElementsIgnorePath(items: seq<Value>, t: Type, p: seq<string>, q: seq<string>)
    requires t.List? || (t.Tuple? && |items| == |t.types|)
    ensures SameOutcome(CollectSeq(ElementResults(items, t, p)), CollectSeq(ElementResults(items, t, q)))
    decreases t, 0
  {
    var rs, qs := ElementResults(items, t, p), ElementResults(items, t, q);
    forall i | 0 <= i < |rs| ensures SameOutcome(rs[i], qs[i]) {
      var et := ElementType(t, i);
      ElementAt(items, t, p, i);
      ElementAt(items, t, q, i);
      SuccessIgnoresPath(items[i], et, p + [Segment(Decimal(i), et)], q + [Segment(Decimal(i), et)]);
    }
    CollectSameOutcome(rs, qs);
  }

  /** The entries of a dict decode alike from any two paths. */
  lemma {:induction false} EntriesIgnorePath(fields: Fields, t: Type, p: seq<string>, q: seq<string>)
    requires t.Dict?
    ensures SameOutcome(CollectFields(EntryResults(fields, t, p)), CollectFields(EntryResults(fields, t, q)))
    decreases t, 0
  {
    var rs, qs := EntryResults(fields, t, p), EntryResults(fields, t, q);
    forall i | 0 <= i < |rs| ensures SameOutcome(rs[i], qs[i]) {
      var k := fields[i].0;
      assert rs[i] == EntryResult(fields, t, i, p);
      assert qs[i] == EntryResult(fields, t, i, q);
      SuccessIgnoresPath(fields[i].1, t.codomain, p + [Segment(k, t.codomain)], q + [Segment(k, t.codomain)]);
    }
    CollectSameOutcome(rs, qs);
    FieldsSameOutcome(rs, qs);
  }

  /** The members of an intersection decode alike from any two paths. */
  lemma {:induction false} MembersIgnorePath(v: Value, t: Type, p: seq<string>, q: seq<string>)
    requires t.Intersection?
    ensures SameOutcome(CollectSeq(MemberResults(v, t, p)), CollectSeq(MemberResults(v, t, q)))
    decreases t, 0
  {
    var rs, qs := MemberResults(v, t, p), MemberResults(v, t, q);
    forall i | 0 <= i < |rs| ensures SameOutcome(rs[i], qs[i]) {
      assert rs[i] == MemberDecode(v, t, i, p);
      assert qs[i] == MemberDecode(v, t, i, q);
      SuccessIgnoresPath(v, t.types[i], p + [Segment(Decimal(i), t.types[i])], q + [Segment(Decimal(i), t.types[i])]);
    }
    CollectSameOutcome(rs, qs);
  }
}
