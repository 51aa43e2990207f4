/** Concrete decodings: a point interface, a list of numbers and nested maybes,
    each traced to its value or to the failure and the path it reports. */
module DecodingExamples {
  import opened Values
  import opened Results
  import opened Types
  import opened Decoder
  import opened DecoderProperties

  /** An irreducible number type whose constructor accepts numbers only. */
  function NumberType(): (t: Type)
  {
    Irreducible("Number", (v: Value) => if v.Num? then Built(v) else Refused([]))
  }

  /** `t.interface({ x: t.Number, y: t.Number }, 'Point')`. */
  function PointType(): (t: Type)
  {
    Interface("Point", [("x", NumberType()), ("y", NumberType())])
  }

  /** A point whose properties are both numbers decodes to itself. */
  lemma PointDecodes()
    ensures Decode(Obj([("x", Num(1)), ("y", Num(2))]), PointType(), ["Point"]) == Ok(Obj([("x", Num(1)), ("y", Num(2))]))
  {
    var fields := [("x", Num(1)), ("y", Num(2))];
    var t := PointType();
    assert DistinctProps(t);
    InterfaceDecode(fields, t, ["Point"]);
    assert PropDecode(fields, t, 0, ["Point"]) == Ok(Num(1));
    assert PropDecode(fields, t, 1, ["Point"]) == Ok(Num(2));
    var r := Decode(Obj(fields), t, ["Point"]);
    assert r.value.fields[0] == fields[0] && r.value.fields[1] == fields[1];
    assert r.value.fields == fields;
  }

  /** A point without `y` fails at `y`, after `x` decoded. */
  lemma PointMissingY()
    ensures Decode(Obj([("x", Num(1))]), PointType(), ["Point"]) == Err(Error(ConstructorRefused, ["Point", "y: Number"]))
  {
    var fields := [("x", Num(1))];
    var t := PointType();
    InterfaceDecode(fields, t, ["Point"]);
    assert Lookup(fields, "y") == Nil;
    assert Segment("y", NumberType()) == "y: Number";
    assert PropDecode(fields, t, 0, ["Point"]) == Ok(Num(1));
    assert PropDecode(fields, t, 1, ["Point"]) == Err(Error(ConstructorRefused, ["Point"] + ["y: Number"]));
    assert ["Point"] + ["y: Number"] == ["Point", "y: Number"];
  }

  /** An array is not a point. */
  lemma ArrayIsNoPoint()
    ensures Decode(Arr([]), PointType(), ["Point"]) == Err(Error(InvalidValueShape, ["Point"]))
  {
  }

  /** A list of numbers whose second element is a string fails at index 1. */
  lemma ListFailsAtIndex()
    ensures Decode(Arr([Num(1), Str("a")]), List("Numbers", NumberType()), ["Numbers"]) ==
      Err(Error(ConstructorRefused, ["Numbers", "1: Number"]))
  {
    var items := [Num(1), Str("a")];
    var t := List("Numbers", NumberType());
    ListDecode(items, t, ["Numbers"]);
    assert Decimal(0) == "0" && Decimal(1) == "1";
    assert Segment(Decimal(1), NumberType()) == "1: Number";
    assert Decode(items[0], NumberType(), ["Numbers", Segment(Decimal(0), NumberType())]).Ok?;
    assert ["Numbers"] + ["1: Number"] == ["Numbers", "1: Number"];
  }

  /** Maybe does not push a segment: a failure two maybes down is reported at
      the caller's path itself, so a failure's path can be shorter than the
      depth the decoder reached. */
  lemma NestedMaybeKeepsPath()
    ensures Decode(Str("a"), Maybe("A", Maybe("B", NumberType())), ["A"]) == Err(Error(ConstructorRefused, ["A"]))
  {
    MaybeDecode(Str("a"), Maybe("A", Maybe("B", NumberType())), ["A"]);
    MaybeDecode(Str("a"), Maybe("B", NumberType()), ["A"]);
    assert ["A"] + [] == ["A"];
  }
}
