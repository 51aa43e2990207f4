/** JSON-like values as the decoder sees them, and the object operations it
    relies on: property read (`obj[k]`), property write (`obj[k] = x`) and the
    left-to-right merge `assignMany`. */
module Values {

  /** A loosely typed value. `Nil` stands for both null and undefined.
      An object keeps its own properties in enumeration order. */
  datatype Value =
    | Nil
    | Bool(b: bool)
    | Num(n: int)
    | Str(s: string)
    | Arr(items: seq<Value>)
    | Obj(fields: seq<(string, Value)>)

  /** The own properties of an object, in enumeration order. */
  type Fields = seq<(string, Value)>

  /** The set of property names of `fs`. */
  function KeySet(fs: Fields): (ks: set<string>)
  {
    set i | 0 <= i < |fs| :: fs[i].0
  }

  /** No property name occurs twice (always so for a real object). */
  predicate DistinctKeys(fs: Fields)
  {
    forall i, j :: 0 <= i < j < |fs| ==> fs[i].0 != fs[j].0
  }

  /** Reading `obj[k]`: the value of property `k`, undefined (Nil) when absent. */
  function Lookup(fs: Fields, k: string): (x: Value)
    ensures k !in KeySet(fs) ==> x == Nil
  {
    if |fs| == 0 then Nil
    else if fs[0].0 == k then fs[0].1
    else
      KeySetCons(fs);
      Lookup(fs[1..], k)
  }

  /** Writing `obj[k] = x`: an existing property keeps its place and takes the
      new value; a new property is added last. */
  function Put(fs: Fields, k: string, x: Value): (r: Fields)
    ensures KeySet(r) == KeySet(fs) + {k}
    ensures Lookup(r, k) == x
    ensures k !in KeySet(fs) ==> r == fs + [(k, x)]
    ensures k in KeySet(fs) ==> |r| == |fs| && forall i :: 0 <= i < |fs| ==> r[i].0 == fs[i].0
  {
    if |fs| == 0 then
      assert KeySet([(k, x)]) == {k} by { KeySetSnoc([], (k, x)); }
      [(k, x)]
    else if fs[0].0 == k then
      PutHere(fs, x);
      [(k, x)] + fs[1..]
    else
      var rest := Put(fs[1..], k, x);
      PutFurther(fs, k, x, rest);
      [fs[0]] + rest
  }

  /** `Put` on an object whose first property is the one written. */
  lemma PutHere(fs: Fields, x: Value)
    requires |fs| > 0
    ensures var k, r := fs[0].0, [(fs[0].0, x)] + fs[1..];
      KeySet(r) == KeySet(fs) && Lookup(r, k) == x && k in KeySet(fs)
      && |r| == |fs| && forall i :: 0 <= i < |fs| ==> r[i].0 == fs[i].0
  {
    var r := [(fs[0].0, x)] + fs[1..];
    KeySetCons(fs);
    KeySetCons(r);
    assert r[1..] == fs[1..];
  }

  /** `Put` past a first property with another name: the step from the
      rest's result to the whole result. */
  lemma PutFurther(fs: Fields, k: string, x: Value, rest: Fields)
    requires |fs| > 0 && fs[0].0 != k
    requires KeySet(rest) == KeySet(fs[1..]) + {k}
    requires Lookup(rest, k) == x
    requires k !in KeySet(fs[1..]) ==> rest == fs[1..] + [(k, x)]
    requires k in KeySet(fs[1..]) ==> |rest| == |fs[1..]| && forall i :: 0 <= i < |fs[1..]| ==> rest[i].0 == fs[1..][i].0
    ensures var r := [fs[0]] + rest;
      KeySet(r) == KeySet(fs) + {k} && Lookup(r, k) == x
      && (k !in KeySet(fs) ==> r == fs + [(k, x)])
      && (k in KeySet(fs) ==> |r| == |fs| && forall i :: 0 <= i < |fs| ==> r[i].0 == fs[i].0)
  {
    var r := [fs[0]] + rest;
    KeySetCons(fs);
    KeySetCons(r);
    assert r[1..] == rest;
    assert Lookup(r, k) == Lookup(rest, k);
    if k !in KeySet(fs) {
      assert fs == [fs[0]] + fs[1..];
    } else {
      forall i | 0 <= i < |fs| ensures r[i].0 == fs[i].0 {
        if i > 0 { assert rest[i - 1] == r[i] && fs[1..][i - 1] == fs[i]; }
      }
    }
  }

  /** Writing `k` leaves every other property as it was. */
  lemma {:induction false} PutOther(fs: Fields, k: string, x: Value, j: string)
    requires j != k
    ensures Lookup(Put(fs, k, x), j) == Lookup(fs, j)
    decreases |fs|
  {
    if |fs| > 0 && fs[0].0 != k {
      PutOther(fs[1..], k, x, j);
      assert ([fs[0]] + Put(fs[1..], k, x))[1..] == Put(fs[1..], k, x);
    }
  }

  /** Reading a property an object has yields that property's value. */
  lemma {:induction false} LookupPresent(fs: Fields, i: nat)
    requires DistinctKeys(fs) && i < |fs|
    ensures Lookup(fs, fs[i].0) == fs[i].1
    decreases |fs|
  {
    if i > 0 {
      assert fs[0].0 != fs[i].0;
      assert fs[1..][i - 1] == fs[i];
      assert DistinctKeys(fs[1..]) by {
        forall a, b | 0 <= a < b < |fs[1..]| ensures fs[1..][a].0 != fs[1..][b].0 {
          assert fs[1..][a] == fs[a + 1] && fs[1..][b] == fs[b + 1];
        }
      }
      LookupPresent(fs[1..], i - 1);
    }
  }

  /** The names of a non-empty `fs` are its first name and the names of the rest. */
  lemma KeySetCons(fs: Fields)
    requires |fs| > 0
    ensures KeySet(fs) == {fs[0].0} + KeySet(fs[1..])
  {
    forall k | k in KeySet(fs) ensures k in {fs[0].0} + KeySet(fs[1..]) {
      var i :| 0 <= i < |fs| && fs[i].0 == k;
      if i > 0 { assert fs[1..][i - 1] == fs[i]; }
    }
  }

  /** The names of `fs + [e]`. */
  lemma KeySetSnoc(fs: Fields, e: (string, Value))
    ensures KeySet(fs + [e]) == KeySet(fs) + {e.0}
  {
    var r := fs + [e];
    forall k | k in KeySet(r) ensures k in KeySet(fs) + {e.0} {
      var i :| 0 <= i < |r| && r[i].0 == k;
      if i < |fs| { assert r[i] == fs[i]; }
    }
    forall k | k in KeySet(fs) ensures k in KeySet(r) {
      var i :| 0 <= i < |fs| && fs[i].0 == k;
      assert r[i] == fs[i];
    }
    assert r[|fs|] == e;
  }

  /** The value of the LAST entry of `es` named `k`, Nil when there is none. */
  function LastLookup(es: Fields, k: string): (x: Value)
    decreases |es|
  {
    if |es| == 0 then Nil
    else if es[|es| - 1].0 == k then es[|es| - 1].1
    else LastLookup(es[..|es| - 1], k)
  }

  /** The last entry named `k` is the one no later entry shares its name with. */
  lemma {:induction false} LastLookupAt(es: Fields, i: nat, k: string)
    requires i < |es| && es[i].0 == k
    requires forall j :: i < j < |es| ==> es[j].0 != k
    ensures LastLookup(es, k) == es[i].1
    decreases |es|
  {
    if i < |es| - 1 {
      var init := es[..|es| - 1];
      assert init[i] == es[i];
      LastLookupAt(init, i, k);
    }
  }

  /** Writes the entries of `es` into `fs` one after the other, as a for-in
      loop of assignments does. */
  function PutAll(fs: Fields, es: Fields): (r: Fields)
    decreases |es|
  {
    if |es| == 0 then fs
    else Put(PutAll(fs, es[..|es| - 1]), es[|es| - 1].0, es[|es| - 1].1)
  }

  /** After writing `es`, the names are the old ones plus those of `es`. */
  lemma {:induction false} PutAllKeys(fs: Fields, es: Fields)
    ensures KeySet(PutAll(fs, es)) == KeySet(fs) + KeySet(es)
    decreases |es|
  {
    if |es| > 0 {
      var init, e := es[..|es| - 1], es[|es| - 1];
      assert es == init + [e];
      PutAllKeys(fs, init);
      KeySetSnoc(init, e);
    }
  }

  /** Later writes win: after writing `es`, a name of `es` holds the value of
      its last entry, and any other name keeps its old value. */
  lemma {:induction false} PutAllLookup(fs: Fields, es: Fields, k: string)
    ensures Lookup(PutAll(fs, es), k) == if k in KeySet(es) then LastLookup(es, k) else Lookup(fs, k)
    decreases |es|
  {
    if |es| > 0 {
      var init, e := es[..|es| - 1], es[|es| - 1];
      assert es == init + [e];
      PutAllLookup(fs, init, k);
      KeySetSnoc(init, e);
      assert PutAll(fs, es) == Put(PutAll(fs, init), e.0, e.1);
      if k == e.0 {
        assert LastLookup(es, k) == e.1;
      } else {
        PutOther(PutAll(fs, init), e.0, e.1, k);
        assert LastLookup(es, k) == LastLookup(init, k);
      }
    }
  }

  /** Writing entries with distinct names into an empty object yields exactly
      those entries, in that order. */
  lemma {:induction false} PutAllDistinct(es: Fields)
    requires DistinctKeys(es)
    ensures PutAll([], es) == es
    decreases |es|
  {
    if |es| > 0 {
      var init, e := es[..|es| - 1], es[|es| - 1];
      assert es == init + [e];
      assert DistinctKeys(init);
      PutAllDistinct(init);
      assert e.0 !in KeySet(init) by {
        forall i | 0 <= i < |init| ensures init[i].0 != e.0 {
          assert init[i] == es[i];
        }
      }
      assert PutAll([], es) == Put(PutAll([], init), e.0, e.1);
    }
  }

  /** Digits of `n` in base ten, as JavaScript renders a non-negative integer. */
  function Decimal(n: nat): (s: string)
  {
    if n < 10 then ["0123456789"[n]]
    else Decimal(n / 10) + ["0123456789"[n % 10]]
  }

  /** The own enumerable properties a for-in loop visits: an object's fields,
      the indices of an array or a string, nothing for other values. */
  function OwnEntries(v: Value): (fs: Fields)
  {
    match v
    case Obj(fs) => fs
    case Arr(items) => seq(|items|, i requires 0 <= i < |items| => (Decimal(i), items[i]))
    case Str(s) => seq(|s|, i requires 0 <= i < |s| => (Decimal(i), Str([s[i]])))
    case _ => []
  }

  /** `assignMany(values)`: fold `assign` over `values`, starting from `{}`. */
  function MergeAll(vs: seq<Value>): (r: Fields)
    decreases |vs|
  {
    if |vs| == 0 then []
    else PutAll(MergeAll(vs[..|vs| - 1]), OwnEntries(vs[|vs| - 1]))
  }

  /** `v` has an own enumerable property named `k`. */
  predicate HasOwn(v: Value, k: string)
  {
    k in KeySet(OwnEntries(v))
  }

  /** A property of any merged value is a property of the merged object. */
  lemma {:induction false} MergeAllKeeps(vs: seq<Value>, i: nat, k: string)
    requires i < |vs| && HasOwn(vs[i], k)
    ensures k in KeySet(MergeAll(vs))
    decreases |vs|
  {
    var init := vs[..|vs| - 1];
    PutAllKeys(MergeAll(init), OwnEntries(vs[|vs| - 1]));
    if i < |vs| - 1 {
      assert init[i] == vs[i];
      MergeAllKeeps(init, i, k);
    }
  }

  /** A property of the merged object comes from some merged value. */
  lemma {:induction false} MergeAllSource(vs: seq<Value>, k: string) returns (i: nat)
    requires k in KeySet(MergeAll(vs))
    ensures i < |vs| && HasOwn(vs[i], k)
    decreases |vs|
  {
    var init := vs[..|vs| - 1];
    PutAllKeys(MergeAll(init), OwnEntries(vs[|vs| - 1]));
    if HasOwn(vs[|vs| - 1], k) {
      i := |vs| - 1;
    } else {
      i := MergeAllSource(init, k);
      assert init[i] == vs[i];
    }
  }

  /** The merged object has a property exactly when some merged value has it. */
  lemma MergeAllKeys(vs: seq<Value>, k: string)
    ensures k in KeySet(MergeAll(vs)) <==> exists i :: 0 <= i < |vs| && HasOwn(vs[i], k)
  {
    if k in KeySet(MergeAll(vs)) {
      var i := MergeAllSource(vs, k);
    }
    if exists i :: 0 <= i < |vs| && HasOwn(vs[i], k) {
      var i :| 0 <= i < |vs| && HasOwn(vs[i], k);
      MergeAllKeeps(vs, i, k);
    }
  }

  /** Later values overwrite earlier ones: a merged property holds the value it
      has in the last value that has it. */
  lemma {:induction false} MergeAllLastWins(vs: seq<Value>, i: nat, k: string)
    requires i < |vs| && HasOwn(vs[i], k)
    requires forall j :: i < j < |vs| ==> !HasOwn(vs[j], k)
    ensures Lookup(MergeAll(vs), k) == LastLookup(OwnEntries(vs[i]), k)
    decreases |vs|
  {
    var init := vs[..|vs| - 1];
    PutAllLookup(MergeAll(init), OwnEntries(vs[|vs| - 1]), k);
    if i < |vs| - 1 {
      assert init[i] == vs[i];
      MergeAllLastWins(init, i, k);
    }
  }

  /** `assignMany`: `values.reduce((acc, v) => assign(acc, v), {})`, where
      `assign` copies the own properties of `v` onto `acc` in place. */
  method AssignMany(values: seq<Value>) returns (acc: Fields)
    ensures acc == MergeAll(values)
  {
    acc := [];
    for i := 0 to |values|
      invariant acc == MergeAll(values[..i])
    {
      var entries := OwnEntries(values[i]);
      ghost var before := acc;
      for j := 0 to |entries|
        invariant acc == PutAll(before, entries[..j])
      {
        acc := Put(acc, entries[j].0, entries[j].1);
        assert entries[..j + 1][..j] == entries[..j];
      }
      assert entries[..|entries|] == entries;
      assert values[..i + 1][..i] == values[..i];
    }
    assert values[..|values|] == values;
  }
}
