/** Decode failures and the "first failure wins" combination of the results of
    decoding several children in order. */
module Results {

  /** The categories of failure the decoder raises. */
  datatype ErrorKind =
    | InvalidValueShape         // not an object / not an array where one is required
    | TupleLengthMismatch       // an array of the wrong length for a tuple
    | AmbiguousUnionDispatch    // a union's dispatch gave no member type
    | InvalidValueContent       // a refinement predicate rejected the decoded value
    | ConstructorRefused        // a type's constructor `type(value, path)` rejected the value
    | StructConstructorRefused  // a struct's constructor `new type(ret)` rejected the decoded object

  /** A failure: its category and the path of the place where it arose. */
  datatype Error = Error(kind: ErrorKind, path: seq<string>)

  /** A decoded value, or the failure that stopped decoding. */
  datatype Result<T> = Ok(value: T) | Err(error: Error)

  /** Both results succeed or both fail, and successes carry the same value. */
  ghost predicate SameOutcome<T>(a: Result<T>, b: Result<T>)
  {
    a.Ok? == b.Ok? && (a.Ok? ==> a.value == b.value)
  }

  /** Combines the results of decoding children one after the other, stopping
      at the first failure, as `Array.prototype.map` and a for-in loop do when
      a call throws. */
  function CollectSeq<T>(rs: seq<Result<T>>): (r: Result<seq<T>>)
    decreases |rs|
  {
    if |rs| == 0 then Ok([])
    else match CollectSeq(rs[..|rs| - 1])
      case Err(e) => Err(e)
      case Ok(xs) =>
        match rs[|rs| - 1]
        case Err(e) => Err(e)
        case Ok(x) => Ok(xs + [x])
  }

  /** The combination succeeds exactly when every child succeeds, and then it
      holds the children's values in order. */
  lemma {:induction false} CollectOk<T>(rs: seq<Result<T>>)
    ensures CollectSeq(rs).Ok? <==> forall i :: 0 <= i < |rs| ==> rs[i].Ok?
    ensures CollectSeq(rs).Ok? ==>
      |CollectSeq(rs).value| == |rs| && forall i :: 0 <= i < |rs| ==> CollectSeq(rs).value[i] == rs[i].value
    decreases |rs|
  {
    if |rs| > 0 {
      var init := rs[..|rs| - 1];
      CollectOk(init);
      assert forall i :: 0 <= i < |init| ==> init[i] == rs[i];
    }
  }

  /** The index of the child whose failure the combination reports: every
      child before it succeeds. */
  lemma {:induction false} FirstFailure<T>(rs: seq<Result<T>>) returns (i: nat)
    requires CollectSeq(rs).Err?
    ensures i < |rs| && rs[i] == Err(CollectSeq(rs).error)
    ensures forall j :: 0 <= j < i ==> rs[j].Ok?
    decreases |rs|
  {
    var init := rs[..|rs| - 1];
    if CollectSeq(init).Err? {
      i := FirstFailure(init);
      assert forall j :: 0 <= j <= i ==> rs[j] == init[j];
    } else {
      i := |rs| - 1;
      CollectOk(init);
      assert forall j :: 0 <= j < i ==> rs[j] == init[j];
    }
  }

  /** Once the children up to `i` succeeded and child `i` fails, the whole
      combination fails with child `i`'s failure. */
  lemma {:induction false} CollectStopsAt<T>(rs: seq<Result<T>>, i: nat)
    requires i < |rs| && CollectSeq(rs[..i]).Ok? && rs[i].Err?
    ensures CollectSeq(rs) == Err(rs[i].error)
    decreases |rs|
  {
    var init := rs[..|rs| - 1];
    if i < |rs| - 1 {
      assert init[..i] == rs[..i];
      CollectStopsAt(init, i);
    } else {
      assert init == rs[..i];
    }
  }

  /** The combination fails with `e` exactly when some child fails with `e`
      and every child before it succeeds. */
  lemma CollectFirstError<T>(rs: seq<Result<T>>, e: Error)
    ensures CollectSeq(rs) == Err(e) <==>
      exists i :: 0 <= i < |rs| && rs[i] == Err(e) && forall j :: 0 <= j < i ==> rs[j].Ok?
  {
    if CollectSeq(rs) == Err(e) {
      var i := FirstFailure(rs);
    }
    if exists i :: 0 <= i < |rs| && rs[i] == Err(e) && forall j :: 0 <= j < i ==> rs[j].Ok? {
      var i :| 0 <= i < |rs| && rs[i] == Err(e) && forall j :: 0 <= j < i ==> rs[j].Ok?;
      CollectOk(rs[..i]);
      assert forall j :: 0 <= j < i ==> rs[..i][j] == rs[j];
      CollectStopsAt(rs, i);
    }
  }

  /** Children that agree one by one on success and value combine to results
      that agree too. */
  lemma {:induction false} CollectSameOutcome<T>(rs: seq<Result<T>>, qs: seq<Result<T>>)
    requires |rs| == |qs|
    requires forall i :: 0 <= i < |rs| ==> SameOutcome(rs[i], qs[i])
    ensures SameOutcome(CollectSeq(rs), CollectSeq(qs))
  {
    CollectOk(rs);
    CollectOk(qs);
    if CollectSeq(rs).Ok? {
      assert CollectSeq(rs).value == CollectSeq(qs).value;
    }
  }
}
