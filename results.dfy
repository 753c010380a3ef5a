/** Option and Result values standing for Rust's `Option` and `Result`, and
    `Collect`, which models a loop that appends the pieces produced by
    fallible steps and leaves on the first `?` error. */
module Results {

  datatype Option<+T> = None | Some(value: T)

  datatype Result<+T, +E> = Ok(value: T) | Err(error: E)

  /** Concatenation of a sequence of sequences, front to back. */
  function Flatten<T>(xss: seq<seq<T>>): seq<T>
  {
    if xss == [] then [] else Flatten(xss[..|xss| - 1]) + xss[|xss| - 1]
  }

  /** The successful values of a sequence of results that all succeeded. */
  function Values<T, E>(rs: seq<Result<T, E>>): (vs: seq<T>)
    requires forall i :: 0 <= i < |rs| ==> rs[i].Ok?
    ensures |vs| == |rs|
    ensures forall i :: 0 <= i < |rs| ==> vs[i] == rs[i].value
  {
    if rs == [] then [] else Values(rs[..|rs| - 1]) + [rs[|rs| - 1].value]
  }

  /** Appends the values of `rs` in order, stopping at the first error, as the
      loop `for x in xs { result += &step(x)?; }` does. */
  function Collect<T, E>(rs: seq<Result<seq<T>, E>>): Result<seq<T>, E>
  {
    if rs == [] then Ok([])
    else
      match Collect(rs[..|rs| - 1])
      case Err(e) => Err(e)
      case Ok(acc) =>
        match rs[|rs| - 1]
        case Err(e) => Err(e)
        case Ok(d) => Ok(acc + d)
  }

  /** One more step of the loop that `Collect` models. */
  lemma CollectSnoc<T, E>(rs: seq<Result<seq<T>, E>>, k: nat)
    requires k < |rs|
    ensures Collect(rs[..k + 1]) ==
              match Collect(rs[..k])
              case Err(e) => Err(e)
              case Ok(acc) => (match rs[k] case Err(e) => Err(e) case Ok(d) => Ok(acc + d))
  {
    assert rs[..k + 1][..k] == rs[..k];
  }

  /** Appending to a concatenation appends to its second part. */
  lemma AppendAssoc<T>(a: seq<T>, b: seq<T>, c: seq<T>)
    ensures (a + b) + c == a + (b + c)
  {
  }

  /** A successful step of the loop extends its accumulated value. */
  lemma CollectStepOk<T, E>(rs: seq<Result<seq<T>, E>>, k: nat, acc: seq<T>, d: seq<T>)
    requires k < |rs| && Collect(rs[..k]) == Ok(acc) && rs[k] == Ok(d)
    ensures Collect(rs[..k + 1]) == Ok(acc + d)
  {
    CollectSnoc(rs, k);
  }

  /** A failing step of the loop decides its outcome. */
  lemma CollectStepErr<T, E>(rs: seq<Result<seq<T>, E>>, k: nat, acc: seq<T>, e: E)
    requires k < |rs| && Collect(rs[..k]) == Ok(acc) && rs[k] == Err(e)
    ensures Collect(rs) == Err(e)
  {
    CollectSnoc(rs, k);
    CollectPrefixErr(rs, k + 1);
  }

  /** Once the loop has failed, the later steps do not change the outcome. */
  lemma {:induction false} CollectPrefixErr<T, E>(rs: seq<Result<seq<T>, E>>, k: nat)
    requires k <= |rs|
    requires Collect(rs[..k]).Err?
    ensures Collect(rs) == Collect(rs[..k])
  {
    if k < |rs| {
      assert rs[..|rs| - 1][..k] == rs[..k];
      CollectPrefixErr(rs[..|rs| - 1], k);
    } else {
      assert rs[..k] == rs;
    }
  }

  /** The loop succeeds exactly when every step succeeds, and then its
      result is the concatenation of the steps' values in order. */
  lemma {:induction false} CollectOk<T, E>(rs: seq<Result<seq<T>, E>>)
    ensures Collect(rs).Ok? <==> forall i :: 0 <= i < |rs| ==> rs[i].Ok?
    ensures Collect(rs).Ok? ==> Collect(rs).value == Flatten(Values(rs))
  {
    if rs != [] {
      var init := rs[..|rs| - 1];
      CollectOk(init);
      assert forall i :: 0 <= i < |init| ==> init[i] == rs[i];
      if Collect(rs).Ok? {
        assert Values(rs)[..|rs| - 1] == Values(init);
      }
    }
  }

  /** A failed loop reports the error of its first failing step. */
  lemma {:induction false} CollectErr<T, E>(rs: seq<Result<seq<T>, E>>)
    requires Collect(rs).Err?
    ensures exists j :: 0 <= j < |rs| && rs[j] == Err(Collect(rs).error) &&
                        forall i :: 0 <= i < j ==> rs[i].Ok?
  {
    var init := rs[..|rs| - 1];
    assert forall i :: 0 <= i < |init| ==> init[i] == rs[i];
    if Collect(init).Err? {
      CollectErr(init);
      var j :| 0 <= j < |init| && init[j] == Err(Collect(init).error) &&
               forall i :: 0 <= i < j ==> init[i].Ok?;
      assert rs[j] == Err(Collect(rs).error);
    } else {
      CollectOk(init);
      assert rs[|rs| - 1] == Err(Collect(rs).error);
    }
  }
}
