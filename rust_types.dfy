/** The two sum types of Rust's standard library that every parser in the
    disassembler returns: `Option` and `Result`. */
module RustTypes {

  datatype Option<+T> = None | Some(value: T)

  datatype Result<+T, +E> = Ok(value: T) | Err(error: E)

  /** The successful values of a sequence of results, in order; this is what a
      loop that pushes on `Ok` and skips on `Err` collects. */
  function Kept<T, E>(rs: seq<Result<T, E>>): (r: seq<T>)
    ensures |r| <= |rs|
  {
    if rs == [] then []
    else
      var rest := Kept(rs[..|rs| - 1]);
      match rs[|rs| - 1]
      case Ok(v) => rest + [v]
      case Err(_) => rest
  }

  /** One more result: its value is kept after the others exactly when it is
      a success. */
  lemma KeptSnoc<T, E>(rs: seq<Result<T, E>>, i: nat)
    requires i < |rs|
    ensures Kept(rs[..i + 1]) == Kept(rs[..i]) + if rs[i].Ok? then [rs[i].value] else []
  {
    assert rs[..i + 1][..i] == rs[..i];
  }

  /** When every result is a success, the kept values are all of them, in order. */
  lemma {:induction false} KeptAllOk<T, E>(rs: seq<Result<T, E>>)
    requires forall i :: 0 <= i < |rs| ==> rs[i].Ok?
    ensures |Kept(rs)| == |rs|
    ensures forall i :: 0 <= i < |rs| ==> Kept(rs)[i] == rs[i].value
  {
    if rs != [] {
      KeptAllOk(rs[..|rs| - 1]);
    }
  }

  /** The positions of the successes in `rs`, in increasing order. */
  function KeptPositions<T, E>(rs: seq<Result<T, E>>): (r: seq<nat>)
    ensures |r| == |Kept(rs)|
    ensures forall k :: 0 <= k < |r| ==> r[k] < |rs|
  {
    if rs == [] then []
    else
      var rest := KeptPositions(rs[..|rs| - 1]);
      if rs[|rs| - 1].Ok? then rest + [|rs| - 1] else rest
  }

  /** Every kept value is the value of the success at its position, and the
      positions increase: the kept values are the successes in their order. */
  lemma {:induction false} KeptIsOrderedSubsequence<T, E>(rs: seq<Result<T, E>>)
    ensures forall k :: 0 <= k < |Kept(rs)| ==> rs[KeptPositions(rs)[k]] == Ok(Kept(rs)[k])
    ensures forall k, l :: 0 <= k < l < |Kept(rs)| ==> KeptPositions(rs)[k] < KeptPositions(rs)[l]
  {
    if rs != [] {
      var init := rs[..|rs| - 1];
      KeptIsOrderedSubsequence(init);
      assert forall k :: 0 <= k < |init| ==> rs[k] == init[k];
    }
  }
}
