/** Small datatypes shared by the models. */
module Basics {

  datatype Option<+T> = None | Some(value: T)

  /** A call's answer, or the exception it ends with. */
  datatype Result<+T, +E> = Ok(value: T) | Err(error: E)

  function Max(x: int, y: int): int {
    if x < y then y else x
  }

  function Min(x: int, y: int): int {
    if x < y then x else y
  }

  /** A nonempty set of integers has a greatest element. */
  lemma GreatestExists(vs: set<int>) returns (p: int)
    requires vs != {}
    ensures p in vs && forall v :: v in vs ==> v <= p
  {
    assert (forall x :: x !in vs) ==> vs == {};
    p :| p in vs;
    var rest := vs - {p};
    if rest != {} {
      var q := GreatestExists(rest);
      p := if p < q then q else p;
    }
    forall v | v in vs ensures v <= p {
      assert v in rest || v !in rest;
    }
  }
}
