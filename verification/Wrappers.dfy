// Shared result types.
module Wrappers {
  datatype Option<+T> = None | Some(value: T)

  datatype Result<+T, +E> = Ok(value: T) | Err(error: E)

  // What a loop over items that may fail returns, once it has found some and the rest is known.
  function After<T, E>(found: seq<T>, rest: Result<seq<T>, E>): (r: Result<seq<T>, E>)
    ensures found == [] ==> r == rest
  {
    match rest
    case Err(e) => Err(e)
    case Ok(more) => assert found == [] ==> found + more == more; Ok(found + more)
  }

  lemma {:induction false} AfterOneMore<T, E>(found: seq<T>, x: T, rest: Result<seq<T>, E>)
    ensures After(found + [x], rest) == After(found, After([x], rest))
  {
    if rest.Ok? { assert found + [x] + rest.value == found + ([x] + rest.value); }
  }
}
