/** Wrappers shared by the model: optional values, the exceptions that end a
    run of the reconstructor, and results that carry one of them. */
module Results {

  datatype Option<T> = None | Some(value: T)

  /** Every exception the source lets escape. Each one ends the whole run. */
  datatype Failure =
    | KeyMissing(addr: int)          // m[addr] for an address the dump did not define
    | NotHex(addr: int)              // int(m[addr], 16) on text that is not hexadecimal
    | BadLineAddress(field: string)  // int(line[:5], 16) on a dump line
    | UnknownQuantity(code: nat)     // channel selector absent from the label table
    | NoDigitTable(code: nat)        // a digit table has no entry for this code

  datatype Result<T> = Ok(value: T) | Err(error: Failure) {

    predicate IsFailure()
    {
      Err?
    }

    function PropagateFailure<U>(): Result<U>
      requires Err?
    {
      Err(error)
    }

    function Extract(): T
      requires Ok?
    {
      value
    }
  }

  /** The result of a step that only changes state. */
  datatype Outcome = Pass | Fail(error: Failure)

  /** Puts values already produced in front of a result still to come;
      a failure still to come swallows them. */
  function Prepend<T>(xs: seq<T>, r: Result<seq<T>>): Result<seq<T>>
  {
    match r
    case Ok(ys) => Ok(xs + ys)
    case Err(e) => Err(e)
  }

  lemma PrependNil<T>(r: Result<seq<T>>)
    ensures Prepend([], r) == r
  {
    if r.Ok? {
      assert [] + r.value == r.value;
    }
  }

  lemma PrependTwice<T>(xs: seq<T>, ys: seq<T>, r: Result<seq<T>>)
    ensures Prepend(xs, Prepend(ys, r)) == Prepend(xs + ys, r)
  {
    if r.Ok? {
      assert xs + (ys + r.value) == (xs + ys) + r.value;
    }
  }

  lemma PrependAll<T>(xs: seq<T>)
    ensures Prepend(xs, Ok([])) == Ok(xs)
  {
    assert xs + [] == xs;
  }
}
