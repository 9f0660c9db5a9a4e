/** Failure values of the modelled code: each constructor stands for the Python
    exception that the corresponding statement raises. */
module Errors {

  datatype Error =
    | ValueError(message: string)  // raised explicitly, e.g. ValueError("Invalid URL format")
    | TimeDataError                // ValueError raised by datetime.strptime or the datetime constructor
    | DateOverflow                 // OverflowError: the shifted datetime is past year 9999
    | NotAString                   // TypeError: the timestamp cell is not a str
    | MissingKey(key: string)      // KeyError from subscripting a dict with an absent key
    | NotSubscriptable             // TypeError from subscripting a value that is not a dict with a str key
    | NotIterable                  // TypeError from iterating a number, a bool or None
    | NoGetMethod                  // AttributeError: `.get` called on a value that is not a dict

  /** Either a value or the error that aborted the computation; usable with `:-`. */
  datatype Result<+T> = Ok(value: T) | Err(error: Error) {
    predicate IsFailure() { Err? }
    function PropagateFailure<U>(): Result<U>
      requires Err?
    {
      Err(error)
    }
    function Extract(): T
      requires Ok?
    {
      value
    }
  }

  /** The position of the first failure in a sequence of results, or its
      length when there is none. */
  function FirstErr<T>(rs: seq<Result<T>>): (k: nat)
    ensures k <= |rs|
    ensures forall i :: 0 <= i < k ==> rs[i].Ok?
    ensures k < |rs| ==> rs[k].Err?
  {
    if rs == [] then 0
    else if rs[0].Err? then 0
    else 1 + FirstErr(rs[1..])
  }

  /** Results computed one after the other, stopping at the first failure:
      all the values when every step succeeds, else the first error. */
  function Collect<T>(rs: seq<Result<T>>): (r: Result<seq<T>>)
    ensures r.Ok? <==> forall i :: 0 <= i < |rs| ==> rs[i].Ok?
    ensures r.Ok? ==> |r.value| == |rs| && forall i :: 0 <= i < |rs| ==> r.value[i] == rs[i].value
    ensures r.Err? ==> FirstErr(rs) < |rs| && r.error == rs[FirstErr(rs)].error
  {
    if rs == [] then Ok([])
    else
      var first :- rs[0];
      var rest :- Collect(rs[1..]);
      Ok([first] + rest)
  }

  /** The first failure of a sequence is the failure that no earlier one precedes. */
  lemma FirstErrAt<T>(rs: seq<Result<T>>, k: nat)
    requires k < |rs| && rs[k].Err? && forall i :: 0 <= i < k ==> rs[i].Ok?
    ensures FirstErr(rs) == k && Collect(rs) == Err(rs[k].error)
  {
  }
}
