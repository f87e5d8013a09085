/**
 * Outcomes shared by every component: either a value, or the exception that the
 * original program raises at that point.
 */
module Results {

  /** The exceptions the modelled code can raise, named after the source's own. */
  datatype Error =
    | AssertionError                       // a Python `assert` failed
    | ZeroDivisionError                    // a Python division by zero
    | KeyError(key: string)                // a missing dictionary key
    | IndexError                           // a list index out of range
    | ValueError                           // a bad `int(...)` literal, `max` of nothing, a failed unpacking
    | NotImplementedError                  // the report has no layout for this stage
    | UnsupportedOperation(message: string) // Java's UnsupportedOperationException
    | TypeError                            // an operation on a value of the wrong type
    | RangeError                           // JavaScript's `new Array(n)` with a negative length
    | YamlError                            // text the YAML reader does not accept

  datatype Option<+T> = None | Some(value: T)

  /** A value, or the error that stops the computation; usable with `:-`. */
  datatype Result<+T> = Ok(value: T) | Err(error: Error) {
    predicate IsFailure() { Err? }

    function PropagateFailure<U>(): Result<U>
      requires Err?
    {
      Err(error)
    }

    function Extract(): T
      requires Ok?
    {
      value
    }
  }

  /**
   * `f` applied to each element in turn, stopping at the first failure, as a Python
   * loop whose body can raise.
   */
  function MapResult<A, B>(xs: seq<A>, f: A -> Result<B>): (r: Result<seq<B>>)
    ensures r.Ok? <==> forall i :: 0 <= i < |xs| ==> f(xs[i]).Ok?
    ensures r.Ok? ==> |r.value| == |xs| && forall i :: 0 <= i < |xs| ==> r.value[i] == f(xs[i]).value
    ensures r.Err? ==> exists i :: (0 <= i < |xs| && f(xs[i]).Err? && r.error == f(xs[i]).error
      && forall j :: 0 <= j < i ==> f(xs[j]).Ok?)
  {
    if xs == [] then Ok([])
    else
      var head :- f(xs[0]);
      var tail := MapResult(xs[1..], f);
      if tail.Err? then
        var i :| 0 <= i < |xs[1..]| && f(xs[1..][i]).Err? && tail.error == f(xs[1..][i]).error
          && forall j :: 0 <= j < i ==> f(xs[1..][j]).Ok?;
        assert f(xs[i + 1]).Err? && forall j :: 0 <= j < i + 1 ==> f(xs[j]).Ok?;
        Err(tail.error)
      else
        assert forall i :: 1 <= i < |xs| ==> xs[i] == xs[1..][i - 1];
        Ok([head] + tail.value)
  }

  /** One element of a successful map: its result, read back. */
  lemma MapResultAt<A, B>(xs: seq<A>, f: A -> Result<B>, ys: seq<B>, i: nat)
    requires MapResult(xs, f) == Ok(ys) && i < |xs|
    ensures |ys| == |xs| && f(xs[i]) == Ok(ys[i])
  {
  }

  /** A map fails with the error of its first failing element. */
  lemma MapResultFirstError<A, B>(xs: seq<A>, f: A -> Result<B>, i: nat)
    requires i < |xs| && f(xs[i]).Err?
    requires forall j :: 0 <= j < i ==> f(xs[j]).Ok?
    ensures MapResult(xs, f) == Err(f(xs[i]).error)
  {
    var r := MapResult(xs, f);
    var k :| 0 <= k < |xs| && f(xs[k]).Err? && r.error == f(xs[k]).error
      && forall j :: 0 <= j < k ==> f(xs[j]).Ok?;
    assert k == i;
  }

  /** `f` applied to each element in turn; nothing as soon as one element gives nothing. */
  function MapOption<A, B>(xs: seq<A>, f: A -> Option<B>): (r: Option<seq<B>>)
    ensures r.Some? <==> forall i :: 0 <= i < |xs| ==> f(xs[i]).Some?
    ensures r.Some? ==> |r.value| == |xs| && forall i :: 0 <= i < |xs| ==> r.value[i] == f(xs[i]).value
  {
    if xs == [] then Some([])
    else match f(xs[0])
      case None => None
      case Some(head) =>
        match MapOption(xs[1..], f)
        case None =>
          assert forall i :: 1 <= i < |xs| ==> xs[i] == xs[1..][i - 1];
          None
        case Some(tail) =>
          assert forall i :: 1 <= i < |xs| ==> xs[i] == xs[1..][i - 1];
          Some([head] + tail)
  }
}
