/** Failure-compatible wrappers shared by the whole model.

    A Python exception raised by the modelled code becomes `Err(e)`, where `e`
    names the exception class; a normal return becomes `Ok(v)`. */
module Common {

  datatype Option<+T> = None | Some(value: T)

  /** The Python exception classes the modelled code can raise. */
  datatype PyError =
    | IndexError         // list index out of range, empty sequence
    | ValueError         // int()/float()/strptime() of a malformed text, max() of []
    | TypeError          // None used as a number or subscripted
    | ZeroDivisionError  // division by zero
    | NameError          // a local variable read before any assignment

  datatype Result<+T> = Ok(value: T) | Err(error: PyError) {
    predicate IsFailure() { Err? }

    function PropagateFailure<U>(): Result<U>
      requires Err?
    {
      Err(error)
    }

    function Extract(): T
      requires Ok?
    {
      value
    }
  }

  function Min(a: int, b: int): int { if a <= b then a else b }

  function Max(a: int, b: int): int { if a >= b then a else b }

  /** Python's `seq[lo:hi]` for non-negative bounds: both ends are clamped. */
  function Slice<T>(s: seq<T>, lo: nat, hi: nat): (r: seq<T>)
    ensures |r| == Max(0, Min(hi, |s|) - Min(lo, |s|))
    ensures lo <= hi <= |s| ==> r == s[lo..hi]
  {
    var h := Min(hi, |s|);
    var l := Min(lo, h);
    s[l..h]
  }
}
