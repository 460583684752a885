/**
 Types shared by the optimizer and the vector arithmetic: the three-way
 ordering returned by a partial comparison, an optional value, the error
 kinds of the crate, the result type that carries them, and the constant
 vector.
 */
module Common {

  /** The outcome of a successful comparison; `Reverse` swaps Less and Greater. */
  datatype Ordering = Less | Equal | Greater {
    function Reverse(): Ordering {
      match this
      case Less => Greater
      case Equal => Equal
      case Greater => Less
    }
  }

  /** `None` stands for a comparison between values that have no order (NaN-like). */
  datatype Option<+T> = None | Some(value: T)

  /** A partial comparison on fitness values, as `PartialOrd::partial_cmp` provides. */
  type Comparator<-T> = (T, T) -> Option<Ordering>

  /** The error kinds every fallible operation of the crate reports. */
  datatype ProximalOptimizerErr =
    | ParameterLengthMismatch
    | StartUnorderable
    | SolutionNoBetter

  datatype Result<+R> = Ok(value: R) | Err(error: ProximalOptimizerErr)

  /** The constant vector of length n. */
  function Fill(n: nat, v: real): (r: seq<real>)
    ensures |r| == n && forall i :: 0 <= i < n ==> r[i] == v
  {
    seq(n, _ => v)
  }
}
