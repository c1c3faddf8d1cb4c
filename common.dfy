/** Small datatypes shared by every module of the model. */
module Common {

  /** JavaScript's `undefined` versus a present value. */
  datatype Option<+T> = None | Some(value: T) {
    function GetOr(default: T): T {
      match this
      case Some(v) => v
      case None => default
    }
  }

  /** The outcome of a call that may throw: a value or a thrown error. */
  datatype Attempt<+T> = Ok(value: T) | Threw(error: JsError)

  /**
   * A thrown JavaScript value as the callers in this model inspect it:
   * `e.name`, `e.code` and the text `${e}` gives ("" where absent).
   */
  datatype JsError = JsError(name: string, code: string, text: string)

  /** The first components of some pairs, in order: the keys of a list of entries. */
  function Firsts<A, B>(pairs: seq<(A, B)>): (r: seq<A>)
    ensures |r| == |pairs| && forall i :: 0 <= i < |r| ==> r[i] == pairs[i].0
  {
    seq(|pairs|, i requires 0 <= i < |pairs| => pairs[i].0)
  }
}
