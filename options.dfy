/** The C# `null` of reference-typed fields (token text, token value, operator lookups). */
module Options {

  datatype Option<+T> = None | Some(value: T) {

    /** `x ?? d` in C#. */
    function GetOr(default: T): T {
      match this
      case Some(v) => v
      case None => default
    }
  }
}
