/**
 * The runtime values of the language. The source boxes them as `object`; here they are a closed
 * union of 32-bit integers and booleans, with the runtime type tag `Value.GetType()` would give.
 */
module Values {
  import opened Int32Arith

  datatype TypeTag = IntType | BoolType

  datatype Value = Int(i: int32) | Bool(b: bool)

  /** `value.GetType()`. */
  function TypeOf(v: Value): TypeTag {
    match v
    case Int(_) => IntType
    case Bool(_) => BoolType
  }

  /** How `{type}` renders a `System.Type` in an interpolated message. */
  function TypeName(t: TypeTag): string {
    match t
    case IntType => "System.Int32"
    case BoolType => "System.Boolean"
  }
}
