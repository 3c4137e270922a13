/**
 Runtime values and what the engine knows about their types (registry/type.go).
 A host value is opaque: the engine sees its type identifier and nothing else.
 */
module Values {
  import opened Wrappers

  type TypeID = string

  const INTEGER_ID: TypeID := "Integer"
  const FLOAT_ID: TypeID := "Float"
  const STRING_ID: TypeID := "String"
  const BOOL_ID: TypeID := "Bool"
  const NO_TYPE_ID: TypeID := "NoType"
  /** Reserved for error recovery: no registered rule mentions it. */
  const ERROR_TYPE_ID: TypeID := "Error"

  const CORE_IDS: set<TypeID> := {INTEGER_ID, FLOAT_ID, STRING_ID, BOOL_ID}

  const TWO_TO_THE_63 := 0x8000_0000_0000_0000
  const TWO_TO_THE_64 := 0x1_0000_0000_0000_0000

  type Int64 = n: int | -TWO_TO_THE_63 <= n < TWO_TO_THE_63

  /** Two's complement wrap-around of a 64-bit integer result. */
  function Wrap64(n: int): Int64 {
    var low := n % TWO_TO_THE_64;
    if low < TWO_TO_THE_63 then low else low - TWO_TO_THE_64
  }

  /** Integer division that truncates toward zero, and its remainder. */
  function TruncDiv(a: int, b: int): int
    requires b != 0
  {
    if a >= 0 then a / b else -((-a) / b)
  }

  function TruncMod(a: int, b: int): int
    requires b != 0
  {
    a - TruncDiv(a, b) * b
  }

  /** A floating-point number, known only through the operations of FloatOps. */
  datatype F64 = F64(bits: nat)

  datatype Value =
    | IntV(n: Int64)
    | FloatV(f: F64)
    | StrV(s: string)
    | BoolV(b: bool)
    | ModuleV(t: TypeID)
    | RecordV(t: TypeID, fields: map<string, Value>)
    | HostV(t: TypeID, id: nat)

  function TypeOf(v: Value): TypeID {
    match v
    case IntV(_) => INTEGER_ID
    case FloatV(_) => FLOAT_ID
    case StrV(_) => STRING_ID
    case BoolV(_) => BOOL_ID
    case ModuleV(t) => t
    case RecordV(t, _) => t
    case HostV(t, _) => t
  }

  datatype Sink = Sink(t: TypeID, id: nat)
}
