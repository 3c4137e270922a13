/**
 What rules compute. Built-in rules are defined here (registry/std_math.go, registry/cast.go);
 host rules are arbitrary functions of the engine's call counter and the operands, so a host may keep
 any state it likes, and may answer with a list of calls it makes back into the engine.
 */
module Rules {
  import opened Wrappers
  import opened Tokens
  import opened Values
  import opened Registries

  /** A call of the public API: made by the host between activations, or from inside a rule or sink. */
  datatype ApiCall =
    | CallInit
    | CallRun
    | CallBindInput(name: string, value: Value)
    | CallBindOutput(name: string, sink: Sink)
    | CallSlotGet(kind: string, name: string)
    | CallSlotSet(kind: string, name: string, value: Value)

  datatype ErrorKind = DivisionByZero | InvalidArgument | OutOfRange | UninitializedSlot | UnknownKind

  datatype HostOut = Returned(v: Value) | Failed(kind: ErrorKind) | Panicked

  datatype Reply = Reply(out: HostOut, nested: seq<ApiCall>)

  /** Floating-point arithmetic, left uninterpreted. */
  datatype FloatOps = FloatOps(
    ofInt: Int64 -> F64,
    arith: (TokenType, F64, F64) -> F64,
    isZero: F64 -> bool,
    compare: (TokenType, F64, F64) -> bool,
    negate: F64 -> F64)

  /**
   Everything the engine calls but does not define. The first nat names a rule, the second counts host calls so far.
   */
  datatype Host = Host(
    binary: (nat, nat, Value, Value) -> Reply,
    unary: (nat, nat, Value) -> Reply,
    member: (nat, nat, Value) -> Reply,
    call: (nat, nat, Value, map<string, Value>) -> Reply,
    coerce: (nat, Value) -> Option<Value>,
    emit: (Sink, nat, Value) -> Reply,
    float: FloatOps)

  datatype Fault = RuleFault(kind: ErrorKind) | EmptySlot

  /**
   How an evaluation ends. EnginePanic stands for every panic site of the evaluator and of the built-in
   rules: the states the resolver is meant to rule out.
   */
  datatype Outcome<+T> = Done(v: T) | Trap(why: Fault) | HostPanic | EnginePanic

  datatype Applied = Applied(out: Outcome<Value>, nested: seq<ApiCall>)

  function FromReply(r: Reply): Applied {
    Applied(match r.out case Returned(v) => Done(v) case Failed(k) => Trap(RuleFault(k))
      case Panicked => HostPanic, r.nested)
  }

  const ARITHMETIC := {PLUS, MINUS, ASTERISK, SLASH, PERCENT}
  const COMPARISON := {EQ, NEQ, LT, GT, LTEQ, GTEQ}

  function IntArith(h: Host, op: TokenType, a: Int64, b: Int64): Outcome<Value> {
    match op
    case PLUS => Done(IntV(Wrap64(a + b)))
    case MINUS => Done(IntV(Wrap64(a - b)))
    case ASTERISK => Done(IntV(Wrap64(a * b)))
    case SLASH => if b == 0 then Trap(RuleFault(DivisionByZero))
      else Done(FloatV(h.float.arith(SLASH, h.float.ofInt(a), h.float.ofInt(b))))
    case PERCENT => if b == 0 then Trap(RuleFault(DivisionByZero)) else Done(IntV(Wrap64(TruncMod(a, b))))
    case _ => FloatArith(h, op, h.float.ofInt(a), h.float.ofInt(b))
  }

  function FloatArith(h: Host, op: TokenType, a: F64, b: F64): Outcome<Value> {
    if op !in ARITHMETIC then EnginePanic
    else if op in {SLASH, PERCENT} && h.float.isZero(b) then Trap(RuleFault(DivisionByZero))
    else Done(FloatV(h.float.arith(op, a, b)))
  }

  function AsFloat(h: Host, v: Value): Option<F64> {
    match v
    case IntV(n) => Some(h.float.ofInt(n))
    case FloatV(f) => Some(f)
    case _ => None
  }

  function NumericArith(h: Host, op: TokenType, l: Value, r: Value): Outcome<Value> {
    if l.IntV? && r.IntV? then IntArith(h, op, l.n, r.n)
    else match (AsFloat(h, l), AsFloat(h, r))
      case (Some(a), Some(b)) => FloatArith(h, op, a, b)
      case _ => EnginePanic
  }

  function NumericComparison(h: Host, op: TokenType, l: Value, r: Value): Outcome<Value> {
    if op !in COMPARISON then EnginePanic
    else if l.IntV? && r.IntV? then
      Done(BoolV(match op
        case EQ => l.n == r.n case NEQ => l.n != r.n
        case LT => l.n < r.n case GT => l.n > r.n
        case LTEQ => l.n <= r.n case _ => l.n >= r.n))
    else match (AsFloat(h, l), AsFloat(h, r))
      case (Some(a), Some(b)) => Done(BoolV(h.float.compare(op, a, b)))
      case _ => EnginePanic
  }

  function ApplyBinary(h: Host, fn: BinaryFn, clock: nat, l: Value, r: Value): Applied {
    match fn
    case NumericBinary(op) => Applied(NumericArith(h, op, l, r), [])
    case NumericCompare(op) => Applied(NumericComparison(h, op, l, r), [])
    case ScalarEq => Applied(Done(BoolV(l == r)), [])
    case ScalarNeq => Applied(Done(BoolV(l != r)), [])
    case StringConcat => Applied(if l.StrV? && r.StrV? then Done(StrV(l.s + r.s)) else EnginePanic, [])
    case HostBinary(id) => FromReply(h.binary(id, clock, l, r))
  }

  function ApplyUnary(h: Host, fn: UnaryFn, clock: nat, v: Value): Applied {
    match fn
    case NumericNegate =>
      Applied(if v.IntV? then Done(IntV(Wrap64(0 - v.n))) else if v.FloatV? then Done(FloatV(h.float.negate(v.f)))
        else EnginePanic, [])
    case BoolNot => Applied(if v.BoolV? then Done(BoolV(!v.b)) else EnginePanic, [])
    case HostUnary(id) => FromReply(h.unary(id, clock, v))
  }

  /**
   A record that lacks the field yields a nil value in the source, whose first use panics; here the access itself does.
   */
  function ApplyMember(h: Host, fn: MemberFn, clock: nat, v: Value): Applied {
    match fn
    case FieldOf(name) => Applied(if v.RecordV? && name in v.fields then Done(v.fields[name]) else EnginePanic, [])
    case HostMember(id) => FromReply(h.member(id, clock, v))
  }

  function ApplyCall(h: Host, fn: CallFn, clock: nat, v: Value, args: map<string, Value>): Applied {
    match fn
    case NoCall => Applied(EnginePanic, [])
    case HostCall(id) => FromReply(h.call(id, clock, v, args))
  }

  function ApplyCoerce(h: Host, fn: CoerceFn, v: Value): Outcome<Value> {
    match fn
    case IntToFloat => if v.IntV? then Done(FloatV(h.float.ofInt(v.n))) else EnginePanic
    case HostCoerce(id) => match h.coerce(id, v) case Some(u) => Done(u) case None => HostPanic
  }

  // ---------- Well-typed values ----------

  /**
   A value whose Go representation is the one its type identifier promises: core identifiers belong to
   core values only, and a value of a structural type is a record carrying every field at its type.
   */
  predicate Canonical(reg: Registry, v: Value)
    decreases v
  {
    match v
    case RecordV(t, fields) =>
      && t !in CORE_IDS
      && forall f | f in reg.FieldsOf(t) ::
        f.name in fields && TypeOf(fields[f.name]) == f.typ && Canonical(reg, fields[f.name])
    case HostV(t, _) => t !in CORE_IDS && reg.FieldsOf(t) == []
    case ModuleV(t) => t !in CORE_IDS && reg.FieldsOf(t) == []
    case _ => true
  }

  predicate HasType(reg: Registry, v: Value, t: TypeID) {
    TypeOf(v) == t && Canonical(reg, v)
  }

  /** The host keeps to canonical values in every call it makes. */
  predicate ProperCall(reg: Registry, c: ApiCall) {
    match c
    case CallBindInput(_, v) => Canonical(reg, v)
    case CallSlotSet(_, _, v) => Canonical(reg, v)
    case _ => true
  }

  predicate ProperCalls(reg: Registry, cs: seq<ApiCall>) {
    forall c | c in cs :: ProperCall(reg, c)
  }
}
