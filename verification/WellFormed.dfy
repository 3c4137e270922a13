/**
 Well-formed registries, hosts that honour their declarations, and the proof that together they make every
 rule return a value of its declared type.
 */
module WellFormed {
  import opened Wrappers
  import opened Tokens
  import opened Values
  import opened Registries
  import opened Rules

  const NUMERIC := {INTEGER_ID, FLOAT_ID}

  /** A built-in function is registered only at the operand and result types it computes. */
  predicate BinaryFits(key: BinaryKey, rule: BinaryRule) {
    match rule.fn
    case NumericBinary(op) =>
      && key.op == op && op in ARITHMETIC && key.left in NUMERIC && key.right in NUMERIC
      && rule.evalType == (if op == SLASH || FLOAT_ID in {key.left, key.right} then FLOAT_ID else INTEGER_ID)
    case NumericCompare(op) =>
      key.op == op && op in COMPARISON && key.left in NUMERIC && key.right in NUMERIC && rule.evalType == BOOL_ID
    case ScalarEq => rule.evalType == BOOL_ID
    case ScalarNeq => rule.evalType == BOOL_ID
    case StringConcat => key.left == key.right == STRING_ID == rule.evalType
    case HostBinary(_) => true
  }

  predicate UnaryFits(key: UnaryKey, rule: UnaryRule) {
    match rule.fn
    case NumericNegate => key.right in NUMERIC && rule.evalType == key.right
    case BoolNot => key.right == BOOL_ID == rule.evalType
    case HostUnary(_) => true
  }

  predicate MemberFits(reg: Registry, key: MemberKey, rule: MemberRule) {
    rule.fn.FieldOf? ==> Field(rule.fn.name, rule.evalType) in reg.FieldsOf(key.owner)
  }

  predicate CoerceFits(key: CoerceKey, rule: CoerceRule) {
    rule.evalType == key.to && (rule.fn.IntToFloat? ==> key.from == INTEGER_ID && key.to == FLOAT_ID)
  }

  predicate DistinctParams(params: seq<Param>) {
    forall i, j | 0 <= i < j < |params| :: params[i].name != params[j].name
  }

  predicate DistinctFields(fields: seq<Field>) {
    forall i, j | 0 <= i < j < |fields| :: fields[i].name != fields[j].name
  }

  predicate ErrorFreeRules(reg: Registry) {
    && (forall k | k in reg.binary :: ERROR_TYPE_ID !in {k.left, k.right, reg.binary[k].evalType})
    && (forall k | k in reg.unary :: ERROR_TYPE_ID !in {k.right, reg.unary[k].evalType})
    && (forall k | k in reg.member :: ERROR_TYPE_ID !in {k.owner, reg.member[k].evalType})
    && (forall k | k in reg.coerces :: ERROR_TYPE_ID !in {k.from, k.to, reg.coerces[k].evalType})
    && (forall k | k in reg.call :: ERROR_TYPE_ID !in {k.owner, reg.call[k].evalType})
    && (forall k, q | k in reg.call && q in reg.call[k].params :: q.typ != ERROR_TYPE_ID)
  }

  predicate ErrorFreeTypes(reg: Registry) {
    ERROR_TYPE_ID !in reg.types && forall t, f | t in reg.types && f in reg.types[t].fields :: f.typ != ERROR_TYPE_ID
  }

  /** The error type is neither a key nor a result of any rule, nor a type, nor a field or parameter type. */
  predicate ErrorFree(reg: Registry) {
    ErrorFreeRules(reg) && ErrorFreeTypes(reg)
  }

  /** What registration itself maintains, whatever the host registers. */
  predicate RegistryInv(reg: Registry) {
    ErrorFree(reg) && NamesInv(reg)
  }

  /**
   Declaration words, types and modules: disjoint where they must be, and each module exactly one module-shaped type.
   */
  predicate NamesInv(reg: Registry) {
    && reg.kinds.Keys !! reg.types.Keys
    && (forall t | t in reg.types :: t in reg.modules <==> reg.types[t].shape == ModuleShape)
    && reg.modules <= reg.types.Keys
    && (forall w | w in reg.kinds ::
          && reg.kinds[w].word == w && IsIdent(w) && w !in KEYWORDS && w !in RESERVED_IDENTS
          && forall t | t in reg.kinds[w].allowed :: t in reg.types)
  }

  predicate Dotless(s: string) {
    '.' !in s
  }

  /** What the host owes on top: consistent signatures, and type names a script could spell. */
  predicate HostDuties(reg: Registry) {
    && (forall k | k in reg.binary :: BinaryFits(k, reg.binary[k]))
    && (forall k | k in reg.unary :: UnaryFits(k, reg.unary[k]))
    && (forall k | k in reg.member :: MemberFits(reg, k, reg.member[k]))
    && (forall k | k in reg.coerces :: CoerceFits(k, reg.coerces[k]))
    && (forall k | k in reg.call :: DistinctParams(reg.call[k].params) && reg.call[k].fn.HostCall?)
    && (forall t | t in reg.types :: DistinctFields(reg.types[t].fields))
    && (forall t | t in CORE_IDS :: t !in reg.modules && reg.FieldsOf(t) == [])
    && (forall t | t in reg.modules :: reg.FieldsOf(t) == [])
  }

  predicate WfRegistry(reg: Registry) {
    RegistryInv(reg) && HostDuties(reg)
  }

  /** No registered type name can be mistaken for a qualified slot name. */
  predicate DotlessTypes(reg: Registry) {
    forall t | t in reg.types :: Dotless(t)
  }

  // ---------- Rules that keep their word ----------

  /** The application neither reaches an engine panic nor returns anything but a canonical value of type t. */
  predicate Keeps(reg: Registry, a: Applied, t: TypeID) {
    && a.out != EnginePanic
    && (a.out.Trap? ==> a.out.why.RuleFault?)
    && (a.out.Done? ==> HasType(reg, a.out.v, t))
    && ProperCalls(reg, a.nested)
  }

  predicate ArgsFit(reg: Registry, params: seq<Param>, args: map<string, Value>) {
    forall p | p in params :: p.name in args && HasType(reg, args[p.name], p.typ)
  }

  ghost predicate BinaryKeeps(h: Host, reg: Registry, key: BinaryKey, rule: BinaryRule) {
    forall clock: nat, l, r | HasType(reg, l, key.left) && HasType(reg, r, key.right) ::
      Keeps(reg, ApplyBinary(h, rule.fn, clock, l, r), rule.evalType)
  }

  ghost predicate UnaryKeeps(h: Host, reg: Registry, key: UnaryKey, rule: UnaryRule) {
    forall clock: nat, v | HasType(reg, v, key.right) :: Keeps(reg, ApplyUnary(h, rule.fn, clock, v), rule.evalType)
  }

  ghost predicate MemberKeeps(h: Host, reg: Registry, key: MemberKey, rule: MemberRule) {
    forall clock: nat, v | HasType(reg, v, key.owner) :: Keeps(reg, ApplyMember(h, rule.fn, clock, v), rule.evalType)
  }

  ghost predicate CallKeeps(h: Host, reg: Registry, key: MemberKey, rule: CallRule) {
    forall clock: nat, v, args | HasType(reg, v, key.owner) && ArgsFit(reg, rule.params, args) ::
      Keeps(reg, ApplyCall(h, rule.fn, clock, v, args), rule.evalType)
  }

  ghost predicate CoerceKeeps(h: Host, reg: Registry, key: CoerceKey, rule: CoerceRule) {
    forall v | HasType(reg, v, key.from) :: Keeps(reg, Applied(ApplyCoerce(h, rule.fn, v), []), rule.evalType)
  }

  /** The host's own functions keep the types they were registered with; nothing is assumed of built-in ones. */
  ghost predicate HostHonours(h: Host, reg: Registry) {
    && (forall k | k in reg.binary && reg.binary[k].fn.HostBinary? :: BinaryKeeps(h, reg, k, reg.binary[k]))
    && (forall k | k in reg.unary && reg.unary[k].fn.HostUnary? :: UnaryKeeps(h, reg, k, reg.unary[k]))
    && (forall k | k in reg.member && reg.member[k].fn.HostMember? :: MemberKeeps(h, reg, k, reg.member[k]))
    && (forall k | k in reg.call && reg.call[k].fn.HostCall? :: CallKeeps(h, reg, k, reg.call[k]))
    && (forall k | k in reg.coerces && reg.coerces[k].fn.HostCoerce? :: CoerceKeeps(h, reg, k, reg.coerces[k]))
    && (forall s, clock: nat, v :: ProperCalls(reg, h.emit(s, clock, v).nested))
  }

  ghost predicate RulesKeep(h: Host, reg: Registry) {
    && (forall k | k in reg.binary :: BinaryKeeps(h, reg, k, reg.binary[k]))
    && (forall k | k in reg.unary :: UnaryKeeps(h, reg, k, reg.unary[k]))
    && (forall k | k in reg.member :: MemberKeeps(h, reg, k, reg.member[k]))
    && (forall k | k in reg.call :: CallKeeps(h, reg, k, reg.call[k]))
    && (forall k | k in reg.coerces :: CoerceKeeps(h, reg, k, reg.coerces[k]))
    && (forall s, clock: nat, v :: ProperCalls(reg, h.emit(s, clock, v).nested))
  }

  /** A canonical value at a core identifier is the core value: no host or record value can pose as one. */
  lemma CoreValues(reg: Registry, v: Value)
    requires Canonical(reg, v)
    ensures TypeOf(v) == INTEGER_ID <==> v.IntV?
    ensures TypeOf(v) == FLOAT_ID <==> v.FloatV?
    ensures TypeOf(v) == STRING_ID <==> v.StrV?
    ensures TypeOf(v) == BOOL_ID <==> v.BoolV?
  {
    assert INTEGER_ID in CORE_IDS && FLOAT_ID in CORE_IDS && STRING_ID in CORE_IDS && BOOL_ID in CORE_IDS;
  }

  predicate IsNumber(v: Value) {
    v.IntV? || v.FloatV?
  }

  /** Arithmetic on numbers gives a number, an Integer exactly when both operands are and the operator is not `/`. */
  lemma ArithmeticTyped(h: Host, op: TokenType, l: Value, r: Value)
    requires op in ARITHMETIC && IsNumber(l) && IsNumber(r)
    ensures var out := NumericArith(h, op, l, r);
      || out == Trap(RuleFault(DivisionByZero))
      || (out.Done? && if op != SLASH && l.IntV? && r.IntV? then out.v.IntV? else out.v.FloatV?)
  {
    if l.IntV? && r.IntV? {
      assert op == PLUS || op == MINUS || op == ASTERISK || op == SLASH || op == PERCENT;
    }
  }

  lemma ComparisonTyped(h: Host, op: TokenType, l: Value, r: Value)
    requires op in COMPARISON && IsNumber(l) && IsNumber(r)
    ensures NumericComparison(h, op, l, r).Done? && NumericComparison(h, op, l, r).v.BoolV?
  {
  }

  lemma BuiltinBinaryKeeps(h: Host, reg: Registry, key: BinaryKey, rule: BinaryRule, clock: nat, l: Value, r: Value)
    requires BinaryFits(key, rule) && !rule.fn.HostBinary?
    requires HasType(reg, l, key.left) && HasType(reg, r, key.right)
    ensures Keeps(reg, ApplyBinary(h, rule.fn, clock, l, r), rule.evalType)
  {
    CoreValues(reg, l);
    CoreValues(reg, r);
    match rule.fn
    case NumericBinary(op) => ArithmeticTyped(h, op, l, r);
    case NumericCompare(op) => ComparisonTyped(h, op, l, r);
    case _ =>
  }

  lemma BinaryRulesKeep(h: Host, reg: Registry, key: BinaryKey)
    requires WfRegistry(reg) && HostHonours(h, reg) && key in reg.binary
    ensures BinaryKeeps(h, reg, key, reg.binary[key])
  {
    var rule := reg.binary[key];
    assert BinaryFits(key, rule);
    if !rule.fn.HostBinary? {
      forall clock: nat, l, r | HasType(reg, l, key.left) && HasType(reg, r, key.right)
        ensures Keeps(reg, ApplyBinary(h, rule.fn, clock, l, r), rule.evalType)
      {
        BuiltinBinaryKeeps(h, reg, key, rule, clock, l, r);
      }
    }
  }

  lemma BuiltinUnaryKeeps(h: Host, reg: Registry, key: UnaryKey, rule: UnaryRule, clock: nat, v: Value)
    requires UnaryFits(key, rule) && !rule.fn.HostUnary? && HasType(reg, v, key.right)
    ensures Keeps(reg, ApplyUnary(h, rule.fn, clock, v), rule.evalType)
  {
    CoreValues(reg, v);
  }

  lemma UnaryRulesKeep(h: Host, reg: Registry, key: UnaryKey)
    requires WfRegistry(reg) && HostHonours(h, reg) && key in reg.unary
    ensures UnaryKeeps(h, reg, key, reg.unary[key])
  {
    var rule := reg.unary[key];
    assert UnaryFits(key, rule);
    if !rule.fn.HostUnary? {
      forall clock: nat, v | HasType(reg, v, key.right)
        ensures Keeps(reg, ApplyUnary(h, rule.fn, clock, v), rule.evalType)
      {
        BuiltinUnaryKeeps(h, reg, key, rule, clock, v);
      }
    }
  }

  /** Structural types are inhabited by records only. */
  lemma StructuralIsRecord(reg: Registry, v: Value)
    requires WfRegistry(reg) && Canonical(reg, v) && reg.FieldsOf(TypeOf(v)) != []
    ensures v.RecordV?
  {
    assert TypeOf(v) !in CORE_IDS;
  }

  lemma MemberRulesKeep(h: Host, reg: Registry, key: MemberKey)
    requires WfRegistry(reg) && HostHonours(h, reg) && key in reg.member
    ensures MemberKeeps(h, reg, key, reg.member[key])
  {
    var rule := reg.member[key];
    assert MemberFits(reg, key, rule);
    if rule.fn.FieldOf? {
      forall clock: nat, v | HasType(reg, v, key.owner)
        ensures Keeps(reg, ApplyMember(h, rule.fn, clock, v), rule.evalType)
      {
        StructuralIsRecord(reg, v);
      }
    }
  }

  lemma BuiltinCoerceKeeps(h: Host, reg: Registry, key: CoerceKey, rule: CoerceRule, v: Value)
    requires CoerceFits(key, rule) && rule.fn.IntToFloat? && HasType(reg, v, key.from)
    ensures Keeps(reg, Applied(ApplyCoerce(h, rule.fn, v), []), rule.evalType)
  {
    CoreValues(reg, v);
  }

  lemma CoerceRulesKeep(h: Host, reg: Registry, key: CoerceKey)
    requires WfRegistry(reg) && HostHonours(h, reg) && key in reg.coerces
    ensures CoerceKeeps(h, reg, key, reg.coerces[key])
  {
    var rule := reg.coerces[key];
    assert CoerceFits(key, rule);
    if rule.fn.IntToFloat? {
      forall v | HasType(reg, v, key.from)
        ensures Keeps(reg, Applied(ApplyCoerce(h, rule.fn, v), []), rule.evalType)
      {
        BuiltinCoerceKeeps(h, reg, key, rule, v);
      }
    }
  }

  /** Every rule of a well-formed registry keeps its declared type, the built-in ones by their own definition. */
  lemma AllRulesKeep(h: Host, reg: Registry)
    requires WfRegistry(reg) && HostHonours(h, reg)
    ensures RulesKeep(h, reg)
  {
    forall k | k in reg.binary ensures BinaryKeeps(h, reg, k, reg.binary[k]) { BinaryRulesKeep(h, reg, k); }
    forall k | k in reg.unary ensures UnaryKeeps(h, reg, k, reg.unary[k]) { UnaryRulesKeep(h, reg, k); }
    forall k | k in reg.member ensures MemberKeeps(h, reg, k, reg.member[k]) { MemberRulesKeep(h, reg, k); }
    forall k | k in reg.coerces ensures CoerceKeeps(h, reg, k, reg.coerces[k]) { CoerceRulesKeep(h, reg, k); }
  }
}
