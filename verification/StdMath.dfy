/**
 The registry every builder starts from (registry/std_math.go, registry/registry.go:140-166): nested loops over
 operator and type lists, proved to register exactly one table of operators, and to give a well-formed registry.
 */
module StdMath {
  import opened Wrappers
  import opened Tokens
  import opened Values
  import opened Registries
  import opened LiveRegistries
  import opened Rules
  import opened WellFormed

  const ARITHMETIC_OPERATORS := [PLUS, MINUS, ASTERISK, SLASH, PERCENT]
  const COMPARISON_OPERATORS := [EQ, NEQ, LT, GT, LTEQ, GTEQ]
  const SCALARS := [STRING_ID, BOOL_ID]

  datatype Operands = Operands(left: TypeID, right: TypeID, result: TypeID)

  const NUMERIC_PAIRS := [
    Operands(INTEGER_ID, INTEGER_ID, INTEGER_ID),
    Operands(INTEGER_ID, FLOAT_ID, FLOAT_ID),
    Operands(FLOAT_ID, INTEGER_ID, FLOAT_ID),
    Operands(FLOAT_ID, FLOAT_ID, FLOAT_ID)]

  // ---------- The tables ----------

  /** The binary operators of the language. */
  function StdBinary(k: BinaryKey): Option<BinaryRule> {
    if k.left in NUMERIC && k.right in NUMERIC then
      if k.op in ARITHMETIC then
        Some(BinaryRule(NumericBinary(k.op), if k.op == SLASH || FLOAT_ID in {k.left, k.right} then FLOAT_ID
          else INTEGER_ID))
      else if k.op in COMPARISON then Some(BinaryRule(NumericCompare(k.op), BOOL_ID))
      else None
    else if k.left != k.right || k.left !in {STRING_ID, BOOL_ID} then None
    else if k.op == EQ then Some(BinaryRule(ScalarEq, BOOL_ID))
    else if k.op == NEQ then Some(BinaryRule(ScalarNeq, BOOL_ID))
    else if k.op == PLUS && k.left == STRING_ID then Some(BinaryRule(StringConcat, STRING_ID))
    else None
  }

  /** The unary operators of the language. */
  function StdUnary(k: UnaryKey): Option<UnaryRule> {
    if k.op == MINUS && k.right in NUMERIC then Some(UnaryRule(NumericNegate, k.right))
    else if k == UnaryKey(BANG, BOOL_ID) then Some(UnaryRule(BoolNot, BOOL_ID))
    else None
  }

  const INT_TO_FLOAT := CoerceKey(INTEGER_ID, FLOAT_ID)

  /** after is before with rules of the table added, none in place of one that was there. */
  ghost predicate Extended(before: Registry, after: Registry) {
    && after == before.(binary := after.binary)
    && (before.isSealed ==> after == before)
    && KeptIn(before.binary, after.binary)
    && (forall k | k in after.binary && k !in before.binary :: StdBinary(k) == Some(after.binary[k]))
  }

  ghost predicate ExtendedUnary(before: Registry, after: Registry) {
    && after == before.(unary := after.unary)
    && (before.isSealed ==> after == before)
    && KeptIn(before.unary, after.unary)
    && (forall k | k in after.unary && k !in before.unary :: StdUnary(k) == Some(after.unary[k]))
  }

  predicate Numeric(k: BinaryKey) {
    k.left in NUMERIC && k.right in NUMERIC
  }

  /** The numeric keys of some operators are there, unless the registry is sealed. */
  ghost predicate HasNumeric(reg: Registry, ops: seq<TokenType>) {
    !reg.isSealed ==> forall k: BinaryKey | k.op in ops && Numeric(k) :: k in reg.binary
  }

  // ---------- The registrations ----------

  lemma NoErrorInTable(k: BinaryKey)
    requires StdBinary(k).Some?
    ensures ERROR_TYPE_ID !in {k.left, k.right, StdBinary(k).value.evalType}
  {
  }

  lemma NoErrorInUnaryTable(k: UnaryKey)
    requires StdUnary(k).Some?
    ensures ERROR_TYPE_ID !in {k.right, StdUnary(k).value.evalType}
  {
  }

  lemma AddOne(before: Registry, mid: Registry, key: BinaryKey, rule: BinaryRule)
    requires StdBinary(key) == Some(rule) && Extended(before, mid)
    ensures var added := mid.RegisterBinary(key, rule);
      var next := if added.Success? then added.value else mid;
      Extended(before, next) && Extended(mid, next) && next.isSealed == mid.isSealed
        && (!mid.isSealed ==> key in next.binary)
  {
    hide StdBinary;
    NoErrorInTable(key);
  }

  method Add(reg: LiveRegistry, key: BinaryKey, fn: BinaryFn, evalType: TypeID, ghost before: Registry)
    requires StdBinary(key) == Some(BinaryRule(fn, evalType)) && Extended(before, reg.View())
    modifies reg
    ensures Extended(before, reg.View()) && Extended(old(reg.View()), reg.View())
    ensures !reg.isSealed ==> key in reg.binary
  {
    hide StdBinary, Extended, Registry.RegisterBinary;
    AddOne(before, reg.View(), key, BinaryRule(fn, evalType));
    var _ := reg.RegisterBinary(key, BinaryRule(fn, evalType));
  }

  lemma AddOneUnary(before: Registry, mid: Registry, key: UnaryKey, rule: UnaryRule)
    requires StdUnary(key) == Some(rule) && ExtendedUnary(before, mid)
    ensures var added := mid.RegisterUnary(key, rule);
      var next := if added.Success? then added.value else mid;
      ExtendedUnary(before, next) && ExtendedUnary(mid, next) && next.isSealed == mid.isSealed
        && (!mid.isSealed ==> key in next.unary)
  {
    hide StdUnary;
    NoErrorInUnaryTable(key);
  }

  method AddUnary(reg: LiveRegistry, key: UnaryKey, fn: UnaryFn, evalType: TypeID, ghost before: Registry)
    requires StdUnary(key) == Some(UnaryRule(fn, evalType)) && ExtendedUnary(before, reg.View())
    modifies reg
    ensures ExtendedUnary(before, reg.View()) && ExtendedUnary(old(reg.View()), reg.View())
    ensures !reg.isSealed ==> key in reg.unary
  {
    hide StdUnary, ExtendedUnary, Registry.RegisterUnary;
    AddOneUnary(before, reg.View(), key, UnaryRule(fn, evalType));
    var _ := reg.RegisterUnary(key, UnaryRule(fn, evalType));
  }

  /** One operator at all pairs of numeric types. */
  method RegisterNumeric(reg: LiveRegistry, op: TokenType)
    requires op in ARITHMETIC || op in COMPARISON
    modifies reg
    ensures Extended(old(reg.View()), reg.View()) && HasNumeric(reg.View(), [op])
  {
    ghost var before := reg.View();
    for j := 0 to |NUMERIC_PAIRS|
      invariant Extended(before, reg.View())
      invariant !reg.isSealed ==> forall i | 0 <= i < j ::
        BinaryKey(op, NUMERIC_PAIRS[i].left, NUMERIC_PAIRS[i].right) in reg.binary
    {
      hide StdBinary;
      var pair := NUMERIC_PAIRS[j];
      NumericRule(op, pair);
      if op in COMPARISON {
        Add(reg, BinaryKey(op, pair.left, pair.right), NumericCompare(op), BOOL_ID, before);
      } else {
        var resultType := if op == SLASH then FLOAT_ID else pair.result;
        Add(reg, BinaryKey(op, pair.left, pair.right), NumericBinary(op), resultType, before);
      }
    }
    forall k: BinaryKey | k.op in [op] && Numeric(k) && !reg.isSealed ensures k in reg.binary {
      PairOf(k);
    }
  }

  lemma NumericRule(op: TokenType, pair: Operands)
    requires pair in NUMERIC_PAIRS
    ensures op in ARITHMETIC ==>
      StdBinary(BinaryKey(op, pair.left, pair.right))
        == Some(BinaryRule(NumericBinary(op), if op == SLASH then FLOAT_ID else pair.result))
    ensures op in COMPARISON ==>
      StdBinary(BinaryKey(op, pair.left, pair.right)) == Some(BinaryRule(NumericCompare(op), BOOL_ID))
    ensures op in COMPARISON ==> op !in ARITHMETIC
  {
  }

  lemma PairOf(k: BinaryKey)
    requires Numeric(k)
    ensures exists i | 0 <= i < |NUMERIC_PAIRS| :: k == BinaryKey(k.op, NUMERIC_PAIRS[i].left, NUMERIC_PAIRS[i].right)
  {
    var i := if k.left == INTEGER_ID then if k.right == INTEGER_ID then 0 else 1 else if k.right == INTEGER_ID then 2
      else 3;
    assert k == BinaryKey(k.op, NUMERIC_PAIRS[i].left, NUMERIC_PAIRS[i].right);
  }

  method RegisterNumerics(reg: LiveRegistry, ops: seq<TokenType>)
    requires forall op | op in ops :: op in ARITHMETIC || op in COMPARISON
    modifies reg
    ensures Extended(old(reg.View()), reg.View()) && HasNumeric(reg.View(), ops)
  {
    hide StdBinary;
    for i := 0 to |ops|
      invariant Extended(old(reg.View()), reg.View()) && HasNumeric(reg.View(), ops[..i])
    {
      ghost var before := reg.View();
      RegisterNumeric(reg, ops[i]);
      assert ops[..i + 1] == ops[..i] + [ops[i]];
    }
    assert ops[..|ops|] == ops;
  }

  predicate ScalarKey(k: BinaryKey) {
    k.left == k.right &&
    if k.op == PLUS then k.left == STRING_ID else k.op in {EQ, NEQ} && k.left in {STRING_ID, BOOL_ID}
  }

  method RegisterEquality(reg: LiveRegistry, t: TypeID)
    requires t in {STRING_ID, BOOL_ID}
    modifies reg
    ensures Extended(old(reg.View()), reg.View())
    ensures !reg.isSealed ==> BinaryKey(EQ, t, t) in reg.binary && BinaryKey(NEQ, t, t) in reg.binary
  {
    ghost var before := reg.View();
    Add(reg, BinaryKey(EQ, t, t), ScalarEq, BOOL_ID, before);
    Add(reg, BinaryKey(NEQ, t, t), ScalarNeq, BOOL_ID, before);
  }

  /** Equality of strings and booleans, and concatenation. */
  method RegisterScalars(reg: LiveRegistry)
    modifies reg
    ensures Extended(old(reg.View()), reg.View())
    ensures !reg.isSealed ==> forall k | ScalarKey(k) :: k in reg.binary
  {
    hide StdBinary;
    ghost var before := reg.View();
    for i := 0 to |SCALARS|
      invariant Extended(before, reg.View())
      invariant !reg.isSealed ==> forall j | 0 <= j < i ::
        BinaryKey(EQ, SCALARS[j], SCALARS[j]) in reg.binary && BinaryKey(NEQ, SCALARS[j], SCALARS[j]) in reg.binary
    {
      RegisterEquality(reg, SCALARS[i]);
    }
    assert SCALARS[0] == STRING_ID && SCALARS[1] == BOOL_ID;
    RegisterConcat(reg);
  }

  method RegisterConcat(reg: LiveRegistry)
    modifies reg
    ensures Extended(old(reg.View()), reg.View())
    ensures !reg.isSealed ==> BinaryKey(PLUS, STRING_ID, STRING_ID) in reg.binary
  {
    Add(reg, BinaryKey(PLUS, STRING_ID, STRING_ID), StringConcat, STRING_ID, reg.View());
  }

  method RegisterUnaries(reg: LiveRegistry)
    modifies reg
    ensures ExtendedUnary(old(reg.View()), reg.View())
    ensures !reg.isSealed ==> forall k | StdUnary(k).Some? :: k in reg.unary
  {
    hide StdUnary;
    ghost var before := reg.View();
    var operands := [INTEGER_ID, FLOAT_ID];
    for i := 0 to |operands|
      invariant ExtendedUnary(before, reg.View())
      invariant !reg.isSealed ==> forall j | 0 <= j < i :: UnaryKey(MINUS, operands[j]) in reg.unary
    {
      UnaryTable(UnaryKey(MINUS, operands[i]));
      AddUnary(reg, UnaryKey(MINUS, operands[i]), NumericNegate, operands[i], before);
    }
    assert operands[0] == INTEGER_ID && operands[1] == FLOAT_ID;
    UnaryTable(UnaryKey(BANG, BOOL_ID));
    AddUnary(reg, UnaryKey(BANG, BOOL_ID), BoolNot, BOOL_ID, before);
    forall k | StdUnary(k).Some? && !reg.isSealed ensures k in reg.unary {
      UnaryTable(k);
    }
  }

  lemma UnaryTable(k: UnaryKey)
    ensures StdUnary(k).Some? <==>
      k in {UnaryKey(MINUS, INTEGER_ID), UnaryKey(MINUS, FLOAT_ID), UnaryKey(BANG, BOOL_ID)}
    ensures k.op == MINUS && k.right in NUMERIC ==> StdUnary(k) == Some(UnaryRule(NumericNegate, k.right))
    ensures k == UnaryKey(BANG, BOOL_ID) ==> StdUnary(k) == Some(UnaryRule(BoolNot, BOOL_ID))
  {
  }

  // ---------- The default registry ----------

  const CORE_TYPES: map<TypeID, TypeDef> := map t | t in CORE_IDS :: TypeDef(ScalarShape, [])
  const NO_RULES := Registry(map[], map[], map[], map[], {}, map[], map[], map[], false)

  /** The registry a builder starts from: the two operator tables, one coercion and four types, and nothing else. */
  ghost predicate IsDefault(reg: Registry) {
    && (forall op, l, r :: reg.LookupBinary(op, l, r) == StdBinary(BinaryKey(op, l, r)))
    && (forall op, r :: reg.LookupUnary(op, r) == StdUnary(UnaryKey(op, r)))
    && reg.coerces == map[INT_TO_FLOAT := CoerceRule(IntToFloat, FLOAT_ID)]
    && reg.types == CORE_TYPES
    && reg.member == map[] && reg.call == map[] && reg.modules == {} && reg.kinds == map[] && !reg.isSealed
  }

  method DefaultRegistry() returns (reg: LiveRegistry)
    ensures fresh(reg) && IsDefault(reg.View())
  {
    hide StdBinary, StdUnary, HasNumeric, ScalarKey;
    reg := new LiveRegistry(NO_RULES);
    reg.types := CORE_TYPES;
    ghost var r0 := reg.View();
    RegisterNumerics(reg, ARITHMETIC_OPERATORS);
    ghost var r1 := reg.View();
    RegisterNumerics(reg, COMPARISON_OPERATORS);
    ghost var r2 := reg.View();
    RegisterScalars(reg);
    ghost var r3 := reg.View();
    RegisterUnaries(reg);
    DefaultOperators(r0, r1, r2, r3, reg.View());
    var _ := reg.RegisterCoercion(INT_TO_FLOAT, CoerceRule(IntToFloat, FLOAT_ID));
  }

  /** Every key of the table belongs to one of the three groups. */
  lemma TableGroups(k: BinaryKey)
    requires StdBinary(k).Some?
    ensures (k.op in ARITHMETIC_OPERATORS && Numeric(k)) || (k.op in COMPARISON_OPERATORS && Numeric(k)) || ScalarKey(k)
  {
    if k.op in ARITHMETIC {
      assert k.op == ARITHMETIC_OPERATORS[0] || k.op == ARITHMETIC_OPERATORS[1] || k.op == ARITHMETIC_OPERATORS[2]
        || k.op == ARITHMETIC_OPERATORS[3] || k.op == ARITHMETIC_OPERATORS[4];
    } else if k.op in COMPARISON {
      assert k.op == COMPARISON_OPERATORS[0] || k.op == COMPARISON_OPERATORS[1] || k.op == COMPARISON_OPERATORS[2]
        || k.op == COMPARISON_OPERATORS[3] || k.op == COMPARISON_OPERATORS[4] || k.op == COMPARISON_OPERATORS[5];
    }
  }

  /** The groups of registrations together make the tables. */
  lemma DefaultOperators(r0: Registry, r1: Registry, r2: Registry, r3: Registry, r4: Registry)
    requires r0.binary == map[] && r0.unary == map[] && !r0.isSealed
    requires Extended(r0, r1) && HasNumeric(r1, ARITHMETIC_OPERATORS)
    requires Extended(r1, r2) && HasNumeric(r2, COMPARISON_OPERATORS)
    requires Extended(r2, r3) && forall k | ScalarKey(k) :: k in r3.binary
    requires ExtendedUnary(r3, r4) && forall k | StdUnary(k).Some? :: k in r4.unary
    ensures forall op, l, r :: r4.LookupBinary(op, l, r) == StdBinary(BinaryKey(op, l, r))
    ensures forall op, r :: r4.LookupUnary(op, r) == StdUnary(UnaryKey(op, r))
    ensures r4 == r0.(binary := r4.binary, unary := r4.unary)
  {
    hide StdBinary, StdUnary, ScalarKey, Numeric;
    forall op, l, r ensures r4.LookupBinary(op, l, r) == StdBinary(BinaryKey(op, l, r)) {
      var k := BinaryKey(op, l, r);
      if StdBinary(k).Some? {
        TableGroups(k);
      }
    }
  }

  /** The default registry meets every assumption the soundness theorems make of a registry. */
  lemma DefaultIsWellFormed(reg: Registry)
    requires IsDefault(reg)
    ensures WfRegistry(reg) && DotlessTypes(reg)
  {
    DefaultDuties(reg);
    assert RegistryInv(reg) by {
      DefaultErrorFree(reg);
    }
  }

  lemma DefaultDuties(reg: Registry)
    requires IsDefault(reg)
    ensures HostDuties(reg)
  {
    forall k | k in reg.binary ensures BinaryFits(k, reg.binary[k]) {
      assert reg.LookupBinary(k.op, k.left, k.right) == Some(reg.binary[k]);
    }
    forall k | k in reg.unary ensures UnaryFits(k, reg.unary[k]) {
      assert reg.LookupUnary(k.op, k.right) == Some(reg.unary[k]);
    }
  }

  lemma DefaultErrorFree(reg: Registry)
    requires IsDefault(reg)
    ensures ErrorFree(reg)
  {
    forall k | k in reg.binary ensures ERROR_TYPE_ID !in {k.left, k.right, reg.binary[k].evalType} {
      assert reg.LookupBinary(k.op, k.left, k.right) == Some(reg.binary[k]);
    }
    forall k | k in reg.unary ensures ERROR_TYPE_ID !in {k.right, reg.unary[k].evalType} {
      assert reg.LookupUnary(k.op, k.right) == Some(reg.unary[k]);
    }
  }
}
