/**
 The rule registry (registry/registry.go) as a value: what each operation looks up and what each registration
 changes. LiveRegistries.dfy has the mutable object that hosts and the resolver share.
 */
module Registries {
  import opened Wrappers
  import opened Tokens
  import opened Values

  // A rule's function is named, not stored: Rules.dfy gives each name its meaning.
  datatype BinaryFn =
    | NumericBinary(op: TokenType) | NumericCompare(op: TokenType)
    | ScalarEq | ScalarNeq | StringConcat | HostBinary(id: nat)
  datatype UnaryFn = NumericNegate | BoolNot | HostUnary(id: nat)
  datatype MemberFn = FieldOf(name: string) | HostMember(id: nat)
  datatype CoerceFn = IntToFloat | HostCoerce(id: nat)
  datatype CallFn = NoCall | HostCall(id: nat)

  datatype BinaryKey = BinaryKey(op: TokenType, left: TypeID, right: TypeID)
  datatype BinaryRule = BinaryRule(fn: BinaryFn, evalType: TypeID)
  datatype UnaryKey = UnaryKey(op: TokenType, right: TypeID)
  datatype UnaryRule = UnaryRule(fn: UnaryFn, evalType: TypeID)
  datatype MemberKey = MemberKey(owner: TypeID, member: string)
  datatype MemberRule = MemberRule(fn: MemberFn, evalType: TypeID)
  datatype CoerceKey = CoerceKey(from: TypeID, to: TypeID)
  datatype CoerceRule = CoerceRule(fn: CoerceFn, evalType: TypeID)
  datatype Param = Param(typ: TypeID, name: string, exact: bool)
  datatype CallRule = CallRule(params: seq<Param>, fn: CallFn, evalType: TypeID)

  datatype Shape = ScalarShape | VectorShape | ModuleShape | ScriptShape
  datatype Field = Field(name: string, typ: TypeID)
  datatype TypeDef = TypeDef(shape: Shape, fields: seq<Field>)

  datatype Initializer = InitRequired | InitOptional | InitForbidden
  datatype DeclKind = DeclKind(word: string, init: Initializer, assignable: bool, namespaced: bool,
    allowed: seq<TypeID>)

  datatype RegError =
    | Sealed | ReservedType | IdTaken | RuleTaken | TakenByKind | ModuleThroughType
    | NotAnIdentifier | IsKeyword | IsReserved | TakenByType | TakenByModule | UnknownAllowedType

  datatype Registry = Registry(
    binary: map<BinaryKey, BinaryRule>,
    unary: map<UnaryKey, UnaryRule>,
    member: map<MemberKey, MemberRule>,
    call: map<MemberKey, CallRule>,
    modules: set<string>,
    types: map<TypeID, TypeDef>,
    coerces: map<CoerceKey, CoerceRule>,
    kinds: map<string, DeclKind>,
    isSealed: bool)
  {
    function FieldsOf(t: TypeID): seq<Field> {
      if t in types then types[t].fields else []
    }

    function LookupBinary(op: TokenType, left: TypeID, right: TypeID): Option<BinaryRule> {
      var key := BinaryKey(op, left, right);
      if key in binary then Some(binary[key]) else None
    }

    function LookupUnary(op: TokenType, right: TypeID): Option<UnaryRule> {
      var key := UnaryKey(op, right);
      if key in unary then Some(unary[key]) else None
    }

    function LookupMember(owner: TypeID, name: string): Option<MemberRule> {
      var key := MemberKey(owner, name);
      if key in member then Some(member[key]) else None
    }

    function LookupCall(owner: TypeID, name: string): Option<CallRule> {
      var key := MemberKey(owner, name);
      if key in call then Some(call[key]) else None
    }

    function LookupCoerce(from: TypeID, to: TypeID): Option<CoerceRule> {
      var key := CoerceKey(from, to);
      if key in coerces then Some(coerces[key]) else None
    }

    /** The signature of emit: one `value` for a named type, one parameter per field for a structural one. */
    function EmitRule(t: TypeID): CallRule {
      var fields := FieldsOf(t);
      CallRule(if fields == [] then [Param(t, "value", false)] else FieldParams(fields), NoCall, t)
    }

    // ---------- Registration: the registry afterwards, or why it was refused ----------

    function RegisterType(id: TypeID, shape: Shape): Result<Registry, RegError> {
      if isSealed then Failure(Sealed)
      else if shape == ModuleShape then Failure(ModuleThroughType)
      else AddType(id, shape)
    }

    function AddType(id: TypeID, shape: Shape): Result<Registry, RegError> {
      if id == ERROR_TYPE_ID then Failure(ReservedType)
      else if id in kinds then Failure(TakenByKind)
      else if id in types then Failure(IdTaken)
      else Success(this.(types := types[id := TypeDef(shape, [])]))
    }

    function RegisterModule(name: string): Result<Registry, RegError> {
      if isSealed then Failure(Sealed) else
      var reg :- AddType(name, ModuleShape);
      Success(reg.(modules := modules + {name}))
    }

    function RegisterCoercion(key: CoerceKey, rule: CoerceRule): Result<Registry, RegError> {
      if isSealed then Failure(Sealed)
      else if ERROR_TYPE_ID in {key.from, key.to, rule.evalType} then Failure(ReservedType)
      else if key in coerces then Failure(RuleTaken)
      else Success(this.(coerces := coerces[key := rule]))
    }

    function RegisterBinary(key: BinaryKey, rule: BinaryRule): Result<Registry, RegError> {
      if isSealed then Failure(Sealed)
      else if ERROR_TYPE_ID in {key.left, key.right, rule.evalType} then Failure(ReservedType)
      else if key in binary then Failure(RuleTaken)
      else Success(this.(binary := binary[key := rule]))
    }

    function RegisterUnary(key: UnaryKey, rule: UnaryRule): Result<Registry, RegError> {
      if isSealed then Failure(Sealed)
      else if ERROR_TYPE_ID in {key.right, rule.evalType} then Failure(ReservedType)
      else if key in unary then Failure(RuleTaken)
      else Success(this.(unary := unary[key := rule]))
    }

    function RegisterMember(key: MemberKey, rule: MemberRule): Result<Registry, RegError> {
      if isSealed then Failure(Sealed)
      else if ERROR_TYPE_ID in {key.owner, rule.evalType} then Failure(ReservedType)
      else if key in member then Failure(RuleTaken)
      else Success(this.(member := member[key := rule]))
    }

    function RegisterCall(key: MemberKey, rule: CallRule): Result<Registry, RegError> {
      if isSealed then Failure(Sealed)
      else if ERROR_TYPE_ID in {key.owner, rule.evalType} || (exists q | q in rule.params :: q.typ == ERROR_TYPE_ID)
        then Failure(ReservedType)
      else if key in call then Failure(RuleTaken)
      else Success(this.(call := call[key := rule]))
    }

    function RegisterDeclKind(k: DeclKind): Result<Registry, RegError> {
      if isSealed then Failure(Sealed)
      else if !IsIdent(k.word) then Failure(NotAnIdentifier)
      else if k.word in KEYWORDS then Failure(IsKeyword)
      else if k.word in RESERVED_IDENTS then Failure(IsReserved)
      else if k.word in kinds then Failure(TakenByKind)
      else if k.word in types then Failure(TakenByType)
      else if k.word in modules then Failure(TakenByModule)
      else if ERROR_TYPE_ID in k.allowed then Failure(ReservedType)
      else if exists t | t in k.allowed :: t !in types then Failure(UnknownAllowedType)
      else Success(this.(kinds := kinds[k.word := k]))
    }

    /** A structural type synthesized from an inline declaration, with an accessor for each field. */
    function RegisterScriptType(name: string, fields: seq<Field>): Result<Registry, RegError> {
      if isSealed then Failure(Sealed)
      else if name == ERROR_TYPE_ID then Failure(ReservedType)
      else if name in kinds then Failure(TakenByKind)
      else if exists f | f in fields :: f.typ == ERROR_TYPE_ID then Failure(ReservedType)
      else if name in types then Failure(IdTaken)
      else Success(this.(types := types[name := TypeDef(ScriptShape, fields)]).AddFieldRules(name, fields))
    }

    /** One accessor per field; an accessor already registered under the same key is kept. */
    function AddFieldRules(owner: TypeID, fields: seq<Field>): Registry
      decreases |fields|
    {
      if fields == [] then this else
      var key := MemberKey(owner, fields[0].name);
      var next := if key in member then this
        else this.(member := member[key := MemberRule(FieldOf(fields[0].name), fields[0].typ)]);
      next.AddFieldRules(owner, fields[1..])
    }
  }

  function FieldParams(fields: seq<Field>): (params: seq<Param>)
    ensures |params| == |fields|
    ensures forall i | 0 <= i < |fields| :: params[i] == Param(fields[i].typ, fields[i].name, false)
  {
    seq(|fields|, i requires 0 <= i < |fields| => Param(fields[i].typ, fields[i].name, false))
  }
}
