/**
 The registry as the mutable object a builder, its host and the resolver share (registry/registry.go). Each
 registration does what the operation of the same name does on values, or reports the same refusal and
 changes nothing.
 */
module LiveRegistries {
  import opened Wrappers
  import opened Tokens
  import opened Values
  import opened Registries

  class LiveRegistry {
    var binary: map<BinaryKey, BinaryRule>
    var unary: map<UnaryKey, UnaryRule>
    var member: map<MemberKey, MemberRule>
    var call: map<MemberKey, CallRule>
    var modules: set<string>
    var types: map<TypeID, TypeDef>
    var coerces: map<CoerceKey, CoerceRule>
    var kinds: map<string, DeclKind>
    var isSealed: bool

    function View(): Registry
      reads this
    {
      Registry(binary, unary, member, call, modules, types, coerces, kinds, isSealed)
    }

    constructor (reg: Registry)
      ensures View() == reg
    {
      binary, unary, member, call := reg.binary, reg.unary, reg.member, reg.call;
      modules, types, coerces, kinds, isSealed := reg.modules, reg.types, reg.coerces, reg.kinds, reg.isSealed;
    }

    /** A registration's answer and effect, as the value-level operation gives them. */
    static ghost predicate Does(before: Registry, after: Registry, refusal: Option<RegError>,
        spec: Result<Registry, RegError>) {
      match spec
      case Success(reg) => refusal.None? && after == reg
      case Failure(why) => refusal == Some(why) && after == before
    }

    method Seal()
      modifies this
      ensures View() == old(View()).(isSealed := true)
    {
      isSealed := true;
    }

    method RegisterType(id: TypeID, shape: Shape) returns (refusal: Option<RegError>)
      modifies this
      ensures Does(old(View()), View(), refusal, old(View()).RegisterType(id, shape))
    {
      if isSealed { return Some(Sealed); }
      if shape == ModuleShape { return Some(ModuleThroughType); }
      refusal := AddType(id, shape);
    }

    method AddType(id: TypeID, shape: Shape) returns (refusal: Option<RegError>)
      modifies this
      ensures Does(old(View()), View(), refusal, old(View()).AddType(id, shape))
    {
      if id == ERROR_TYPE_ID { return Some(ReservedType); }
      if id in kinds { return Some(TakenByKind); }
      if id in types { return Some(IdTaken); }
      types := types[id := TypeDef(shape, [])];
      refusal := None;
    }

    method RegisterModule(name: string) returns (refusal: Option<RegError>)
      modifies this
      ensures Does(old(View()), View(), refusal, old(View()).RegisterModule(name))
    {
      if isSealed { return Some(Sealed); }
      refusal := AddType(name, ModuleShape);
      if refusal.None? { modules := modules + {name}; }
    }

    method RegisterCoercion(key: CoerceKey, rule: CoerceRule) returns (refusal: Option<RegError>)
      modifies this
      ensures Does(old(View()), View(), refusal, old(View()).RegisterCoercion(key, rule))
    {
      if isSealed { return Some(Sealed); }
      if ERROR_TYPE_ID in {key.from, key.to, rule.evalType} { return Some(ReservedType); }
      if key in coerces { return Some(RuleTaken); }
      coerces := coerces[key := rule];
      refusal := None;
    }

    method RegisterBinary(key: BinaryKey, rule: BinaryRule) returns (refusal: Option<RegError>)
      modifies this
      ensures Does(old(View()), View(), refusal, old(View()).RegisterBinary(key, rule))
    {
      if isSealed { return Some(Sealed); }
      if ERROR_TYPE_ID in {key.left, key.right, rule.evalType} { return Some(ReservedType); }
      if key in binary { return Some(RuleTaken); }
      binary := binary[key := rule];
      refusal := None;
    }

    method RegisterUnary(key: UnaryKey, rule: UnaryRule) returns (refusal: Option<RegError>)
      modifies this
      ensures Does(old(View()), View(), refusal, old(View()).RegisterUnary(key, rule))
    {
      if isSealed { return Some(Sealed); }
      if ERROR_TYPE_ID in {key.right, rule.evalType} { return Some(ReservedType); }
      if key in unary { return Some(RuleTaken); }
      unary := unary[key := rule];
      refusal := None;
    }

    method RegisterMember(key: MemberKey, rule: MemberRule) returns (refusal: Option<RegError>)
      modifies this
      ensures Does(old(View()), View(), refusal, old(View()).RegisterMember(key, rule))
    {
      if isSealed { return Some(Sealed); }
      if ERROR_TYPE_ID in {key.owner, rule.evalType} { return Some(ReservedType); }
      if key in member { return Some(RuleTaken); }
      member := member[key := rule];
      refusal := None;
    }

    method RegisterCall(key: MemberKey, rule: CallRule) returns (refusal: Option<RegError>)
      modifies this
      ensures Does(old(View()), View(), refusal, old(View()).RegisterCall(key, rule))
    {
      if isSealed { return Some(Sealed); }
      if ERROR_TYPE_ID in {key.owner, rule.evalType} { return Some(ReservedType); }
      for i := 0 to |rule.params|
        invariant View() == old(View())
        invariant forall q | q in rule.params[..i] :: q.typ != ERROR_TYPE_ID
      {
        if rule.params[i].typ == ERROR_TYPE_ID { return Some(ReservedType); }
      }
      assert rule.params[..|rule.params|] == rule.params;
      if key in call { return Some(RuleTaken); }
      call := call[key := rule];
      refusal := None;
    }

    method RegisterDeclKind(k: DeclKind) returns (refusal: Option<RegError>)
      modifies this
      ensures Does(old(View()), View(), refusal, old(View()).RegisterDeclKind(k))
    {
      if isSealed { return Some(Sealed); }
      if !IsIdent(k.word) { return Some(NotAnIdentifier); }
      if k.word in KEYWORDS { return Some(IsKeyword); }
      if k.word in RESERVED_IDENTS { return Some(IsReserved); }
      if k.word in kinds { return Some(TakenByKind); }
      if k.word in types { return Some(TakenByType); }
      if k.word in modules { return Some(TakenByModule); }
      if ERROR_TYPE_ID in k.allowed { return Some(ReservedType); }
      for i := 0 to |k.allowed|
        invariant View() == old(View())
        invariant forall t | t in k.allowed[..i] :: t in types
      {
        if k.allowed[i] !in types { return Some(UnknownAllowedType); }
      }
      assert k.allowed[..|k.allowed|] == k.allowed;
      kinds := kinds[k.word := k];
      refusal := None;
    }

    method RegisterScriptType(name: string, fields: seq<Field>) returns (refusal: Option<RegError>)
      modifies this
      ensures Does(old(View()), View(), refusal, old(View()).RegisterScriptType(name, fields))
    {
      if isSealed { return Some(Sealed); }
      if name == ERROR_TYPE_ID { return Some(ReservedType); }
      if name in kinds { return Some(TakenByKind); }
      for i := 0 to |fields|
        invariant View() == old(View())
        invariant forall f | f in fields[..i] :: f.typ != ERROR_TYPE_ID
      {
        if fields[i].typ == ERROR_TYPE_ID { return Some(ReservedType); }
      }
      assert fields[..|fields|] == fields;
      if name in types { return Some(IdTaken); }
      types := types[name := TypeDef(ScriptShape, fields)];
      ghost var typed := View();
      var i := 0;
      while i < |fields|
        invariant 0 <= i <= |fields| && View() == typed.(member := member)
        invariant typed.AddFieldRules(name, fields) == View().AddFieldRules(name, fields[i..])
      {
        // a refusal is ignored: an accessor already registered under the key stands
        var key := MemberKey(name, fields[i].name);
        if key !in member { member := member[key := MemberRule(FieldOf(fields[i].name), fields[i].typ)]; }
        i := i + 1;
      }
      refusal := None;
    }
  }
}
