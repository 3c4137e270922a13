/**
 What holds of a registry after any sequence of registrations, accepted or refused (registry/registry.go). That
 the registry a builder starts from is well formed is proved in StdMath.dfy.
 */
module RegistryHistory {
  import opened Wrappers
  import opened Tokens
  import opened Values
  import opened Registries
  import opened WellFormed
  import opened AcceptedPrograms

  datatype Registration =
    | NewType(id: TypeID, shape: Shape)
    | NewScriptType(id: TypeID, fields: seq<Field>)
    | NewModule(id: TypeID)
    | NewCoercion(coerceKey: CoerceKey, coerceRule: CoerceRule)
    | NewBinary(binaryKey: BinaryKey, binaryRule: BinaryRule)
    | NewUnary(unaryKey: UnaryKey, unaryRule: UnaryRule)
    | NewMember(memberKey: MemberKey, memberRule: MemberRule)
    | NewCall(memberKey: MemberKey, callRule: CallRule)
    | NewKind(kind: DeclKind)
    | SealIt

  function Attempt(reg: Registry, r: Registration): Result<Registry, RegError> {
    match r
    case NewType(id, shape) => reg.RegisterType(id, shape)
    case NewScriptType(id, fields) => reg.RegisterScriptType(id, fields)
    case NewModule(id) => reg.RegisterModule(id)
    case NewCoercion(key, rule) => reg.RegisterCoercion(key, rule)
    case NewBinary(key, rule) => reg.RegisterBinary(key, rule)
    case NewUnary(key, rule) => reg.RegisterUnary(key, rule)
    case NewMember(key, rule) => reg.RegisterMember(key, rule)
    case NewCall(key, rule) => reg.RegisterCall(key, rule)
    case NewKind(kind) => reg.RegisterDeclKind(kind)
    case SealIt => Success(reg.(isSealed := true))
  }

  /** A refused registration changes nothing. */
  function Step(reg: Registry, r: Registration): Registry {
    match Attempt(reg, r) case Success(next) => next case Failure(_) => reg
  }

  function Replay(reg: Registry, rs: seq<Registration>): Registry
    decreases |rs|
  {
    if rs == [] then reg else Replay(Step(reg, rs[0]), rs[1..])
  }

  /** Nothing already registered is changed, only added to. */
  ghost predicate Grows(a: Registry, b: Registry) {
    && KeptIn(a.binary, b.binary) && KeptIn(a.unary, b.unary) && KeptIn(a.member, b.member) && KeptIn(a.call, b.call)
    && KeptIn(a.coerces, b.coerces) && KeptIn(a.types, b.types) && KeptIn(a.kinds, b.kinds)
    && a.modules <= b.modules
    && (a.isSealed ==> b == a)
  }

  lemma StepGrows(reg: Registry, r: Registration)
    ensures Grows(reg, Step(reg, r))
  {
    if Attempt(reg, r).Success? {
      if r.NewScriptType? {
        ScriptTypeExtends(reg, r.id, r.fields);
      } else if r.NewType? || r.NewModule? || r.NewKind? || r.SealIt? {
        NameGrows(reg, r);
      } else {
        RuleGrows(reg, r);
      }
    }
  }

  lemma NameGrows(reg: Registry, r: Registration)
    requires Attempt(reg, r).Success? && (r.NewType? || r.NewModule? || r.NewKind? || r.SealIt?)
    ensures Grows(reg, Attempt(reg, r).value)
  {
  }

  lemma RuleGrows(reg: Registry, r: Registration)
    requires Attempt(reg, r).Success? && (r.NewCoercion? || r.NewBinary? || r.NewUnary? || r.NewMember? || r.NewCall?)
    ensures Grows(reg, Attempt(reg, r).value)
  {
  }

  lemma AddTypeKeepsInv(reg: Registry, id: TypeID, shape: Shape)
    requires RegistryInv(reg) && shape != ModuleShape && reg.AddType(id, shape).Success?
    ensures RegistryInv(reg.AddType(id, shape).value)
  {
    AddTypeInv(reg, id, TypeDef(shape, []));
  }

  lemma AddModuleKeepsInv(reg: Registry, id: TypeID)
    requires RegistryInv(reg) && reg.RegisterModule(id).Success?
    ensures RegistryInv(reg.RegisterModule(id).value)
  {
    hide ErrorFreeRules, ErrorFreeTypes, NamesInv;
    AddModuleErrorFree(reg, id);
    AddModuleNames(reg, id);
  }

  lemma AddModuleErrorFree(reg: Registry, id: TypeID)
    requires ErrorFree(reg) && reg.RegisterModule(id).Success?
    ensures ErrorFree(reg.RegisterModule(id).value)
  {
    var reg' := reg.RegisterModule(id).value;
    assert ErrorFreeRules(reg') by {
      assert reg'.binary == reg.binary && reg'.unary == reg.unary && reg'.member == reg.member;
      assert reg'.coerces == reg.coerces && reg'.call == reg.call;
    }
    hide ErrorFreeRules;
    assert ErrorFreeTypes(reg');
  }

  lemma AddModuleNames(reg: Registry, id: TypeID)
    requires NamesInv(reg) && reg.RegisterModule(id).Success?
    ensures NamesInv(reg.RegisterModule(id).value)
  {
    hide IsIdent;
    var reg' := reg.RegisterModule(id).value;
    assert forall t | t in reg.types :: t in reg'.modules <==> t in reg.modules;
  }

  lemma AddKindKeepsInv(reg: Registry, kind: DeclKind)
    requires RegistryInv(reg) && reg.RegisterDeclKind(kind).Success?
    ensures RegistryInv(reg.RegisterDeclKind(kind).value)
  {
    var reg' := reg.RegisterDeclKind(kind).value;
    assert ErrorFreeRules(reg');
    assert ErrorFreeTypes(reg');
  }

  lemma AddRuleKeepsRules(reg: Registry, r: Registration)
    requires ErrorFreeRules(reg) && Attempt(reg, r).Success?
      && (r.NewCoercion? || r.NewBinary? || r.NewUnary? || r.NewMember? || r.NewCall?)
    ensures ErrorFreeRules(Attempt(reg, r).value)
  {
  }

  lemma AddRuleKeepsInv(reg: Registry, r: Registration)
    requires RegistryInv(reg) && Attempt(reg, r).Success?
      && (r.NewCoercion? || r.NewBinary? || r.NewUnary? || r.NewMember? || r.NewCall?)
    ensures RegistryInv(Step(reg, r))
  {
    hide ErrorFreeRules;
    AddRuleKeepsRules(reg, r);
    var reg' := Attempt(reg, r).value;
    assert reg'.types == reg.types && reg'.kinds == reg.kinds && reg'.modules == reg.modules;
  }

  lemma StepKeepsInv(reg: Registry, r: Registration)
    requires RegistryInv(reg)
    ensures RegistryInv(Step(reg, r))
  {
    if Attempt(reg, r).Success? {
      match r
      case NewType(id, shape) => AddTypeKeepsInv(reg, id, shape);
      case NewScriptType(id, fields) => ScriptTypeInv(reg, id, fields);
      case NewModule(id) => AddModuleKeepsInv(reg, id);
      case NewKind(kind) => AddKindKeepsInv(reg, kind);
      case SealIt =>
      case _ => AddRuleKeepsInv(reg, r);
    }
  }

  /**
   After any history: the invariant holds, the first entry under every key survives, and a sealed registry is final.
   */
  lemma {:induction false} ReplayKeepsInv(reg: Registry, rs: seq<Registration>)
    requires RegistryInv(reg)
    ensures RegistryInv(Replay(reg, rs)) && Grows(reg, Replay(reg, rs))
    decreases |rs|
  {
    if rs != [] {
      StepKeepsInv(reg, rs[0]);
      StepGrows(reg, rs[0]);
      ReplayKeepsInv(Step(reg, rs[0]), rs[1..]);
    }
  }

  // ---------- What was accepted is found ----------

  /** What the registration put in, as the resolver and the evaluator look it up. */
  ghost predicate Found(reg: Registry, r: Registration) {
    match r
    case NewType(id, shape) => id in reg.types && reg.types[id] == TypeDef(shape, [])
    case NewScriptType(id, fields) =>
      && id in reg.types && reg.types[id] == TypeDef(ScriptShape, fields)
      && forall f | f in fields :: reg.LookupMember(id, f.name).Some?
    case NewModule(id) => id in reg.modules && id in reg.types && reg.types[id].shape == ModuleShape
    case NewCoercion(key, rule) => reg.LookupCoerce(key.from, key.to) == Some(rule)
    case NewBinary(key, rule) => reg.LookupBinary(key.op, key.left, key.right) == Some(rule)
    case NewUnary(key, rule) => reg.LookupUnary(key.op, key.right) == Some(rule)
    case NewMember(key, rule) => reg.LookupMember(key.owner, key.member) == Some(rule)
    case NewCall(key, rule) => reg.LookupCall(key.owner, key.member) == Some(rule)
    case NewKind(kind) => kind.word in reg.kinds && reg.kinds[kind.word] == kind
    case SealIt => reg.isSealed
  }

  lemma {:induction false} FieldsFound(reg: Registry, owner: TypeID, fields: seq<Field>)
    ensures forall f | f in fields :: MemberKey(owner, f.name) in reg.AddFieldRules(owner, fields).member
    decreases |fields|
  {
    if fields != [] {
      var key := MemberKey(owner, fields[0].name);
      var next := if key in reg.member then reg
        else reg.(member := reg.member[key := MemberRule(FieldOf(fields[0].name), fields[0].typ)]);
      FieldsFound(next, owner, fields[1..]);
      AddFieldRulesIs(next, owner, fields[1..]);
      assert key in next.member;
    }
  }

  lemma AcceptedIsFound(reg: Registry, r: Registration)
    requires Attempt(reg, r).Success?
    ensures Found(Step(reg, r), r)
  {
    if r.NewScriptType? {
      var mid := reg.(types := reg.types[r.id := TypeDef(ScriptShape, r.fields)]);
      AddFieldRulesIs(mid, r.id, r.fields);
      FieldsFound(mid, r.id, r.fields);
    }
  }

  lemma FoundLater(a: Registry, b: Registry, r: Registration)
    requires Found(a, r) && Grows(a, b)
    ensures Found(b, r)
  {
  }

  lemma {:induction false} ReplayGrows(reg: Registry, rs: seq<Registration>)
    ensures Grows(reg, Replay(reg, rs))
    decreases |rs|
  {
    if rs != [] {
      StepGrows(reg, rs[0]);
      ReplayGrows(Step(reg, rs[0]), rs[1..]);
    }
  }

  /** Whatever was accepted can be looked up as it was given, after any registrations that follow. */
  lemma AcceptedStaysFound(reg: Registry, r: Registration, later: seq<Registration>)
    requires Attempt(reg, r).Success?
    ensures Found(Replay(Step(reg, r), later), r)
  {
    hide Found, Grows, Attempt;
    AcceptedIsFound(reg, r);
    ReplayGrows(Step(reg, r), later);
    FoundLater(Step(reg, r), Replay(Step(reg, r), later), r);
  }

  /** The type names a registration mentions. */
  function Mentions(r: Registration): set<TypeID> {
    match r
    case NewType(id, _) => {id}
    case NewScriptType(id, fields) => {id} + set f | f in fields :: f.typ
    case NewModule(id) => {id}
    case NewCoercion(key, rule) => {key.from, key.to, rule.evalType}
    case NewBinary(key, rule) => {key.left, key.right, rule.evalType}
    case NewUnary(key, rule) => {key.right, rule.evalType}
    case NewMember(key, rule) => {key.owner, rule.evalType}
    case NewCall(key, rule) => {key.owner, rule.evalType} + set q | q in rule.params :: q.typ
    case NewKind(kind) => set t | t in kind.allowed
    case SealIt => {}
  }

  /** Nothing is registered under the same key or name. */
  predicate IsFree(reg: Registry, r: Registration) {
    match r
    case NewType(id, shape) => id !in reg.types && id !in reg.kinds && shape != ModuleShape
    case NewScriptType(id, _) => id !in reg.types && id !in reg.kinds
    case NewModule(id) => id !in reg.types && id !in reg.kinds
    case NewCoercion(key, _) => key !in reg.coerces
    case NewBinary(key, _) => key !in reg.binary
    case NewUnary(key, _) => key !in reg.unary
    case NewMember(key, _) => key !in reg.member
    case NewCall(key, _) => key !in reg.call
    case NewKind(kind) =>
      && IsIdent(kind.word) && kind.word !in KEYWORDS && kind.word !in RESERVED_IDENTS
      && kind.word !in reg.kinds && kind.word !in reg.types && kind.word !in reg.modules
      && forall t | t in kind.allowed :: t in reg.types
    case SealIt => true
  }

  /**
   A registration is accepted exactly while the registry is open, if it does not mention the error type and is new.
   */
  lemma AcceptedExactly(reg: Registry, r: Registration)
    ensures Attempt(reg, r).Success? <==>
      r.SealIt? || (!reg.isSealed && ERROR_TYPE_ID !in Mentions(r) && IsFree(reg, r))
  {
    hide IsIdent;
  }
}
