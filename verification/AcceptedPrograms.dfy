/** Whole programs: an accepted program, together with the registry it leaves, is well typed and well formed. */
module AcceptedPrograms {
  import opened Wrappers
  import opened Tokens
  import opened Values
  import opened Registries
  import opened Rules
  import opened WellFormed
  import opened Scopes
  import opened Ast
  import opened Resolved
  import opened Typing
  import opened Elaboration
  import opened CheckedPrograms
  import Semantics
  import Soundness
  import Safety

  // ---------- The registry grows ----------

  ghost predicate Extends(reg: Registry, reg': Registry) {
    && reg' == reg.(types := reg'.types, member := reg'.member)
    && KeptIn(reg.member, reg'.member) && KeptIn(reg.types, reg'.types)
    && (forall t | t in reg'.types && t !in reg.types :: reg'.types[t].shape == ScriptShape)
  }

  lemma {:induction false} AddFieldRulesIs(reg: Registry, owner: TypeID, fields: seq<Field>)
    ensures var reg' := reg.AddFieldRules(owner, fields);
      && reg' == reg.(member := reg'.member)
      && (forall k | k in reg.member :: k in reg'.member && reg'.member[k] == reg.member[k])
      && (forall k | k in reg'.member && k !in reg.member ::
            k.owner == owner && reg'.member[k].fn.FieldOf?
              && Field(reg'.member[k].fn.name, reg'.member[k].evalType) in fields)
    decreases |fields|
  {
    if fields != [] {
      var key := MemberKey(owner, fields[0].name);
      var next := if key in reg.member then reg
        else reg.(member := reg.member[key := MemberRule(FieldOf(fields[0].name), fields[0].typ)]);
      AddFieldRulesIs(next, owner, fields[1..]);
    }
  }

  lemma {:induction false} AddFieldRulesErrorFree(reg: Registry, owner: TypeID, fields: seq<Field>)
    requires ErrorFree(reg) && owner != ERROR_TYPE_ID && forall f | f in fields :: f.typ != ERROR_TYPE_ID
    ensures ErrorFree(reg.AddFieldRules(owner, fields))
    decreases |fields|
  {
    if fields != [] {
      var key := MemberKey(owner, fields[0].name);
      var next := if key in reg.member then reg
        else reg.(member := reg.member[key := MemberRule(FieldOf(fields[0].name), fields[0].typ)]);
      AddFieldRulesErrorFree(next, owner, fields[1..]);
    }
  }

  lemma AddTypeInv(reg: Registry, name: string, def: TypeDef)
    requires RegistryInv(reg) && name != ERROR_TYPE_ID && name !in reg.types && name !in reg.kinds
    requires def.shape != ModuleShape && forall f | f in def.fields :: f.typ != ERROR_TYPE_ID
    ensures RegistryInv(reg.(types := reg.types[name := def]))
  {
  }

  lemma ScriptTypeInv(reg: Registry, name: string, fields: seq<Field>)
    requires RegistryInv(reg) && reg.RegisterScriptType(name, fields).Success?
    ensures RegistryInv(reg.RegisterScriptType(name, fields).value)
  {
    var mid := reg.(types := reg.types[name := TypeDef(ScriptShape, fields)]);
    AddTypeInv(reg, name, TypeDef(ScriptShape, fields));
    AddFieldRulesIs(mid, name, fields);
    AddFieldRulesErrorFree(mid, name, fields);
  }

  lemma ScriptTypeErrorFree(reg: Registry, name: string, fields: seq<Field>)
    requires ErrorFree(reg) && reg.RegisterScriptType(name, fields).Success?
    ensures ErrorFree(reg.RegisterScriptType(name, fields).value)
  {
    var mid := reg.(types := reg.types[name := TypeDef(ScriptShape, fields)]);
    AddFieldRulesIs(mid, name, fields);
    assert ErrorFreeRules(mid);
    assert ErrorFreeTypes(mid);
    AddFieldRulesErrorFree(mid, name, fields);
  }

  lemma ScriptTypeExtends(reg: Registry, name: string, fields: seq<Field>)
    requires reg.RegisterScriptType(name, fields).Success?
    ensures Extends(reg, reg.RegisterScriptType(name, fields).value)
    ensures name in reg.RegisterScriptType(name, fields).value.types
  {
    AddFieldRulesIs(reg.(types := reg.types[name := TypeDef(ScriptShape, fields)]), name, fields);
  }

  lemma FieldRulesFit(reg: Registry, name: string, fields: seq<Field>)
    requires reg.RegisterScriptType(name, fields).Success?
    requires forall k | k in reg.member :: MemberFits(reg, k, reg.member[k])
    ensures var reg' := reg.RegisterScriptType(name, fields).value;
      forall k | k in reg'.member :: MemberFits(reg', k, reg'.member[k])
  {
    AddFieldRulesIs(reg.(types := reg.types[name := TypeDef(ScriptShape, fields)]), name, fields);
    var reg' := reg.RegisterScriptType(name, fields).value;
    forall k | k in reg'.member ensures MemberFits(reg', k, reg'.member[k]) {
      if k in reg.member {
        assert MemberFits(reg, k, reg.member[k]);
      }
    }
  }

  lemma ScriptTypeDuties(reg: Registry, name: string, fields: seq<Field>)
    requires HostDuties(reg) && reg.RegisterScriptType(name, fields).Success? && DistinctFields(fields)
    requires name !in CORE_IDS && name !in reg.modules
    ensures HostDuties(reg.RegisterScriptType(name, fields).value)
  {
    FieldRulesFit(reg, name, fields);
    AddFieldRulesIs(reg.(types := reg.types[name := TypeDef(ScriptShape, fields)]), name, fields);
  }

  lemma {:induction false} CheckFieldsIs(reg: Registry, decls: seq<FieldDecl>, seen: set<string>, fields: seq<Field>)
    requires CheckFields(reg, decls, seen, fields).Success?
    requires DistinctFields(fields) && forall f | f in fields :: f.name in seen && f.typ in reg.types
    ensures var all := CheckFields(reg, decls, seen, fields).value;
      DistinctFields(all) && forall f | f in all :: f.typ in reg.types
  {
    if decls != [] {
      CheckFieldsIs(reg, decls[1..], seen + {decls[0].name}, fields + [Field(decls[0].name, decls[0].typ)]);
    }
  }

  lemma QualifiedIsDotted(space: string, name: string)
    ensures '.' in Qualified(space, name) && Qualified(space, name) !in CORE_IDS
  {
    assert Qualified(space, name)[|space|] == '.';
  }

  lemma PortTypeOk(reg: Registry, t: TypeDecl, space: string, name: string)
    requires WfRegistry(reg) && CheckPortType(reg, t, space, name).Success?
    ensures var (reg', id) := CheckPortType(reg, t, space, name).value;
      WfRegistry(reg') && Extends(reg, reg') && id != ERROR_TYPE_ID
  {
    if t.Structural? {
      CheckFieldsIs(reg, t.fields, {}, []);
      var fields := CheckFields(reg, t.fields, {}, []).value;
      var id := Qualified(space, name);
      ScriptTypeInv(reg, id, fields);
      ScriptTypeExtends(reg, id, fields);
      QualifiedIsDotted(space, name);
      ScriptTypeDuties(reg, id, fields);
    }
  }

  /** What types under a registry types under any extension of it. */
  lemma {:induction false} WtExprMonotone(cx: Ctx, reg': Registry, e: RExpr)
    requires Extends(cx.reg, reg') && WtExpr(cx, e)
    ensures WtExpr(cx.(reg := reg'), e)
    decreases e
  {
    match e
    case RInfix(_, left, right, _, _) =>
      WtExprMonotone(cx, reg', left);
      WtExprMonotone(cx, reg', right);
    case RLogical(_, left, right) =>
      WtExprMonotone(cx, reg', left);
      WtExprMonotone(cx, reg', right);
    case RPrefix(_, right, _, _) => WtExprMonotone(cx, reg', right);
    case RCoerce(inner, _, _) => WtExprMonotone(cx, reg', inner);
    case RMember(receiver, _, _, _) => WtExprMonotone(cx, reg', receiver);
    case RCall(receiver, name, args, _, _) =>
      WtExprMonotone(cx, reg', receiver);
      forall i | 0 <= i < |args| ensures WtExpr(cx.(reg := reg'), args[i].value) {
        WtExprMonotone(cx, reg', args[i].value);
      }
    case _ =>
  }

  lemma WtDeclMonotone(cx: Ctx, reg': Registry, d: RDecl)
    requires Extends(cx.reg, reg') && WtDecl(cx, d)
    ensures WtDecl(cx.(reg := reg'), d)
  {
    match d
    case RConst(_, e, _) => WtExprMonotone(cx, reg', e);
    case RSlotDecl(_, init) => if init.Some? { WtExprMonotone(cx, reg', init.value); }
    case _ =>
  }

  // ---------- Declarations ----------

  /** A context of the load phase: one frame, and a registry fit to run against. */
  ghost predicate TopOk(cx: Ctx) {
    CtxOk(cx) && WfRegistry(cx.reg) && |cx.frames| == 1 && cx.phase == Loading
  }

  lemma WfIsRegOk(reg: Registry)
    requires WfRegistry(reg)
    ensures RegOk(reg)
  {
    forall k | k in reg.coerces ensures reg.coerces[k].evalType == k.to { assert CoerceFits(k, reg.coerces[k]); }
  }

  lemma SlotTyped(cx: Ctx, kind: DeclKind, slotType: Option<string>, init: Option<Expr>)
    requires CtxOk(cx) && SlotParts(cx, kind, slotType, init).Success?
    ensures var (t, value) := SlotParts(cx, kind, slotType, init).value;
      t != ERROR_TYPE_ID && (value.Some? ==> WtExpr(cx, value.value) && value.value.Type() == t)
  {
    if init.Some? {
      CheckExprTyped(cx, init.value);
      var r := CheckExpr(cx, init.value).value;
      CoerceToTyped(cx, r, if slotType.Some? then slotType.value else r.Type());
    }
  }

  lemma CheckDeclTyped(cx: Ctx, d: Decl)
    requires TopOk(cx) && CleanDecl(d) && CheckDecl(cx, d).Success?
    ensures var (reg', rd) := CheckDecl(cx, d).value;
      && WfRegistry(reg') && Extends(cx.reg, reg')
      && WtDecl(cx, rd) && SymbolOf(cx.reg, d) == Some(DeclSymbol(cx.reg, rd))
        && Lookup(cx.frames, DeclSymbol(cx.reg, rd)).None?
      && DeclBinding(cx.reg, rd).t != ERROR_TYPE_ID
      && ('.' in DeclSymbol(cx.reg, rd) ==> rd.RSlotDecl?)
  {
    match d
    case Const(_, value) => CheckExprTyped(cx, value.value);
    case Input(name, t) => PortTypeOk(cx.reg, t.value, "input", name.value);
    case Output(name, t) => PortTypeOk(cx.reg, t.value, "output", name.value);
    case Kind(word, _, slotType, init) => SlotTyped(cx, cx.reg.kinds[word], slotType, init);
  }

  /** The next context: the declaration bound, the registry possibly grown. */
  lemma NextOk(cx: Ctx, rd: RDecl, reg': Registry)
    requires TopOk(cx) && WtDecl(cx, rd) && WfRegistry(reg') && Extends(cx.reg, reg')
    requires Lookup(cx.frames, DeclSymbol(cx.reg, rd)).None? && DeclBinding(cx.reg, rd).t != ERROR_TYPE_ID
    requires '.' in DeclSymbol(cx.reg, rd) ==> rd.RSlotDecl?
    ensures TopOk(AfterDecl(cx, rd).(reg := reg'))
  {
    var cx' := AfterDecl(cx, rd).(reg := reg');
    WfIsRegOk(reg');
    forall x ensures BoundOk(cx', x) {
      LookupSetHead(cx.frames, DeclSymbol(cx.reg, rd), DeclBinding(cx.reg, rd), x);
      assert BoundOk(cx, x);
    }
  }

  lemma ExtendsTransitive(a: Registry, b: Registry, c: Registry)
    requires Extends(a, b) && Extends(b, c)
    ensures Extends(a, c)
  {
  }

  lemma CheckDeclStep(cx: Ctx, d: Decl)
    requires TopOk(cx) && CleanDecl(d) && CheckDecl(cx, d).Success?
    ensures var (reg', rd) := CheckDecl(cx, d).value;
      && TopOk(AfterDecl(cx, rd).(reg := reg')) && Extends(cx.reg, reg')
      && WtDecl(cx, rd) && Lookup(cx.frames, DeclSymbol(cx.reg, rd)).None?
  {
    CheckDeclTyped(cx, d);
    var (reg', rd) := CheckDecl(cx, d).value;
    NextOk(cx, rd, reg');
  }

  /** A declaration reads the same under the registry the whole program ends with. */
  lemma AfterDeclExtends(cx: Ctx, rd: RDecl, reg': Registry, done: Registry)
    requires Extends(cx.reg, reg') && Extends(reg', done)
    ensures DeclSymbol(done, rd) == DeclSymbol(cx.reg, rd)
    ensures AfterDecl(cx.(reg := done), rd) == AfterDecl(cx, rd).(reg := reg').(reg := done)
  {
  }

  lemma {:induction false} CheckDeclsTyped(cx: Ctx, decls: seq<Decl>)
    requires TopOk(cx) && (forall d | d in decls :: CleanDecl(d)) && CheckDecls(cx, decls).Success?
    ensures var (done, rds) := CheckDecls(cx, decls).value;
      && TopOk(done) && Extends(cx.reg, done.reg)
      && WtDecls(cx.(reg := done.reg), rds) && done == AfterDecls(cx.(reg := done.reg), rds)
    decreases |decls|
  {
    if decls != [] {
      CheckDeclStep(cx, decls[0]);
      var (reg', rd) := CheckDecl(cx, decls[0]).value;
      var next := AfterDecl(cx, rd).(reg := reg');
      CheckDeclsTyped(next, decls[1..]);
      var (done, rest) := CheckDecls(next, decls[1..]).value;
      ExtendsTransitive(cx.reg, reg', done.reg);
      AfterDeclExtends(cx, rd, reg', done.reg);
      WtDeclMonotone(cx, done.reg, rd);
      assert ([rd] + rest)[1..] == rest;
    }
  }

  // ---------- Programs ----------

  /** Which of its three parts the prelude takes a name from. */
  lemma PreludeAt(reg: Registry, x: string)
    requires x in Prelude(reg)
    ensures Prelude(reg)[x]
         == if x in RESERVED_IDENTS then PlainBinding(NO_TYPE_ID, KFunction)
            else if x in reg.kinds && reg.kinds[x].namespaced then PlainBinding(NO_TYPE_ID, KDeclWord)
            else PlainBinding(x, if x in reg.types && reg.types[x].shape == ModuleShape then KModule else KType)
    ensures x in RESERVED_IDENTS || x in reg.kinds || x in reg.types
  {
  }

  lemma PreludeBinding(reg: Registry, x: string)
    requires RegistryInv(reg) && DotlessTypes(reg) && x in Prelude(reg)
    ensures var b := Prelude(reg)[x];
      b.t != ERROR_TYPE_ID && b.Reserved() && b.slot.None? && !b.assignable && '.' !in x
    ensures Prelude(reg)[x].kind == KModule ==> x in reg.modules && Prelude(reg)[x].t == x
  {
    PreludeAt(reg, x);
    if x in reg.kinds {
      assert IsIdent(x);
    } else if x in reg.types {
      assert Dotless(x);
    }
  }

  lemma PreludeCoherent(reg: Registry, declared: set<string>)
    requires WfRegistry(reg) && DotlessTypes(reg)
    ensures TopOk(Opening(reg, declared))
  {
    var cx := Opening(reg, declared);
    WfIsRegOk(reg);
    forall x ensures BoundOk(cx, x) {
      if x in Prelude(reg) {
        PreludeBinding(reg, x);
      }
    }
  }

  lemma PreludeIsOk(reg: Registry, reg': Registry)
    requires WfRegistry(reg) && DotlessTypes(reg) && WfRegistry(reg') && reg'.modules == reg.modules
    ensures Safety.PreludeOk(reg', Prelude(reg))
  {
    forall x | x in Prelude(reg) ensures Prelude(reg)[x].Reserved() { PreludeBinding(reg, x); }
    forall x | x in Prelude(reg) && Prelude(reg)[x].kind == KModule ensures x in reg'.modules
      && Prelude(reg)[x].t == x { PreludeBinding(reg, x); }
    forall m | m in reg'.modules ensures m in Prelude(reg) && m !in CORE_IDS
      && reg'.FieldsOf(m) == [] { assert m in reg.types; }
  }

  /** Acceptance implies typing: the registry stays well formed, and the program is well typed against it. */
  lemma CheckProgramTyped(reg: Registry, p: Program)
    requires WfRegistry(reg) && DotlessTypes(reg) && CleanProgram(p) && CheckProgram(reg, p).Success?
    ensures var (reg', rp) := CheckProgram(reg, p).value;
      && WfRegistry(reg') && Extends(reg, reg') && Safety.PreludeOk(reg', Prelude(reg))
      && WtProgram(Opening(reg, DeclaredNames(reg, p.decls)).(reg := reg'), rp)
  {
    var opening := Opening(reg, DeclaredNames(reg, p.decls));
    PreludeCoherent(reg, opening.declared);
    CheckDeclsTyped(opening, p.decls);
    var (cx, rds) := CheckDecls(opening, p.decls).value;
    if p.initFn.Some? {
      BodyTyped(cx, InInit, p.initFn.value);
    }
    BodyTyped(cx, InRun, p.runFn.value);
    PreludeIsOk(reg, cx.reg);
  }

  lemma BodyTyped(cx: Ctx, phase: Phase, body: seq<Stmt>)
    requires CtxOk(cx) && CleanBlock(body) && CheckBlock(cx.(phase := phase).Enter(), body).Success?
    ensures WtBlock(cx.(phase := phase).Enter(), CheckBlock(cx.(phase := phase).Enter(), body).value)
  {
    var inner := cx.(phase := phase);
    forall x ensures BoundOk(inner, x) { assert BoundOk(cx, x); }
    EnterOk(inner);
    CheckBlockTyped(inner.Enter(), body);
  }
}
