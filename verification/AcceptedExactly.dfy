/**
 Which programs are accepted, said without checking: those whose declarations and bodies have resolutions, in source
 order, each in the scope the ones above it leave. The checker finds exactly these.
 */
module AcceptedExactly {
  import opened Wrappers
  import opened Tokens
  import opened Values
  import opened Registries
  import opened WellFormed
  import opened Scopes
  import opened Ast
  import opened Resolved
  import opened Typing
  import opened Elaboration
  import opened CheckedPrograms
  import opened AcceptedPrograms
  import opened Erasure
  import opened Acceptance

  function AsFields(fields: seq<FieldDecl>): seq<Field> {
    seq(|fields|, i requires 0 <= i < |fields| => Field(fields[i].name, fields[i].typ))
  }

  /** No field twice, and each of a known type. */
  predicate FieldsFit(reg: Registry, fields: seq<FieldDecl>) {
    && (forall i, j | 0 <= i < j < |fields| :: fields[i].name != fields[j].name)
    && forall i | 0 <= i < |fields| :: fields[i].typ in reg.types
  }

  /** A port's type changes the registry only if it is an inline one, which is then registered. */
  predicate PortFits(reg: Registry, reg': Registry, t: TypeDecl, space: string, name: string) {
    match t
    case Named(_) => reg' == reg
    case Structural(fields) =>
      FieldsFit(reg, fields) && reg.RegisterScriptType(Qualified(space, name), AsFields(fields)) == Success(reg')
  }

  /** What a kind asks of its slots: whether there is an initializer, and of which types they may be. */
  predicate KindAllows(kind: DeclKind, t: TypeID, hasInit: bool) {
    && (kind.init.InitRequired? ==> hasInit) && (kind.init.InitForbidden? ==> !hasInit)
    && (kind.allowed == [] || t in kind.allowed)
  }

  /** r is the resolution of d, and reg' the registry it leaves. */
  ghost predicate DeclResolves(cx: Ctx, r: RDecl, reg': Registry, d: Decl) {
    && DeclReadsBack(reg', r, d) && WtDecl(cx, r) && Lookup(cx.frames, DeclSymbol(cx.reg, r)).None?
    && match r
       case RConst(_, value, _) => reg' == cx.reg && Direct(cx, value)
       case RInput(name, _) => PortFits(cx.reg, reg', d.portType.value, "input", name)
       case ROutput(name, _) => PortFits(cx.reg, reg', d.portType.value, "output", name)
       case RSlotDecl(slot, init) =>
         && reg' == cx.reg && slot.kind in cx.reg.kinds && KindAllows(cx.reg.kinds[slot.kind], slot.t, init.Some?)
         && (d.slotType.Some? ==> slot.t in cx.reg.types)
         && (init.Some? ==> if d.slotType.Some? then Fitted(cx, init.value, slot.t) else Direct(cx, init.value))
  }

  ghost predicate DeclsResolve(cx: Ctx, rs: seq<RDecl>, ds: seq<Decl>, after: Ctx)
    decreases |ds|
  {
    if ds == [] then rs == [] && after == cx
    else
      rs != [] && exists reg' ::
        DeclResolves(cx, rs[0], reg', ds[0])
          && DeclsResolve(AfterDecl(cx, rs[0]).(reg := reg'), rs[1..], ds[1..], after)
  }

  /** Both bodies in scopes of their own inside that of all declarations. */
  ghost predicate BodiesResolve(cx: Ctx, r: RProgram, p: Program) {
    && (r.initFn.Some? <==> p.initFn.Some?)
    && (r.initFn.Some? ==> BlockResolves(cx.(phase := InInit).Enter(), r.initFn.value, p.initFn.value))
    && p.runFn.Some? && BlockResolves(cx.(phase := InRun).Enter(), r.runFn, p.runFn.value)
  }

  ghost predicate ProgramResolves(reg: Registry, reg': Registry, r: RProgram, p: Program) {
    exists cx :: DeclsResolve(Opening(reg, DeclaredNames(reg, p.decls)), r.decls, p.decls, cx) && cx.reg == reg'
      && BodiesResolve(cx, r, p)
  }

  // ---------- Ports ----------

  lemma {:induction false} FieldsExactly(reg: Registry, decls: seq<FieldDecl>, seen: set<string>, fields: seq<Field>)
    ensures CheckFields(reg, decls, seen, fields).Success?
      <==> FieldsFit(reg, decls) && forall i | 0 <= i < |decls| :: decls[i].name !in seen
    ensures CheckFields(reg, decls, seen, fields).Success? ==>
      CheckFields(reg, decls, seen, fields).value == fields + AsFields(decls)
    decreases |decls|
  {
    if decls != [] {
      var f, rest := decls[0], decls[1..];
      FieldsExactly(reg, rest, seen + {f.name}, fields + [Field(f.name, f.typ)]);
      assert forall i | 0 < i < |decls| :: decls[i] == rest[i - 1];
      assert AsFields(decls) == [Field(f.name, f.typ)] + AsFields(rest);
      assert fields + [Field(f.name, f.typ)] + AsFields(rest) == fields + AsFields(decls);
      if FieldsFit(reg, decls) {
        assert FieldsFit(reg, rest);
        assert forall i | 0 <= i < |rest| :: rest[i].name == decls[i + 1].name;
      }
      if FieldsFit(reg, rest) && (forall i | 0 <= i < |rest| ::
        rest[i].name !in seen + {f.name}) && f.typ in reg.types {
        forall i, j | 0 <= i < j < |decls| ensures decls[i].name != decls[j].name {
          assert decls[j] == rest[j - 1];
          if i > 0 { assert decls[i] == rest[i - 1]; }
        }
      }
    } else {
      assert fields + AsFields(decls) == fields;
    }
  }

  lemma PortExactly(reg: Registry, t: TypeDecl, space: string, name: string, reg': Registry, id: TypeID)
    ensures CheckPortType(reg, t, space, name) == Success((reg', id))
      <==> PortFits(reg, reg', t, space, name) && TypeReadsBack(reg', id, t, space, name)
  {
    if t.Structural? {
      FieldsExactly(reg, t.fields, {}, []);
      assert [] + AsFields(t.fields) == AsFields(t.fields);
      if CheckPortType(reg, t, space, name) == Success((reg', id)) {
        PortTypeReadsBack(reg, t, space, name);
      }
    }
  }

  // ---------- Declarations ----------

  /** The scope between declarations. */
  ghost predicate TopInOrder(cx: Ctx) {
    TopOk(cx) && SlotsNamed(cx)
  }

  lemma TopIsInOrder(cx: Ctx)
    requires TopInOrder(cx)
    ensures InOrder(cx) && WordsFit(cx.reg.kinds)
  {
    hide CtxOk, SlotsNamed, BinaryFits, UnaryFits, MemberFits, CoerceFits, ErrorFree;
  }

  lemma SlotFound(cx: Ctx, d: Decl, r: RDecl)
    requires InOrder(cx) && WordsFit(cx.reg.kinds) && r.RSlotDecl? && DeclResolves(cx, r, cx.reg, d)
    ensures CheckDecl(cx, d) == Success((cx.reg, r))
  {
    hide InOrder, CheckExpr, ReadsBack, WtExpr, Direct, Fitted, CoerceTo;
    if r.init.Some? {
      if d.slotType.Some? {
        var _ := FittedIsCoerced(cx, r.init.value, r.slot.t, d.init.value);
      } else {
        ExprFound(cx, r.init.value, d.init.value);
      }
    }
  }

  lemma DeclFound(cx: Ctx, d: Decl, r: RDecl, reg': Registry)
    requires TopInOrder(cx) && CleanDecl(d) && DeclResolves(cx, r, reg', d)
    ensures CheckDecl(cx, d) == Success((reg', r))
  {
    hide InOrder, TopOk, SlotsNamed, CheckExpr, ReadsBack, WtExpr, Direct, Fitted, CheckPortType, TypeReadsBack,
      PortFits, CheckKind;
    TopIsInOrder(cx);
    match r
    case RConst(_, value, _) => ExprFound(cx, value, d.constValue.value);
    case RInput(name, t) => PortExactly(cx.reg, d.portType.value, "input", name, reg', t);
    case ROutput(name, t) => PortExactly(cx.reg, d.portType.value, "output", name, reg', t);
    case RSlotDecl(_, _) => SlotFound(cx, d, r);
  }

  lemma SlotFits(cx: Ctx, d: Decl)
    requires InOrder(cx) && CleanDecl(d) && d.Kind? && CheckDecl(cx, d).Success?
    ensures var (reg', r) := CheckDecl(cx, d).value;
      && reg' == cx.reg && r.RSlotDecl? && d.word in cx.reg.kinds && r.slot.kind == cx.reg.kinds[d.word].word
      && KindAllows(cx.reg.kinds[d.word], r.slot.t, r.init.Some?)
      && (d.slotType.Some? ==> r.slot.t in cx.reg.types)
      && (r.init.Some? ==> if d.slotType.Some? then Fitted(cx, r.init.value, r.slot.t) else Direct(cx, r.init.value))
  {
    hide InOrder, CheckExpr, Direct, Fitted, CoerceTo;
    if d.init.Some? {
      ExprIsDirect(cx, d.init.value);
      if d.slotType.Some? {
        CoercedIsFitted(cx, CheckExpr(cx, d.init.value).value, d.slotType.value);
      }
    }
  }

  lemma DeclIsResolution(cx: Ctx, d: Decl)
    requires TopInOrder(cx) && CleanDecl(d) && CheckDecl(cx, d).Success?
    ensures var (reg', r) := CheckDecl(cx, d).value; DeclResolves(cx, r, reg', d)
  {
    hide InOrder, TopOk, SlotsNamed, CheckExpr, ReadsBack, WtExpr, Direct, Fitted, CheckPortType, TypeReadsBack,
      PortFits, CheckKind, WordsFit;
    TopIsInOrder(cx);
    CheckedDeclReadsBack(cx, d);
    CheckDeclTyped(cx, d);
    var (reg', r) := CheckDecl(cx, d).value;
    match d
    case Const(_, value) => ExprIsDirect(cx, value.value);
    case Input(name, t) => PortExactly(cx.reg, t.value, "input", name.value, reg', r.t);
    case Output(name, t) => PortExactly(cx.reg, t.value, "output", name.value, reg', r.t);
    case Kind(word, _, _, _) =>
      SlotFits(cx, d);
      WordFits(cx.reg.kinds, word);
  }

  lemma WordFits(kinds: Kinds, w: string)
    requires WordsFit(kinds) && w in kinds
    ensures kinds[w].word == w
  {
  }

  lemma NextInOrder(cx: Ctx, d: Decl)
    requires TopInOrder(cx) && CleanDecl(d) && CheckDecl(cx, d).Success?
    ensures var (reg', r) := CheckDecl(cx, d).value; TopInOrder(AfterDecl(cx, r).(reg := reg'))
  {
    hide InOrder, CtxOk, SlotsNamed, CheckDecl, AfterDecl, WfRegistry;
    TopIsInOrder(cx);
    CheckDeclStep(cx, d);
    CheckedDeclReadsBack(cx, d);
    AfterDeclNamed(cx, d);
  }

  lemma {:induction false} DeclsFound(cx: Ctx, ds: seq<Decl>, rs: seq<RDecl>, after: Ctx)
    requires TopInOrder(cx) && (forall d | d in ds :: CleanDecl(d)) && DeclsResolve(cx, rs, ds, after)
    ensures CheckDecls(cx, ds) == Success((after, rs))
    decreases |ds|
  {
    hide TopInOrder, CleanDecl, CheckDecl, DeclResolves, AfterDecl;
    if ds != [] {
      var reg' :| DeclResolves(cx, rs[0], reg', ds[0])
        && DeclsResolve(AfterDecl(cx, rs[0]).(reg := reg'), rs[1..], ds[1..], after);
      DeclFound(cx, ds[0], rs[0], reg');
      NextInOrder(cx, ds[0]);
      DeclsFound(AfterDecl(cx, rs[0]).(reg := reg'), ds[1..], rs[1..], after);
      assert rs == [rs[0]] + rs[1..];
    }
  }

  lemma {:induction false} DeclsAreResolution(cx: Ctx, ds: seq<Decl>)
    requires TopInOrder(cx) && (forall d | d in ds :: CleanDecl(d)) && CheckDecls(cx, ds).Success?
    ensures var (after, rs) := CheckDecls(cx, ds).value; DeclsResolve(cx, rs, ds, after) && TopInOrder(after)
    decreases |ds|
  {
    hide TopInOrder, CleanDecl, CheckDecl, DeclResolves, AfterDecl;
    if ds != [] {
      DeclIsResolution(cx, ds[0]);
      NextInOrder(cx, ds[0]);
      var (reg', r) := CheckDecl(cx, ds[0]).value;
      DeclsAreResolution(AfterDecl(cx, r).(reg := reg'), ds[1..]);
      var (after, rs) := CheckDecls(cx, ds).value;
      assert rs[0] == r && rs[1..] == CheckDecls(AfterDecl(cx, r).(reg := reg'), ds[1..]).value.1;
    }
  }

  // ---------- Programs ----------

  lemma BodyExactly(cx: Ctx, phase: Phase, stmts: seq<Stmt>, rs: seq<RStmt>)
    requires TopInOrder(cx) && CleanBlock(stmts)
    ensures CheckBlock(cx.(phase := phase).Enter(), stmts) == Success(rs) <==>
      BlockResolves(cx.(phase := phase).Enter(), rs, stmts)
  {
    hide SlotsNamed, CheckBlock, BlockResolves, CleanBlock, RegOk, WfRegistry;
    TopIsInOrder(cx);
    var inner := cx.(phase := phase);
    SameNames(cx, inner);
    assert InOrder(inner) by {
      forall x ensures BoundOk(inner, x) { assert BoundOk(cx, x); }
    }
    hide InOrder;
    EnterInOrder(inner);
    BlocksExactly(inner.Enter(), stmts, rs);
  }

  lemma OpeningInOrder(reg: Registry, declared: set<string>)
    requires WfRegistry(reg) && DotlessTypes(reg)
    ensures TopInOrder(Opening(reg, declared))
  {
    hide SlotsNamed, TopOk, Prelude, HostDuties, ErrorFree;
    PreludeCoherent(reg, declared);
    OpeningNamed(reg, declared);
  }

  lemma BodiesExactly(cx: Ctx, decls: seq<RDecl>, p: Program, r: RProgram)
    requires TopInOrder(cx) && CleanProgram(p) && r.decls == decls
    ensures CheckInit(cx, p.initFn) == Success(r.initFn)
      && CheckBlock(cx.(phase := InRun).Enter(), p.runFn.value) == Success(r.runFn)
      <==> BodiesResolve(cx, r, p)
  {
    hide TopInOrder, CheckBlock, BlockResolves, CleanBlock, CleanDecl;
    if p.initFn.Some? && r.initFn.Some? {
      BodyExactly(cx, InInit, p.initFn.value, r.initFn.value);
    }
    BodyExactly(cx, InRun, p.runFn.value, r.runFn);
  }

  /** A program is accepted exactly if it has a resolution, and resolves to that, and to that registry. */
  lemma ProgramsExactly(reg: Registry, p: Program, reg': Registry, r: RProgram)
    requires WfRegistry(reg) && DotlessTypes(reg) && CleanProgram(p)
    ensures CheckProgram(reg, p) == Success((reg', r)) <==> ProgramResolves(reg, reg', r, p)
  {
    hide TopInOrder, CheckDecls, CheckBlock, CheckInit, DeclsResolve, BodiesResolve, CleanBlock, CleanDecl, WfRegistry,
      Prelude;
    var opening := Opening(reg, DeclaredNames(reg, p.decls));
    OpeningInOrder(reg, DeclaredNames(reg, p.decls));
    if CheckProgram(reg, p) == Success((reg', r)) {
      DeclsAreResolution(opening, p.decls);
      var cx := CheckDecls(opening, p.decls).value.0;
      BodiesExactly(cx, r.decls, p, r);
      assert ProgramResolves(reg, reg', r, p);
    }
    if ProgramResolves(reg, reg', r, p) {
      var cx :| DeclsResolve(opening, r.decls, p.decls, cx) && cx.reg == reg' && BodiesResolve(cx, r, p);
      DeclsFound(opening, p.decls, r.decls, cx);
      DeclsAreResolution(opening, p.decls);
      BodiesExactly(cx, r.decls, p, r);
    }
  }
}
