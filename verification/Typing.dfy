/**
 The type system of the resolved language: which resolved programs the evaluator may run. The resolver's
 output is proved to satisfy it (CheckedPrograms.dfy, AcceptedPrograms.dfy), and the evaluator to be safe on it
 (Soundness.dfy, RunSafety.dfy, Safety.dfy).
 */
module Typing {
  import opened Wrappers
  import opened Tokens
  import opened Values
  import opened Registries
  import opened Scopes
  import opened Resolved

  datatype BindingKind = KLet | KConst | KInput | KOutput | KModule | KFunction | KType | KSlot | KDeclWord

  /** A name's static meaning (resolver/env.go). */
  datatype Binding = Binding(t: TypeID, kind: BindingKind, slot: Option<Slot>, assignable: bool)
  {
    predicate Readable() {
      kind in {KLet, KConst, KInput, KSlot}
    }

    predicate Reserved() {
      kind in {KModule, KFunction, KType, KDeclWord}
    }
  }

  function PlainBinding(t: TypeID, kind: BindingKind): Binding {
    Binding(t, kind, None, false)
  }

  function LetBinding(t: TypeID): Binding {
    Binding(t, KLet, None, true)
  }

  function SlotBinding(slot: Slot, assignable: bool): Binding {
    Binding(slot.t, KSlot, Some(slot), assignable)
  }

  datatype Phase = Loading | InInit | InRun

  type Symbols = seq<map<string, Binding>>

  /**
   Where resolution stands: the frames in scope, the slots declared so far, and every top-level name of the program.
   */
  datatype Ctx = Ctx(reg: Registry, phase: Phase, frames: Symbols, slots: seq<Slot>, declared: set<string>)
  {
    function Enter(): Ctx {
      this.(frames := [map[]] + frames)
    }
  }

  /** A binding the evaluator's environment holds a value for. */
  predicate InEnvironment(phase: Phase, b: Binding) {
    b.kind in {KLet, KConst, KModule} || (b.kind == KInput && phase == InRun)
  }

  predicate WtExpr(cx: Ctx, e: RExpr)
    decreases e
  {
    match e
    case RBad => false
    case RInt(_) => true
    case RFloat(_) => true
    case RStr(_) => true
    case RBool(_) => true
    case RIdent(name, t) =>
      var b := Lookup(cx.frames, name);
      b.Some? && InEnvironment(cx.phase, b.value) && b.value.t == t
    case RSlot(slot) => slot.index < |cx.slots| && cx.slots[slot.index] == slot
    case RInfix(op, left, right, t, fn) =>
      WtExpr(cx, left) && WtExpr(cx, right)
        && cx.reg.LookupBinary(op, left.Type(), right.Type()) == Some(BinaryRule(fn, t))
    case RLogical(op, left, right) =>
      op in {AND, OR} && WtExpr(cx, left) && WtExpr(cx, right) && left.Type() == BOOL_ID == right.Type()
    case RPrefix(op, right, t, fn) =>
      WtExpr(cx, right) && cx.reg.LookupUnary(op, right.Type()) == Some(UnaryRule(fn, t))
    case RCoerce(inner, t, fn) =>
      WtExpr(cx, inner) && cx.reg.LookupCoerce(inner.Type(), t) == Some(CoerceRule(fn, t))
    case RMember(receiver, name, t, fn) =>
      WtExpr(cx, receiver) && cx.reg.LookupMember(receiver.Type(), name) == Some(MemberRule(fn, t))
    case RCall(receiver, name, args, t, fn) =>
      && WtExpr(cx, receiver)
      && var rule := cx.reg.LookupCall(receiver.Type(), name);
      && rule.Some? && rule.value.fn == fn && rule.value.evalType == t
      && WtArgs(cx, rule.value.params, args)
  }

  /** One argument per parameter, in parameter order, named and typed as the parameter is. */
  predicate WtArgs(cx: Ctx, params: seq<Param>, args: seq<RArg>)
    decreases args
  {
    && |args| == |params|
    && forall i | 0 <= i < |args| ::
         args[i].name == params[i].name && args[i].value.Type() == params[i].typ && WtExpr(cx, args[i].value)
  }

  /** The context a statement leaves to the ones after it in its block. */
  function After(cx: Ctx, s: RStmt): Ctx {
    if s.RLet? && cx.frames != [] then cx.(frames := SetHead(cx.frames, s.name, LetBinding(s.t))) else cx
  }

  predicate WtStmt(cx: Ctx, s: RStmt)
    decreases s, 0
  {
    match s
    case RBadStmt => false
    case RExprStmt(e) => WtExpr(cx, e)
    case RLet(name, e, t) => WtExpr(cx, e) && e.Type() == t && Lookup(cx.frames, name).None?
    case RAssignName(name, e, t) =>
      var b := Lookup(cx.frames, name);
      WtExpr(cx, e) && e.Type() == t && b.Some? && b.value.kind == KLet && b.value.t == t
    case RAssignSlot(slot, e, t) =>
      WtExpr(cx, e) && e.Type() == t == slot.t && slot.index < |cx.slots| && cx.slots[slot.index] == slot
    case RBlock(stmts) => WtBlock(cx.Enter(), stmts)
    case RIf(cond, consequence, alternative) =>
      && WtExpr(cx, cond) && cond.Type() == BOOL_ID && WtBlock(cx.Enter(), consequence)
      && (alternative.Some? ==> (alternative.value.RBlock? || alternative.value.RIf?) && WtStmt(cx, alternative.value))
    case REmit(output, args, t) =>
      var b := Lookup(cx.frames, output);
      && cx.phase == InRun && b.Some? && b.value.kind == KOutput && b.value.t == t
      && WtArgs(cx, cx.reg.EmitRule(t).params, args)
  }

  predicate WtBlock(cx: Ctx, stmts: seq<RStmt>)
    decreases stmts, 1
  {
    stmts == [] || (WtStmt(cx, stmts[0]) && WtBlock(After(cx, stmts[0]), stmts[1..]))
  }

  // ---------- Declarations ----------

  /** The qualified name of a namespaced declaration; no identifier holds a dot. */
  function Qualified(word: string, name: string): string {
    word + "." + name
  }

  function SlotSymbol(kind: DeclKind, name: string): string {
    if kind.namespaced then Qualified(kind.word, name) else name
  }

  /** A declaration is well typed after the ones above it; sc is the symbol it would bind. */
  predicate WtDecl(cx: Ctx, d: RDecl) {
    match d
    case RConst(_, e, t) => WtExpr(cx, e) && e.Type() == t
    case RInput(_, _) => true
    case ROutput(_, _) => true
    case RSlotDecl(slot, init) =>
      slot.index == |cx.slots| && (init.Some? ==> WtExpr(cx, init.value) && init.value.Type() == slot.t)
  }

  function DeclSymbol(reg: Registry, d: RDecl): string {
    match d
    case RConst(name, _, _) => name
    case RInput(name, _) => name
    case ROutput(name, _) => name
    case RSlotDecl(slot, _) => if slot.kind in reg.kinds then SlotSymbol(reg.kinds[slot.kind], slot.name) else slot.name
  }

  function DeclBinding(reg: Registry, d: RDecl): Binding {
    match d
    case RConst(_, _, t) => PlainBinding(t, KConst)
    case RInput(_, t) => PlainBinding(t, KInput)
    case ROutput(_, t) => PlainBinding(t, KOutput)
    case RSlotDecl(slot, _) => SlotBinding(slot, slot.kind in reg.kinds && reg.kinds[slot.kind].assignable)
  }

  /** The context a declaration leaves to the ones below it. */
  function AfterDecl(cx: Ctx, d: RDecl): Ctx {
    var cx' := if cx.frames == [] then cx
      else cx.(frames := SetHead(cx.frames, DeclSymbol(cx.reg, d), DeclBinding(cx.reg, d)));
    if d.RSlotDecl? then cx'.(slots := cx.slots + [d.slot]) else cx'
  }

  function AfterDecls(cx: Ctx, ds: seq<RDecl>): Ctx
    decreases |ds|
  {
    if ds == [] then cx else AfterDecls(AfterDecl(cx, ds[0]), ds[1..])
  }

  predicate WtDecls(cx: Ctx, ds: seq<RDecl>)
    decreases |ds|
  {
    ds == [] || (WtDecl(cx, ds[0]) && Lookup(cx.frames, DeclSymbol(cx.reg, ds[0])).None?
      && WtDecls(AfterDecl(cx, ds[0]), ds[1..]))
  }

  /** What a program may name before it declares anything. */
  function Prelude(reg: Registry): map<string, Binding> {
    (map t | t in reg.types :: PlainBinding(t, if reg.types[t].shape == ModuleShape then KModule else KType))
    + (map w | w in reg.kinds && reg.kinds[w].namespaced :: PlainBinding(NO_TYPE_ID, KDeclWord))
    + (map w | w in RESERVED_IDENTS :: PlainBinding(NO_TYPE_ID, KFunction))
  }

  /** Where the load phase starts: the prelude in scope, no slot declared. */
  function Opening(reg: Registry, declared: set<string>): Ctx {
    Ctx(reg, Loading, [Prelude(reg)], [], declared)
  }

  /** A program is well typed when each declaration is, and both bodies are after all of them. */
  predicate WtProgram(start: Ctx, p: RProgram) {
    var done := AfterDecls(start, p.decls);
    && WtDecls(start, p.decls)
    && (p.initFn.Some? ==> WtBlock(done.(phase := InInit).Enter(), p.initFn.value))
    && WtBlock(done.(phase := InRun).Enter(), p.runFn)
  }
}
