/**
 The static semantics of scripts, as a checker that stops at the first error. It says which programs are
 accepted, what each is resolved to, and what is wrong first with the others. The resolver, which recovers
 and carries on, is proved to reach the same verdict and the same first diagnostic (Resolvers.dfy).
 */
module Elaboration {
  import opened Wrappers
  import opened Tokens
  import opened Values
  import opened Registries
  import opened Scopes
  import opened Ast
  import opened Resolved
  import opened Typing

  datatype Code =
    | DuplicateDeclaration | ReservedName | UndefinedIdent | UndefinedVar | UndefinedType | UndefinedAttribute
    | UndefinedMethod | UndefinedFunc | UseBeforeDeclaration | NotReadable | NotAssignable | NotIndexable | NotCallable
    | InputInInit | InvalidBinaryOp | InvalidUnaryOp | InvalidAssignTarget | InvalidEmitTarget | EmitOutsideRun
    | EmitNotExpression | ArgCountMismatch | ArgMissing | ArgDuplicate | ArgUnknown | TypeMismatch
    | SlotUndeclared | UnknownDeclKeyword | InitializerRequired | InitializerForbidden | TypeRequired
    | DeclTypeNotAllowed | TypeRegistrationFail
    | Malformed // a node the parser reports and never hands over

  type Check<T> = Result<T, Code>

  function Require(holds: bool, code: Code): Check<()> {
    if holds then Success(()) else Failure(code)
  }

  function OrFail<T>(o: Option<T>, code: Code): Check<T> {
    match o case Some(v) => Success(v) case None => Failure(code)
  }

  /** A value used where type t is wanted: as it is, or through the registered coercion. */
  function CoerceTo(reg: Registry, r: RExpr, t: TypeID): Option<RExpr> {
    if r.Type() == t then Some(r)
    else match reg.LookupCoerce(r.Type(), t)
      case Some(rule) => Some(RCoerce(r, rule.evalType, rule.fn))
      case None => None
  }

  // ---------- Expressions ----------

  function Undeclared(cx: Ctx, symbol: string, otherwise: Code): Code {
    if cx.phase == Loading && symbol in cx.declared then UseBeforeDeclaration else otherwise
  }

  function CheckIdent(cx: Ctx, name: string): Check<RExpr> {
    match Lookup(cx.frames, name)
    case None => Failure(Undeclared(cx, name, UndefinedIdent))
    case Some(b) =>
      if !b.Readable() then Failure(NotReadable)
      else if b.kind == KInput && cx.phase != InRun then Failure(InputInInit)
      else if b.slot.Some? then Success(RSlot(b.slot.value))
      else Success(RIdent(name, b.t))
  }

  predicate IsDeclWord(cx: Ctx, e: Expr) {
    e.Ident? && var b := Lookup(cx.frames, e.name); b.Some? && b.value.kind == KDeclWord
  }

  function CheckSlotRef(cx: Ctx, word: string, name: string): Check<RExpr> {
    var symbol := Qualified(word, name);
    match Lookup(cx.frames, symbol)
    case None => Failure(Undeclared(cx, symbol, SlotUndeclared))
    case Some(b) => match b.slot case Some(slot) => Success(RSlot(slot)) case None => Failure(Malformed)
  }

  function CheckExpr(cx: Ctx, e: Expr): Check<RExpr>
    decreases e, 1
  {
    match e
    case BadExpr => Failure(Malformed)
    case IntLit(n) => Success(RInt(n))
    case FloatLit(f) => Success(RFloat(f))
    case StrLit(s) => Success(RStr(s))
    case BoolLit(b) => Success(RBool(b))
    case Ident(name) => CheckIdent(cx, name)
    case Infix(op, left, right) =>
      var l :- CheckExpr(cx, left);
      var r :- CheckExpr(cx, right);
      if op in {AND, OR} then
        var _ :- Require(l.Type() == BOOL_ID && r.Type() == BOOL_ID, TypeMismatch);
        Success(RLogical(op, l, r))
      else
        var rule :- OrFail(cx.reg.LookupBinary(op, l.Type(), r.Type()), InvalidBinaryOp);
        Success(RInfix(op, l, r, rule.evalType, rule.fn))
    case Prefix(op, right) =>
      var r :- CheckExpr(cx, right);
      var rule :- OrFail(cx.reg.LookupUnary(op, r.Type()), InvalidUnaryOp);
      Success(RPrefix(op, r, rule.evalType, rule.fn))
    case Member(receiver, name) =>
      if IsDeclWord(cx, receiver) then CheckSlotRef(cx, receiver.name, name) else
      var o :- CheckReceiver(cx, receiver);
      var rule :- OrFail(cx.reg.LookupMember(o.Type(), name), UndefinedAttribute);
      Success(RMember(o, name, rule.evalType, rule.fn))
    case Index(left, index) =>
      var _ :- CheckExpr(cx, left);
      var _ :- CheckExpr(cx, index);
      Failure(NotIndexable)
    case Call(callee, args, kwargs) =>
      match callee
      case Member(receiver, name) =>
        var o :- CheckReceiver(cx, receiver);
        var rule :- OrFail(cx.reg.LookupCall(o.Type(), name), UndefinedMethod);
        var all :- CheckArgs(cx, rule.params, e, 0);
        Success(RCall(o, name, all, rule.evalType, rule.fn))
      case Ident(name) => Failure(if name == "emit" then EmitNotExpression else UndefinedFunc)
      case _ => Failure(NotCallable)
  }

  /** The head of a member access or call: a module stands for itself here and nowhere else. */
  function CheckReceiver(cx: Ctx, e: Expr): Check<RExpr>
    decreases e, 2
  {
    var b := if e.Ident? then Lookup(cx.frames, e.name) else None;
    if b.Some? && b.value.kind == KModule then Success(RIdent(e.name, b.value.t)) else CheckExpr(cx, e)
  }

  // ---------- Arguments ----------

  /**
   The arguments of a call, one per parameter. Leading arguments were consumed before this point (the output
   of an emit).
   */
  function CheckArgs(cx: Ctx, params: seq<Param>, call: Expr, leading: nat): Check<seq<RArg>>
    requires call.Call? && leading <= |call.args|
    decreases call, 0
  {
    var args := if leading == 0 then call.args else call.args[leading..];
    var _ :- Require(|args| + |call.kwargs| == |params|, ArgCountMismatch);
    var placed :- CheckPositional(cx, params, args, 0, map[]);
    var filled :- CheckKeywords(cx, params, call.kwargs, placed);
    Collect(params, filled)
  }

  function CheckArg(cx: Ctx, param: Param, e: Expr): Check<RArg>
    decreases e, 2
  {
    var r :- CheckExpr(cx, e);
    if r.Type() == param.typ then Success(RArg(param.name, r)) else
    var coerced :- OrFail(if param.exact then None else CoerceTo(cx.reg, r, param.typ), TypeMismatch);
    Success(RArg(param.name, coerced))
  }

  /** Positional arguments from the i-th on, each filling the parameter at its own index. */
  function CheckPositional(cx: Ctx, params: seq<Param>, args: seq<Expr>, i: nat,
      filled: map<nat, RArg>): Check<map<nat, RArg>>
    requires i <= |args| <= |params|
    decreases args, 3, |args| - i
  {
    if i == |args| then Success(filled) else
    var arg :- CheckArg(cx, params[i], args[i]);
    CheckPositional(cx, params, args, i + 1, filled[i := arg])
  }

  function FindParam(params: seq<Param>, name: string): (r: Option<nat>)
    ensures r.Some? ==> r.value < |params| && params[r.value].name == name
    ensures r.None? ==> forall p | p in params :: p.name != name
  {
    if params == [] then None
    else if params[0].name == name then Some(0)
    else match FindParam(params[1..], name) case Some(i) => Some(i + 1) case None => None
  }

  function CheckKeyword(cx: Ctx, params: seq<Param>, kw: Kwarg, filled: map<nat, RArg>): Check<map<nat, RArg>>
    decreases kw, 3
  {
    var i :- OrFail(FindParam(params, kw.key), ArgUnknown);
    var _ :- Require(i !in filled, ArgDuplicate);
    var arg :- CheckArg(cx, params[i], kw.value);
    Success(filled[i := arg])
  }

  function CheckKeywords(cx: Ctx, params: seq<Param>, kwargs: seq<Kwarg>, filled: map<nat, RArg>): Check<map<nat, RArg>>
    decreases kwargs, 3
  {
    if kwargs == [] then Success(filled) else
    var next :- CheckKeyword(cx, params, kwargs[0], filled);
    CheckKeywords(cx, params, kwargs[1..], next)
  }

  function Collect(params: seq<Param>, filled: map<nat, RArg>): Check<seq<RArg>> {
    if forall i: nat | i < |params| :: i in filled
    then Success(seq(|params|, i requires i in filled => filled[i]))
    else Failure(ArgMissing)
  }

  // ---------- Statements ----------

  predicate IsEmit(e: Expr) {
    e.Call? && e.callee == Ident("emit")
  }

  function CheckEmit(cx: Ctx, call: Expr): Check<RStmt>
    requires call.Call?
  {
    if call.args == [] || !call.args[0].Ident? then Failure(InvalidEmitTarget) else
    var output := call.args[0].name;
    var b :- OrFail(Lookup(cx.frames, output), UndefinedIdent);
    var _ :- Require(b.kind == KOutput, InvalidEmitTarget);
    CheckEmitTo(cx, output, b.t, call)
  }

  /** An emission to an output of type t. */
  function CheckEmitTo(cx: Ctx, output: string, t: TypeID, call: Expr): Check<RStmt>
    requires call.Call? && call.args != []
  {
    var _ :- Require(cx.phase == InRun, EmitOutsideRun);
    var all :- CheckArgs(cx, cx.reg.EmitRule(t).params, call, 1);
    Success(REmit(output, all, t))
  }

  function CheckTarget(cx: Ctx, target: Expr): Check<Binding> {
    match target
    case Ident(name) => OrFail(Lookup(cx.frames, name), UndefinedVar)
    case Member(receiver, name) =>
      if IsDeclWord(cx, receiver) then OrFail(Lookup(cx.frames, Qualified(receiver.name, name)), SlotUndeclared)
      else Failure(InvalidAssignTarget)
    case _ => Failure(InvalidAssignTarget)
  }

  /** The name an assignment to a non-slot binding writes: that of its target token. */
  function TargetName(target: Expr): string {
    match target case Ident(name) => name case Member(_, name) => name case _ => ""
  }

  function Taken(b: Option<Binding>): Check<()> {
    match b
    case None => Success(())
    case Some(prior) => Failure(if prior.Reserved() then ReservedName else DuplicateDeclaration)
  }

  function CheckLet(cx: Ctx, name: string, value: Expr): Check<RStmt> {
    var _ :- Taken(Lookup(cx.frames, name));
    var r :- CheckExpr(cx, value);
    Success(RLet(name, r, r.Type()))
  }

  function CheckAssign(cx: Ctx, target: Expr, value: Expr): Check<RStmt> {
    var r :- CheckExpr(cx, value);
    var b :- CheckTarget(cx, target);
    AssignTo(cx.reg, target, r, b)
  }

  function AssignTo(reg: Registry, target: Expr, r: RExpr, b: Binding): Check<RStmt> {
    var _ :- Require(b.assignable, NotAssignable);
    var v :- OrFail(CoerceTo(reg, r, b.t), TypeMismatch);
    Success(if b.slot.Some? then RAssignSlot(b.slot.value, v, b.t) else RAssignName(TargetName(target), v, b.t))
  }

  function CheckCondition(cx: Ctx, e: Expr): Check<RExpr> {
    var c :- CheckExpr(cx, e);
    var _ :- Require(c.Type() == BOOL_ID, TypeMismatch);
    Success(c)
  }

  function CheckStmt(cx: Ctx, s: Stmt): Check<RStmt>
    decreases s, 0
  {
    match s
    case BadStmt => Failure(Malformed)
    case ExprStmt(e) =>
      if IsEmit(e) then CheckEmit(cx, e) else
      var r :- CheckExpr(cx, e);
      Success(RExprStmt(r))
    case Let(name, value) =>
      var x :- OrFail(name, Malformed);
      CheckLet(cx, x, value)
    case Assign(target, value) => CheckAssign(cx, target, value)
    case Block(stmts) =>
      var rs :- CheckBlock(cx.Enter(), stmts);
      Success(RBlock(rs))
    case If(cond, consequence, alternative) =>
      var e :- OrFail(cond, Malformed);
      var c :- CheckCondition(cx, e);
      var rs :- CheckBlock(cx.Enter(), consequence);
      if alternative.None? then Success(RIf(c, rs, None)) else
      var _ :- Require(alternative.value.Block? || alternative.value.If?, Malformed);
      var alt :- CheckStmt(cx, alternative.value);
      Success(RIf(c, rs, Some(alt)))
  }

  function CheckBlock(cx: Ctx, stmts: seq<Stmt>): Check<seq<RStmt>>
    decreases stmts, 1
  {
    if stmts == [] then Success([]) else
    var first :- CheckStmt(cx, stmts[0]);
    var rest :- CheckBlock(After(cx, first), stmts[1..]);
    Success([first] + rest)
  }

  // ---------- Declarations ----------

  /** The fields of an inline type, after those already read. */
  function CheckFields(reg: Registry, decls: seq<FieldDecl>, seen: set<string>, fields: seq<Field>): Check<seq<Field>> {
    if decls == [] then Success(fields) else
    var f := decls[0];
    var _ :- Require(f.name !in seen, DuplicateDeclaration);
    var _ :- Require(f.typ in reg.types, UndefinedType);
    CheckFields(reg, decls[1..], seen + {f.name}, fields + [Field(f.name, f.typ)])
  }

  /** A port's type; an inline structure is registered under the port's qualified name. */
  function CheckPortType(reg: Registry, t: TypeDecl, space: string, name: string): Check<(Registry, TypeID)> {
    match t
    case Named(id) =>
      var _ :- Require(id in reg.types, UndefinedType);
      Success((reg, id))
    case Structural(decls) => CheckInlineType(reg, decls, Qualified(space, name))
  }

  /** An inline type is registered under its qualified name. */
  function CheckInlineType(reg: Registry, decls: seq<FieldDecl>, typeName: TypeID): Check<(Registry, TypeID)> {
    var fields :- CheckFields(reg, decls, {}, []);
    match reg.RegisterScriptType(typeName, fields)
    case Success(reg') => Success((reg', typeName))
    case Failure(_) => Failure(TypeRegistrationFail)
  }

  /** A declaration's symbol in the static scope: qualified for a namespaced kind. */
  function SymbolOf(reg: Registry, d: Decl): Option<string> {
    match d
    case Kind(word, name, _, _) => if word in reg.kinds then Some(SlotSymbol(reg.kinds[word], name)) else None
    case _ => d.name
  }

  function DeclaredNames(reg: Registry, decls: seq<Decl>): set<string> {
    set d | d in decls && SymbolOf(reg, d).Some? :: SymbolOf(reg, d).value
  }

  /** A slot's type and its initializer, each given or inferred from the other. */
  function SlotParts(cx: Ctx, kind: DeclKind, slotType: Option<string>,
      init: Option<Expr>): Check<(TypeID, Option<RExpr>)> {
    var _ :- SlotHead(cx.reg, kind, slotType, init.Some?);
    var value :- match init case None => Success(None) case Some(e) => (var r :- CheckExpr(cx, e); Success(Some(r)));
    FitSlot(cx.reg, kind, slotType, value)
  }

  function SlotHead(reg: Registry, kind: DeclKind, slotType: Option<string>, hasInit: bool): Check<()> {
    var _ :- Require(kind.init.InitRequired? ==> hasInit, InitializerRequired);
    var _ :- Require(kind.init.InitForbidden? ==> !hasInit, InitializerForbidden);
    Require(slotType.Some? ==> slotType.value in reg.types, UndefinedType)
  }

  function FitSlot(reg: Registry, kind: DeclKind, slotType: Option<TypeID>,
      value: Option<RExpr>): Check<(TypeID, Option<RExpr>)> {
    var fitted :- FitValue(reg, slotType, value);
    var _ :- Require(kind.allowed == [] || fitted.0 in kind.allowed, DeclTypeNotAllowed);
    Success(fitted)
  }

  function FitValue(reg: Registry, slotType: Option<TypeID>, value: Option<RExpr>): Check<(TypeID, Option<RExpr>)> {
    match (slotType, value)
    case (None, None) => Failure(TypeRequired)
    case (None, Some(r)) => Success((r.Type(), value))
    case (Some(t), None) => Success((t, None))
    case (Some(t), Some(r)) =>
      var v :- OrFail(CoerceTo(reg, r, t), TypeMismatch);
      Success((t, Some(v)))
  }

  function CheckConst(cx: Ctx, name: string, value: Expr): Check<(Registry, RDecl)> {
    var _ :- Taken(Lookup(cx.frames, name));
    var r :- CheckExpr(cx, value);
    Success((cx.reg, RConst(name, r, r.Type())))
  }

  function CheckPort(cx: Ctx, isInput: bool, name: string, t: TypeDecl): Check<(Registry, RDecl)> {
    var _ :- Taken(Lookup(cx.frames, name));
    var typed :- CheckPortType(cx.reg, t, if isInput then "input" else "output", name);
    Success((typed.0, if isInput then RInput(name, typed.1) else ROutput(name, typed.1)))
  }

  function CheckKind(cx: Ctx, word: string, name: string, slotType: Option<string>,
      init: Option<Expr>): Check<(Registry, RDecl)> {
    var _ :- Require(word in cx.reg.kinds, UnknownDeclKeyword);
    var kind := cx.reg.kinds[word];
    var _ :- Taken(Lookup(cx.frames, SlotSymbol(kind, name)));
    var parts :- SlotParts(cx, kind, slotType, init);
    Success((cx.reg, RSlotDecl(Slot(kind.word, name, parts.0, |cx.slots|), parts.1)))
  }

  /** One declaration: the registry it leaves (an inline type may be added) and what it resolves to. */
  function CheckDecl(cx: Ctx, d: Decl): Check<(Registry, RDecl)> {
    match d
    case Const(name, value) => if name.Some? && value.Some? then CheckConst(cx, name.value, value.value)
      else Failure(Malformed)
    case Input(name, t) => if name.Some? && t.Some? then CheckPort(cx, true, name.value, t.value)
      else Failure(Malformed)
    case Output(name, t) => if name.Some? && t.Some? then CheckPort(cx, false, name.value, t.value)
      else Failure(Malformed)
    case Kind(word, name, slotType, init) => CheckKind(cx, word, name, slotType, init)
  }

  /** Declarations in source order, each after the ones above it. */
  function CheckDecls(cx: Ctx, decls: seq<Decl>): Check<(Ctx, seq<RDecl>)>
    decreases |decls|
  {
    if decls == [] then Success((cx, [])) else
    var first :- CheckDecl(cx, decls[0]);
    var rest :- CheckDecls(AfterDecl(cx, first.1).(reg := first.0), decls[1..]);
    Success((rest.0, [first.1] + rest.1))
  }

  /** A whole program: what it resolves to, and the registry it is to run against. */
  function CheckProgram(reg: Registry, p: Program): Check<(Registry, RProgram)> {
    CheckFrom(Opening(reg, DeclaredNames(reg, p.decls)), p)
  }

  function CheckFrom(opening: Ctx, p: Program): Check<(Registry, RProgram)> {
    var (cx, decls) :- CheckDecls(opening, p.decls);
    var initFn :- CheckInit(cx, p.initFn);
    var runBody :- OrFail(p.runFn, Malformed);
    var runFn :- CheckBlock(cx.(phase := InRun).Enter(), runBody);
    Success((cx.reg, RProgram(decls, initFn, runFn)))
  }

  function CheckInit(cx: Ctx, body: Option<seq<Stmt>>): Check<Option<seq<RStmt>>> {
    if body.None? then Success(None) else
    var b :- CheckBlock(cx.(phase := InInit).Enter(), body.value);
    Success(Some(b))
  }
}
