/**
 The resolver as the source has it (resolver/resolver.go): it reports an error, substitutes a bad node and
 carries on, so one pass lists every problem. Each method is proved against the stop-at-first-error checker:
 starting clean, it reports nothing exactly when the checker succeeds, and then returns the same result;
 otherwise its first diagnostic is the checker's.
 */
module Resolvers {
  import opened Wrappers
  import opened Tokens
  import opened Values
  import opened Registries
  import opened WellFormed
  import opened LiveRegistries
  import opened Scopes
  import opened Ast
  import opened Resolved
  import opened Typing
  import opened Elaboration
  import opened CheckedPrograms
  import opened AcceptedPrograms

  // ---------- Diagnostics ----------

  function Weight(c: Code): int {
    match c case ArgMissing => -1 case ArgUnknown => 1 case ArgDuplicate => 1 case _ => 0
  }

  /** Unknown and duplicate keywords, less missing arguments. */
  function Tilt(errs: seq<Code>): int {
    if errs == [] then 0 else Tilt(errs[..|errs| - 1]) + Weight(errs[|errs| - 1])
  }

  /** Diagnostics are only added, and every missing argument is matched by a keyword that went astray. */
  ghost predicate Grew(before: seq<Code>, after: seq<Code>) {
    before <= after && Tilt(after) == Tilt(before)
  }

  /**
   A run that starts clean ends clean exactly when the checker succeeds, with its result; else with its error first.
   */
  ghost predicate Verdict<T>(before: seq<Code>, after: seq<Code>, r: T, spec: Check<T>) {
    before == [] ==>
      match spec
      case Success(v) => after == [] && r == v
      case Failure(code) => after != [] && after[0] == code
  }

  /** A bad node anywhere in the tree. */
  predicate HasBad(e: RExpr)
    decreases e
  {
    match e
    case RBad => true
    case RInfix(_, left, right, _, _) => HasBad(left) || HasBad(right)
    case RLogical(_, left, right) => HasBad(left) || HasBad(right)
    case RPrefix(_, right, _, _) => HasBad(right)
    case RCoerce(inner, _, _) => HasBad(inner)
    case RMember(receiver, _, _, _) => HasBad(receiver)
    case RCall(receiver, _, args, _, _) => HasBad(receiver) || AnyBadArg(args)
    case _ => false
  }

  predicate AnyBadArg(args: seq<RArg>)
    decreases args
  {
    exists a | a in args :: HasBad(a.value)
  }

  predicate HasBadStmt(s: RStmt)
    decreases s
  {
    match s
    case RBadStmt => true
    case RLet(_, e, _) => HasBad(e)
    case RAssignName(_, e, _) => HasBad(e)
    case RAssignSlot(_, e, _) => HasBad(e)
    case RExprStmt(e) => HasBad(e)
    case RBlock(stmts) => AnyBad(stmts)
    case RIf(cond, consequence, alternative) =>
      HasBad(cond) || AnyBad(consequence) || (alternative.Some? && HasBadStmt(alternative.value))
    case REmit(_, args, _) => AnyBadArg(args)
  }

  predicate AnyBad(stmts: seq<RStmt>)
    decreases stmts
  {
    exists t | t in stmts :: HasBadStmt(t)
  }

  /** A bad node or the error type never appears without a diagnostic behind it. */
  ghost predicate Honest(errs: seq<Code>, r: RExpr) {
    HasBad(r) || r.Type() == ERROR_TYPE_ID ==> errs != []
  }

  class Resolver {
    const reg: LiveRegistry
    var errs: seq<Code>
    var phase: Phase
    var slotCount: nat
    var declaredNames: set<string>
    var decls: seq<RDecl>

    constructor (reg: LiveRegistry)
      ensures this.reg == reg && errs == [] && phase == Loading && slotCount == 0 && declaredNames == {} && decls == []
    {
      this.reg := reg;
      errs, phase, slotCount, declaredNames, decls := [], Loading, 0, {}, [];
    }

    ghost function Cx(env: Env<Binding>): Ctx
      reads this, reg, env.chain
    {
      Ctx(reg.View(), phase, env.Frames(), Slots(decls), declaredNames)
    }

    /** A binding has the error type only after a diagnostic, and a dotted name is a slot. */
    static ghost predicate KeptWell(errs: seq<Code>, x: string, b: Option<Binding>) {
      WellShaped(x, b) && (errs == [] ==> NoError(b))
    }

    static ghost predicate WellShaped(x: string, b: Option<Binding>) {
      b.Some? ==> ('.' in x ==> b.value.slot.Some?) && (b.value.slot.Some? ==> b.value.slot.value.t == b.value.t)
    }

    static ghost predicate NoError(b: Option<Binding>) {
      b.Some? ==> b.value.t != ERROR_TYPE_ID
    }

    static ghost predicate Shaped(frames: Symbols) {
      forall x :: WellShaped(x, Lookup(frames, x))
    }

    static ghost predicate ErrorFreeScope(frames: Symbols) {
      forall x :: NoError(Lookup(frames, x))
    }

    static ghost predicate Sane(errs: seq<Code>, frames: Symbols) {
      Shaped(frames) && (errs == [] ==> ErrorFreeScope(frames))
    }

    static lemma SaneAt(errs: seq<Code>, frames: Symbols, x: string)
      requires Sane(errs, frames)
      ensures KeptWell(errs, x, Lookup(frames, x))
    {
    }

    static lemma MakeSane(errs: seq<Code>, frames: Symbols)
      requires forall x :: KeptWell(errs, x, Lookup(frames, x))
      ensures Sane(errs, frames)
    {
      forall x ensures WellShaped(x, Lookup(frames, x)) && (errs == [] ==> NoError(Lookup(frames, x))) {
        assert KeptWell(errs, x, Lookup(frames, x));
      }
    }

    ghost predicate Ready(env: Env<Binding>, cx: Ctx)
      reads this, reg, env.chain
    {
      env.Valid() && Cx(env) == cx && ErrorFree(cx.reg) && Sane(errs, cx.frames)
    }

    method Report(code: Code)
      modifies this`errs
      ensures errs == old(errs) + [code] && Tilt(errs) == Tilt(old(errs)) + Weight(code)
    {
      errs := errs + [code];
      assert errs[..|errs| - 1] == old(errs);
    }

    /** The source panics here without a diagnostic behind it; the precondition says it never does. */
    method NewErrorExpr() returns (r: RExpr)
      requires errs != []
      ensures r == RBad
    {
      r := RBad;
    }

    // ---------- Programs ----------

    /**
     The whole program in one source-order walk. Diagnostics are absent exactly when the checker accepts, and
     then program and registry are the checker's; otherwise its error comes first. Missing arguments are
     reported as often as keywords went astray, and nothing bad is in the result without a diagnostic.
     */
    method Resolve(p: Program) returns (rp: RProgram)
      requires errs == [] && phase == Loading && slotCount == 0 && decls == []
      requires CleanProgram(p) && RegistryInv(reg.View()) && DotlessTypes(reg.View())
      modifies this, reg
      ensures Tilt(errs) == 0
      ensures HonestDecls(errs, rp.decls) && (rp.initFn.Some? && AnyBad(rp.initFn.value) ==> errs != [])
        && (AnyBad(rp.runFn) ==> errs != [])
      ensures match CheckProgram(old(reg.View()), p)
        case Success(v) => errs == [] && v == (reg.View(), rp)
        case Failure(code) => errs != [] && errs[0] == code
    {
      hide Tilt, Shaped, ErrorFreeScope, CheckFrom, AnyBad, ErrorFree, RegistryInv, DotlessTypes, Prelude,
        DeclaredNames, BadDecl;
      CollectDeclaredNames(p.decls);
      var env := EnvFromRegistry();
      OpeningSane(reg.View(), declaredNames);
      rp := ResolveFrom(p, env, Opening(reg.View(), declaredNames));
    }

    method ResolveFrom(p: Program, env: Env<Binding>, ghost cx: Ctx) returns (rp: RProgram)
      requires errs == [] && decls == [] && AtDecl(env, cx) && CleanProgram(p)
      modifies this, env, reg
      ensures Tilt(errs) == 0
      ensures HonestDecls(errs, rp.decls) && (rp.initFn.Some? && AnyBad(rp.initFn.value) ==> errs != [])
        && (AnyBad(rp.runFn) ==> errs != [])
      ensures Verdict([], errs, (reg.View(), rp), CheckFrom(cx, p))
    {
      hide Shaped, ErrorFreeScope, ErrorFree;
      ghost var next := ResolveDecls(p.decls, env, cx);
      var initFn := ResolveInit(p.initFn, env, next);
      phase := InRun;
      var runFn := ResolveInner(p.runFn.value, env, next.(phase := InRun));
      rp := RProgram(decls, initFn, runFn);
    }

    method ResolveInit(body: Option<seq<Stmt>>, env: Env<Binding>, ghost cx: Ctx) returns (rs: Option<seq<RStmt>>)
      requires Ready(env, cx) && (body.Some? ==> CleanBlock(body.value))
      modifies this`errs, this`phase
      ensures Ready(env, cx.(phase := phase)) && Grew(old(errs), errs) && (rs.Some? && AnyBad(rs.value) ==> errs != [])
      ensures Verdict(old(errs), errs, rs, CheckInit(cx, body))
    {
      hide Shaped, ErrorFreeScope;
      rs := None;
      if body.Some? {
        phase := InInit;
        var b := ResolveInner(body.value, env, cx.(phase := InInit));
        rs := Some(b);
      }
    }

    method CollectDeclaredNames(ds: seq<Decl>)
      requires forall d | d in ds :: CleanDecl(d)
      modifies this`declaredNames
      ensures declaredNames == DeclaredNames(reg.View(), ds)
    {
      declaredNames := {};
      var i := 0;
      while i < |ds|
        invariant 0 <= i <= |ds| && declaredNames == DeclaredNames(reg.View(), ds[..i])
      {
        assert ds[..i + 1] == ds[..i] + [ds[i]] && CleanDecl(ds[i]);
        match ds[i] {
          case Const(name, _) => declaredNames := declaredNames + {name.value};
          case Input(name, _) => declaredNames := declaredNames + {name.value};
          case Output(name, _) => declaredNames := declaredNames + {name.value};
          case Kind(word, name, _, _) =>
            if word in reg.kinds { declaredNames := declaredNames + {SlotSymbol(reg.kinds[word], name)}; }
        }
        OneMoreName(reg.View(), ds[..i], ds[i]);
        i := i + 1;
      }
      assert ds[..i] == ds;
    }

    static lemma OneMoreName(known: Registry, ds: seq<Decl>, d: Decl)
      ensures DeclaredNames(known, ds + [d]) == DeclaredNames(known, ds) + match SymbolOf(known, d) case Some(x) => {x}
        case None => {}
    {
      var more := DeclaredNames(known, ds + [d]);
      forall x | x in more ensures x in DeclaredNames(known, ds) || SymbolOf(known, d) == Some(x) {
        var e :| e in ds + [d] && SymbolOf(known, e) == Some(x);
      }
      forall x | x in DeclaredNames(known, ds) ensures x in more {
        var e :| e in ds && SymbolOf(known, e) == Some(x);
        assert e in ds + [d];
      }
      assert d in ds + [d];
    }

    /** The reserved names: types and modules, then namespaced words, then reserved identifiers over them. */
    method EnvFromRegistry() returns (env: Env<Binding>)
      ensures fresh(env) && env.Valid() && env.chain == [env] && env.Frames() == [Prelude(reg.View())]
    {
      var types := TypeNames();
      var words := WordNames();
      env := new Env<Binding>.TopLevel(types + words + map w | w in RESERVED_IDENTS ::
        PlainBinding(NO_TYPE_ID, KFunction));
      assert types + words + (map w | w in RESERVED_IDENTS :: PlainBinding(NO_TYPE_ID, KFunction))
        == Prelude(reg.View());
    }

    method TypeNames() returns (values: map<string, Binding>)
      ensures values == map t | t in reg.types ::
        PlainBinding(t, if reg.types[t].shape == ModuleShape then KModule else KType)
    {
      values := map[];
      var left := reg.types.Keys;
      while left != {}
        invariant left <= reg.types.Keys && values.Keys == reg.types.Keys - left
        invariant forall t | t in values ::
          values[t] == PlainBinding(t, if reg.types[t].shape == ModuleShape then KModule else KType)
        decreases |left|
      {
        var t :| t in left;
        values := values[t := PlainBinding(t, if reg.types[t].shape == ModuleShape then KModule else KType)];
        left := left - {t};
      }
    }

    method WordNames() returns (values: map<string, Binding>)
      ensures values == map w | w in reg.kinds && reg.kinds[w].namespaced :: PlainBinding(NO_TYPE_ID, KDeclWord)
    {
      values := map[];
      var left := reg.kinds.Keys;
      while left != {}
        invariant left <= reg.kinds.Keys
        invariant values == map w | w in reg.kinds && w !in left && reg.kinds[w].namespaced ::
          PlainBinding(NO_TYPE_ID, KDeclWord)
        decreases |left|
      {
        var w :| w in left;
        if reg.kinds[w].namespaced { values := values[w := PlainBinding(NO_TYPE_ID, KDeclWord)]; }
        left := left - {w};
      }
    }

    method ResolveDecls(ds: seq<Decl>, env: Env<Binding>, ghost cx: Ctx) returns (ghost next: Ctx)
      requires AtDecl(env, cx) && (forall d | d in ds :: CleanDecl(d)) && decls == []
      modifies this`errs, this`slotCount, this`decls, env, reg
      ensures AtDecl(env, next) && Grew(old(errs), errs)
        && next == cx.(frames := next.frames, slots := next.slots, reg := next.reg)
      ensures Verdict(old(errs), errs, (next, decls), CheckDecls(cx, ds))
    {
      hide Tilt, Shaped, ErrorFreeScope, HonestDecls, ErrorFree;
      next := cx;
      DeclsStart(cx, ds);
      var i := 0;
      while i < |ds|
        invariant 0 <= i <= |ds| && AtDecl(env, next) && Grew(old(errs), errs)
        invariant next == cx.(frames := next.frames, slots := next.slots, reg := next.reg)
        invariant old(errs) == [] && errs == [] ==> CheckDecls(cx, ds) == DeclsAfter(decls, CheckDecls(next, ds[i..]))
        invariant old(errs) == [] && errs != [] ==> CheckDecls(cx, ds) == Failure(errs[0])
      {
        DeclsStep(next, ds, i, decls);
        next := ResolveDecl(ds[i], env, next);
        i := i + 1;
      }
      assert decls + [] == decls;
    }

    static lemma OpeningSane(known: Registry, declared: set<string>)
      requires RegistryInv(known) && DotlessTypes(known)
      ensures Sane([], Opening(known, declared).frames) && ErrorFree(known) && WordsMatch(known.kinds)
    {
            forall x ensures KeptWell([], x, Lookup(Opening(known, declared).frames, x)) {
        assert Lookup([Prelude(known)], x) == if x in Prelude(known) then Some(Prelude(known)[x]) else None;
        if x in Prelude(known) { PreludeBinding(known, x); }
      }
      MakeSane([], Opening(known, declared).frames);
    }

    // ---------- Expressions ----------

    method ResolveExpr(e: Expr, env: Env<Binding>, ghost cx: Ctx) returns (r: RExpr)
      requires Ready(env, cx) && CleanExpr(e)
      modifies this`errs
      ensures Ready(env, cx) && Grew(old(errs), errs) && Honest(errs, r)
      ensures Verdict(old(errs), errs, r, CheckExpr(cx, e))
      decreases e, 4
    {
      hide Tilt, Shaped, ErrorFreeScope;
      match e
      case IntLit(n) => r := RInt(n);
      case FloatLit(f) => r := RFloat(f);
      case StrLit(s) => r := RStr(s);
      case BoolLit(b) => r := RBool(b);
      case Ident(name) => r := ResolveIdent(name, env, cx);
      case Infix(_, _, _) => r := ResolveInfix(e, env, cx);
      case Prefix(_, _) => r := ResolvePrefix(e, env, cx);
      case Member(_, _) => r := ResolveMember(e, env, cx);
      case Index(_, _) => r := ResolveIndex(e, env, cx);
      case Call(_, _, _) => r := ResolveCall(e, env, cx);
    }

    method ResolveIdent(name: string, env: Env<Binding>, ghost cx: Ctx) returns (r: RExpr)
      requires Ready(env, cx)
      modifies this`errs
      ensures Ready(env, cx) && Grew(old(errs), errs) && Honest(errs, r)
      ensures Verdict(old(errs), errs, r, CheckIdent(cx, name))
    {
      hide Tilt, Shaped, ErrorFreeScope;
      var b := env.Get(name);
      if b.None? {
        Report(if phase == Loading && name in declaredNames then UseBeforeDeclaration else UndefinedIdent);
        return RBad;
      }
      if !b.value.Readable() {
        Report(NotReadable);
        return RBad;
      }
      if b.value.kind == KInput && phase != InRun {
        Report(InputInInit);
        return RBad;
      }
      SaneAt(errs, cx.frames, name);
      if b.value.slot.Some? { return RSlot(b.value.slot.value); }
      r := RIdent(name, b.value.t);
    }

    method ResolveInfix(e: Expr, env: Env<Binding>, ghost cx: Ctx) returns (r: RExpr)
      requires Ready(env, cx) && CleanExpr(e) && e.Infix?
      modifies this`errs
      ensures Ready(env, cx) && Grew(old(errs), errs) && Honest(errs, r)
      ensures Verdict(old(errs), errs, r, CheckExpr(cx, e))
      decreases e, 3
    {
      hide Tilt, Shaped, ErrorFreeScope;
      var errsBefore := |errs|;
      var left := ResolveExpr(e.left, env, cx);
      var right := ResolveExpr(e.right, env, cx);
      if e.op in {AND, OR} {
        r := ResolveLogical(e.op, left, right);
        return;
      }
      if left.Type() == ERROR_TYPE_ID || right.Type() == ERROR_TYPE_ID {
        r := NewErrorExpr();
        return;
      }
      var rule := reg.View().LookupBinary(e.op, left.Type(), right.Type());
      if rule.None? {
        if |errs| == errsBefore { Report(InvalidBinaryOp); }
        return RBad;
      }
      assert BinaryKey(e.op, left.Type(), right.Type()) in cx.reg.binary;
      r := RInfix(e.op, left, right, rule.value.evalType, rule.value.fn);
    }

    method ResolveLogical(op: TokenType, left: RExpr, right: RExpr) returns (r: RExpr)
      requires Honest(errs, left) && Honest(errs, right)
      modifies this`errs
      ensures r == RLogical(op, left, right) && Grew(old(errs), errs) && Honest(errs, r)
      ensures old(errs) == [] ==>
        if left.Type() == BOOL_ID && right.Type() == BOOL_ID then errs == [] else errs != [] && errs[0] == TypeMismatch
    {
      hide Tilt;
      if left.Type() != ERROR_TYPE_ID && left.Type() != BOOL_ID { Report(TypeMismatch); }
      if right.Type() != ERROR_TYPE_ID && right.Type() != BOOL_ID { Report(TypeMismatch); }
      r := RLogical(op, left, right);
    }

    method ResolvePrefix(e: Expr, env: Env<Binding>, ghost cx: Ctx) returns (r: RExpr)
      requires Ready(env, cx) && CleanExpr(e) && e.Prefix?
      modifies this`errs
      ensures Ready(env, cx) && Grew(old(errs), errs) && Honest(errs, r)
      ensures Verdict(old(errs), errs, r, CheckExpr(cx, e))
      decreases e, 3
    {
      hide Tilt, Shaped, ErrorFreeScope;
      var errsBefore := |errs|;
      var right := ResolveExpr(e.right, env, cx);
      if right.Type() == ERROR_TYPE_ID {
        r := NewErrorExpr();
        return;
      }
      var rule := reg.View().LookupUnary(e.op, right.Type());
      if rule.None? {
        if |errs| == errsBefore { Report(InvalidUnaryOp); }
        return RBad;
      }
      assert UnaryKey(e.op, right.Type()) in cx.reg.unary;
      r := RPrefix(e.op, right, rule.value.evalType, rule.value.fn);
    }

    method AtDeclWord(e: Expr, env: Env<Binding>, ghost cx: Ctx) returns (yes: bool)
      requires env.Valid() && env.Frames() == cx.frames
      ensures yes == IsDeclWord(cx, e)
    {
      if !e.Ident? { return false; }
      var b := env.Get(e.name);
      yes := b.Some? && b.value.kind == KDeclWord;
    }

    method ResolveMember(e: Expr, env: Env<Binding>, ghost cx: Ctx) returns (r: RExpr)
      requires Ready(env, cx) && CleanExpr(e) && e.Member?
      modifies this`errs
      ensures Ready(env, cx) && Grew(old(errs), errs) && Honest(errs, r)
      ensures Verdict(old(errs), errs, r, CheckExpr(cx, e))
      decreases e, 3
    {
      hide Tilt, Shaped, ErrorFreeScope;
      var errsBefore := |errs|;
      var isSlot := AtDeclWord(e.receiver, env, cx);
      if isSlot {
        r := ResolveSlotRef(e.receiver.name, e.name, env, cx);
        return;
      }
      var o := ResolveReceiver(e.receiver, env, cx);
      if o.Type() == ERROR_TYPE_ID {
        r := NewErrorExpr();
        return;
      }
      var rule := reg.View().LookupMember(o.Type(), e.name);
      if rule.None? {
        if |errs| == errsBefore { Report(UndefinedAttribute); }
        return RBad;
      }
      assert MemberKey(o.Type(), e.name) in cx.reg.member;
      r := RMember(o, e.name, rule.value.evalType, rule.value.fn);
    }

    /** The binding found is a slot: no other name is qualified, so the source's unchecked dereference is safe. */
    method ResolveSlotRef(word: string, name: string, env: Env<Binding>, ghost cx: Ctx) returns (r: RExpr)
      requires Ready(env, cx)
      modifies this`errs
      ensures Ready(env, cx) && Grew(old(errs), errs) && Honest(errs, r)
      ensures Verdict(old(errs), errs, r, CheckSlotRef(cx, word, name))
    {
      hide Tilt, Shaped, ErrorFreeScope;
      var symbol := Qualified(word, name);
      var b := env.Get(symbol);
      if b.None? {
        Report(if phase == Loading && symbol in declaredNames then UseBeforeDeclaration else SlotUndeclared);
        return RBad;
      }
      assert symbol[|word|] == '.';
      SaneAt(errs, cx.frames, symbol);
      r := RSlot(b.value.slot.value);
    }

    method ResolveReceiver(e: Expr, env: Env<Binding>, ghost cx: Ctx) returns (r: RExpr)
      requires Ready(env, cx) && CleanExpr(e)
      modifies this`errs
      ensures Ready(env, cx) && Grew(old(errs), errs) && Honest(errs, r)
      ensures Verdict(old(errs), errs, r, CheckReceiver(cx, e))
      decreases e, 5
    {
      hide Tilt, Shaped, ErrorFreeScope;
      if !e.Ident? {
        r := ResolveExpr(e, env, cx);
        return;
      }
      var b := env.Get(e.name);
      if b.None? || b.value.kind != KModule {
        r := ResolveExpr(e, env, cx);
        return;
      }
      SaneAt(errs, cx.frames, e.name);
      r := RIdent(e.name, b.value.t);
    }

    method ResolveIndex(e: Expr, env: Env<Binding>, ghost cx: Ctx) returns (r: RExpr)
      requires Ready(env, cx) && CleanExpr(e) && e.Index?
      modifies this`errs
      ensures Ready(env, cx) && Grew(old(errs), errs) && Honest(errs, r)
      ensures Verdict(old(errs), errs, r, CheckExpr(cx, e))
      decreases e, 3
    {
      hide Tilt, Shaped, ErrorFreeScope;
      var errsBefore := |errs|;
      var left := ResolveExpr(e.left, env, cx);
      var _ := ResolveExpr(e.index, env, cx);
      if left.Type() == ERROR_TYPE_ID {
        r := NewErrorExpr();
        return;
      }
      if |errs| == errsBefore { Report(NotIndexable); }
      r := RBad;
    }

    method ResolveCall(e: Expr, env: Env<Binding>, ghost cx: Ctx) returns (r: RExpr)
      requires Ready(env, cx) && CleanExpr(e) && e.Call?
      modifies this`errs
      ensures Ready(env, cx) && Grew(old(errs), errs) && Honest(errs, r)
      ensures Verdict(old(errs), errs, r, CheckExpr(cx, e))
      decreases e, 3
    {
      hide Tilt, Shaped, ErrorFreeScope;
      if e.callee.Member? {
        r := ResolveMethodCall(e, e.callee.receiver, e.callee.name, env, cx);
        return;
      }
      // an emit that is a statement of its own never gets here
      Report(if !e.callee.Ident? then NotCallable else if e.callee.name == "emit" then EmitNotExpression
        else UndefinedFunc);
      r := RBad;
    }

    method ResolveMethodCall(e: Expr, receiver: Expr, name: string, env: Env<Binding>, ghost cx: Ctx) returns (r: RExpr)
      requires Ready(env, cx) && CleanExpr(e) && e.Call? && e.callee == Member(receiver, name)
      modifies this`errs
      ensures Ready(env, cx) && Grew(old(errs), errs) && Honest(errs, r)
      ensures Verdict(old(errs), errs, r, CheckExpr(cx, e))
      decreases e, 2, 1
    {
      hide Tilt, Shaped, ErrorFreeScope;
      CallUnfolds(cx, e);
      var errsBefore := |errs|;
      var o := ResolveReceiver(receiver, env, cx);
      if o.Type() == ERROR_TYPE_ID {
        r := NewErrorExpr();
        return;
      }
      var rule := reg.View().LookupCall(o.Type(), name);
      if rule.None? {
        if |errs| == errsBefore { Report(UndefinedMethod); }
        return RBad;
      }
      CallRuleOk(cx.reg, o.Type(), name);
      r := FinishCall(o, name, rule.value, e, env, cx);
    }

    method FinishCall(o: RExpr, name: string, rule: CallRule, e: Expr, env: Env<Binding>, ghost cx: Ctx)
      returns (r: RExpr)
      requires Ready(env, cx) && CleanExpr(e) && e.Call? && Honest(errs, o) && rule.evalType != ERROR_TYPE_ID
      requires forall p | p in rule.params :: p.typ != ERROR_TYPE_ID
      modifies this`errs
      ensures Ready(env, cx) && Grew(old(errs), errs) && Honest(errs, r)
      ensures Verdict(old(errs), errs, r, Called(o, name, rule, CheckArgs(cx, rule.params, e, 0)))
      decreases e, 2, 0
    {
      hide Tilt, Shaped, ErrorFreeScope, CheckArgs, CleanExpr, Complete;
      var args, valid := ResolveArgs(rule.params, e, 0, env, cx);
      if !valid { return RBad; }
      CompleteIsHonest(cx.reg, errs, rule.params, args);
      r := RCall(o, name, args, rule.evalType, rule.fn);
    }

    // ---------- Arguments ----------
    // The source keeps two local slices, one of results and one of flags; a flag is set exactly when the result
    // is non-nil, so one sequence of options stands for both.

    /**
     v is of type t as it stands, or through the coercion registered for its operand; that coercion's result type is
     the host's word.
     */
    static predicate FittedTo(known: Registry, v: RExpr, t: TypeID) {
      v.Type() == t || (v.RCoerce? && CoerceTo(known, v.inner, t) == Some(v))
    }

    static lemma FittedHasType(known: Registry, v: RExpr, t: TypeID)
      requires FittedTo(known, v, t) && forall k | k in known.coerces :: known.coerces[k].evalType == k.to
      ensures v.Type() == t
    {
    }

    /** An argument named for its parameter, and fitted to its type unless something was already reported. */
    static ghost predicate Good(known: Registry, errs: seq<Code>, param: Param, arg: RArg) {
      arg.name == param.name && Honest(errs, arg.value) && (FittedTo(known, arg.value, param.typ) || errs != [])
    }

    static ghost predicate AllGood(known: Registry, errs: seq<Code>, params: seq<Param>, out: seq<Option<RArg>>) {
      |params| == |out| && forall i | 0 <= i < |out| && out[i].Some? :: Good(known, errs, params[i], out[i].value)
    }

    /** One argument per parameter, in parameter order. */
    static ghost predicate Complete(known: Registry, errs: seq<Code>, params: seq<Param>, all: seq<RArg>) {
      |all| == |params| && forall i | 0 <= i < |all| :: Good(known, errs, params[i], all[i])
    }

    static lemma CompleteIsHonest(known: Registry, errs: seq<Code>, params: seq<Param>, all: seq<RArg>)
      requires Complete(known, errs, params, all)
      ensures AnyBadArg(all) ==> errs != []
    {
      forall a | a in all && HasBad(a.value) ensures errs != [] {
        var i :| 0 <= i < |all| && all[i] == a;
        assert Good(known, errs, params[i], all[i]);
      }
    }

    /** More diagnostics never spoil an argument. */
    static lemma StillGood(known: Registry, before: seq<Code>, after: seq<Code>, params: seq<Param>,
        out: seq<Option<RArg>>)
      requires AllGood(known, before, params, out) && before <= after
      ensures AllGood(known, after, params, out)
    {
      hide FittedTo;
      forall i | 0 <= i < |out| && out[i].Some? ensures Good(known, after, params[i], out[i].value) {
        assert Good(known, before, params[i], out[i].value);
      }
    }

    /**
     The arguments of a call. A valid result has one per parameter, in order; as many arguments are reported
     missing as keywords are unknown or repeated, which Grew says.
     */
    method ResolveArgs(params: seq<Param>, call: Expr, leading: nat, env: Env<Binding>, ghost cx: Ctx)
      returns (all: seq<RArg>, valid: bool)
      requires Ready(env, cx) && CleanExpr(call) && call.Call? && leading <= |call.args|
      requires forall p | p in params :: p.typ == ERROR_TYPE_ID ==> errs != []
      modifies this`errs
      ensures Ready(env, cx) && Grew(old(errs), errs)
      ensures if valid then Complete(cx.reg, errs, params, all) else errs != []
      ensures Verdict(old(errs), errs, all, CheckArgs(cx, params, call, leading))
      decreases call, 1
    {
      hide Tilt, Shaped, ErrorFreeScope;
      var args := if leading == 0 then call.args else call.args[leading..];
      if |args| + |call.kwargs| != |params| {
        Report(ArgCountMismatch);
        return [], false;
      }
      var out, badPositional := ResolvePositional(params, args, env, cx);
      ghost var placed := errs;
      var badKeyword;
      out, badKeyword := ResolveKeywords(params, call.kwargs, env, out, cx);
      ghost var before := errs;
      var missing := ReportMissing(out);
      StillGood(cx.reg, before, errs, params, out);
      CountAll(out);
      if badPositional || badKeyword || missing { return [], false; }
      all, valid := seq(|params|, i requires 0 <= i < |params| => out[i].value), true;
      Collected(params, out, all);
    }

    method ResolveArg(param: Param, e: Expr, env: Env<Binding>, ghost cx: Ctx) returns (arg: RArg, ok: bool)
      requires Ready(env, cx) && CleanExpr(e) && (param.typ == ERROR_TYPE_ID ==> errs != [])
      modifies this`errs
      ensures Ready(env, cx) && Grew(old(errs), errs) && Good(cx.reg, errs, param, arg)
      ensures Verdict(old(errs), errs, arg, CheckArg(cx, param, e))
      ensures errs == [] ==> ok
      decreases e, 5
    {
      hide Tilt, Shaped, ErrorFreeScope;
      var r := ResolveExpr(e, env, cx);
      var v;
      v, ok := FitArg(param, r, cx.reg);
      arg := RArg(param.name, v);
    }

    /** The argument as the parameter takes it; a mismatch already explained by an error type is not reported again. */
    method FitArg(param: Param, r: RExpr, ghost known: Registry) returns (v: RExpr, ok: bool)
      requires known == reg.View() && ErrorFree(known) && Honest(errs, r) && (param.typ == ERROR_TYPE_ID ==> errs != [])
      modifies this`errs
      ensures Grew(old(errs), errs) && Honest(errs, v) && (FittedTo(known, v, param.typ) || errs != [])
        && (errs == [] ==> ok)
      ensures Verdict(old(errs), errs, v,
        if r.Type() == param.typ then Success(r)
          else OrFail(if param.exact then None else CoerceTo(known, r, param.typ), TypeMismatch))
    {
      hide Tilt;
      v, ok := r, true;
      if r.Type() == param.typ { return; }
      var rule := if param.exact then None else reg.View().LookupCoerce(r.Type(), param.typ);
      if rule.Some? {
        assert CoerceKey(r.Type(), param.typ) in known.coerces;
        v := RCoerce(r, rule.value.evalType, rule.value.fn);
      } else if r.Type() != ERROR_TYPE_ID && param.typ != ERROR_TYPE_ID {
        ok := false;
        Report(TypeMismatch);
      }
    }

    method ResolvePositional(params: seq<Param>, args: seq<Expr>, env: Env<Binding>, ghost cx: Ctx)
      returns (out: seq<Option<RArg>>, hasErrs: bool)
      requires Ready(env, cx) && (forall a | a in args :: CleanExpr(a)) && |args| <= |params|
      requires forall p | p in params :: p.typ == ERROR_TYPE_ID ==> errs != []
      modifies this`errs
      ensures Ready(env, cx) && Grew(old(errs), errs) && (hasErrs ==> errs != [])
      ensures AllGood(cx.reg, errs, params, out) && Count(out) == |args|
      ensures Verdict(old(errs), errs, Placed(out), CheckPositional(cx, params, args, 0, map[]))
      decreases args, 6
    {
      hide Tilt, HasBad, CleanExpr, Shaped, ErrorFreeScope;
      hasErrs := false;
      out := seq(|params|, _ => None);
      CountNone(out);
      var i := 0;
      while i < |args|
        invariant 0 <= i <= |args| && Ready(env, cx) && Grew(old(errs), errs) && (hasErrs ==> errs != [])
        invariant AllGood(cx.reg, errs, params, out) && Count(out) == i && forall k | i <= k < |out| :: out[k].None?
        invariant old(errs) == [] && errs == [] ==>
          CheckPositional(cx, params, args, 0, map[]) == CheckPositional(cx, params, args, i, Placed(out))
        invariant old(errs) == [] && errs != [] ==> CheckPositional(cx, params, args, 0, map[]) == Failure(errs[0])
      {
        ghost var before := errs;
        var arg, ok := ResolveArg(params[i], args[i], env, cx);
        StillGood(cx.reg, before, errs, params, out);
        PlaceOne(out, i, arg);
        out := out[i := Some(arg)];
        if !ok { hasErrs := true; }
        i := i + 1;
      }
    }

    /** Keywords in source order; each places one argument, or is unknown or repeated and is reported as such. */
    method ResolveKeywords(params: seq<Param>, kwargs: seq<Kwarg>, env: Env<Binding>, start: seq<Option<RArg>>,
        ghost cx: Ctx)
      returns (out: seq<Option<RArg>>, hasErrs: bool)
      requires Ready(env, cx) && (forall k | k in kwargs :: CleanExpr(k.value)) && AllGood(cx.reg, errs, params, start)
      requires forall p | p in params :: p.typ == ERROR_TYPE_ID ==> errs != []
      modifies this`errs
      ensures Ready(env, cx) && old(errs) <= errs && AllGood(cx.reg, errs, params, out) && (hasErrs ==> errs != [])
      ensures Tilt(errs) == Tilt(old(errs)) + Count(start) + |kwargs| - Count(out)
      ensures Verdict(old(errs), errs, Placed(out), CheckKeywords(cx, params, kwargs, Placed(start)))
      decreases kwargs, 6
    {
      hide Shaped, ErrorFreeScope;
      out, hasErrs := start, false;
      var j := 0;
      while j < |kwargs|
        invariant 0 <= j <= |kwargs|
        invariant Ready(env, cx) && old(errs) <= errs && AllGood(cx.reg, errs, params, out) && (hasErrs ==> errs != [])
        invariant Tilt(errs) == Tilt(old(errs)) + Count(start) + j - Count(out)
        invariant old(errs) == [] && errs == [] ==>
          CheckKeywords(cx, params, kwargs, Placed(start)) == CheckKeywords(cx, params, kwargs[j..], Placed(out))
        invariant old(errs) == [] && errs != [] ==> CheckKeywords(cx, params, kwargs, Placed(start)) == Failure(errs[0])
      {
        var ok;
        out, ok := ResolveKeyword(params, kwargs[j], env, out, cx);
        if !ok { hasErrs := true; }
        assert kwargs[j..][1..] == kwargs[j + 1..];
        j := j + 1;
      }
    }

    method ParamIndex(params: seq<Param>, name: string) returns (k: nat)
      ensures k <= |params| && FindParam(params, name) == if k < |params| then Some(k) else None
    {
      k := 0;
      while k < |params| && params[k].name != name
        invariant 0 <= k <= |params| && forall n | 0 <= n < k :: params[n].name != name
      {
        k := k + 1;
      }
      FindParamAt(params, name, k);
    }

    method ResolveKeyword(params: seq<Param>, kw: Kwarg, env: Env<Binding>, start: seq<Option<RArg>>, ghost cx: Ctx)
      returns (out: seq<Option<RArg>>, ok: bool)
      requires Ready(env, cx) && CleanExpr(kw.value) && AllGood(cx.reg, errs, params, start)
      requires forall p | p in params :: p.typ == ERROR_TYPE_ID ==> errs != []
      modifies this`errs
      ensures Ready(env, cx) && old(errs) <= errs && AllGood(cx.reg, errs, params, out) && (ok || errs != [])
      ensures Tilt(errs) == Tilt(old(errs)) + Count(start) + 1 - Count(out)
      ensures Verdict(old(errs), errs, Placed(out), CheckKeyword(cx, params, kw, Placed(start)))
      decreases kw, 6
    {
      hide Tilt, HasBad, Shaped, ErrorFreeScope, CheckExpr, CleanExpr, ErrorFree;
      var k := ParamIndex(params, kw.key);
      out, ok := start, false;
      if k == |params| {
        Report(ArgUnknown);
      } else if start[k].Some? {
        Report(ArgDuplicate);
      } else {
        var arg;
        arg, ok := ResolveArg(params[k], kw.value, env, cx);
        PlaceOne(start, k, arg);
        StillGood(cx.reg, old(errs), errs, params, start);
        out := start[k := Some(arg)];
        return;
      }
      StillGood(cx.reg, old(errs), errs, params, start);
    }

    /** Reports every parameter without an argument. */
    method ReportMissing(out: seq<Option<RArg>>) returns (any: bool)
      modifies this`errs
      ensures old(errs) <= errs && Tilt(errs) == Tilt(old(errs)) - (|out| - Count(out))
      ensures !any <==> forall i | 0 <= i < |out| :: out[i].Some?
      ensures if any then errs != [] else errs == old(errs)
    {
      any := false;
      var i := 0;
      while i < |out|
        invariant 0 <= i <= |out| && old(errs) <= errs
        invariant Tilt(errs) == Tilt(old(errs)) - (i - Count(out[..i]))
        invariant !any <==> forall k | 0 <= k < i :: out[k].Some?
        invariant if any then errs != [] else errs == old(errs)
      {
        assert out[..i + 1][..i] == out[..i];
        if out[i].None? {
          Report(ArgMissing);
          any := true;
        }
        i := i + 1;
      }
      assert out[..i] == out;
    }

    // ---------- Statements ----------

    method ResolveBlock(stmts: seq<Stmt>, env: Env<Binding>, ghost cx: Ctx) returns (rs: seq<RStmt>)
      requires Ready(env, cx) && CleanBlock(stmts)
      modifies this`errs, env
      ensures Grew(old(errs), errs) && (AnyBad(rs) ==> errs != [])
      ensures Verdict(old(errs), errs, rs, CheckBlock(cx, stmts))
      decreases stmts, 10
    {
      hide Tilt, Shaped, ErrorFreeScope, CheckStmt;
      rs := [];
      ghost var now := cx;
      BlockStart(cx, stmts);
      var i := 0;
      while i < |stmts|
        invariant 0 <= i <= |stmts| && Ready(env, now) && Grew(old(errs), errs) && (AnyBad(rs) ==> errs != [])
        invariant old(errs) == [] && errs == [] ==> CheckBlock(cx, stmts) == Preceded(rs, CheckBlock(now, stmts[i..]))
        invariant old(errs) == [] && errs != [] ==> CheckBlock(cx, stmts) == Failure(errs[0])
      {
        BlockStep(now, stmts, i, rs);
        var r;
        r, now := ResolveStmt(stmts[i], env, now);
        rs := rs + [r];
        i := i + 1;
      }
      assert rs + [] == rs;
    }

    /** next is the context the statement leaves. */
    method ResolveStmt(s: Stmt, env: Env<Binding>, ghost cx: Ctx) returns (r: RStmt, ghost next: Ctx)
      requires Ready(env, cx) && CleanStmt(s)
      modifies this`errs, env
      ensures Ready(env, next) && Grew(old(errs), errs) && (HasBadStmt(r) ==> errs != [])
      ensures Verdict(old(errs), errs, r, CheckStmt(cx, s))
      ensures if s.Let? then errs == [] ==> next == After(cx, r) else next == cx && !r.RLet?
      decreases s, 9
    {
      hide Tilt, Shaped, ErrorFreeScope;
      next := cx;
      match s
      case ExprStmt(e) =>
        if IsEmit(e) {
          r := ResolveEmit(e, env, cx);
          return;
        }
        var v := ResolveExpr(e, env, cx);
        r := RExprStmt(v);
      case Let(name, value) => r, next := ResolveLet(name.value, value, env, cx);
      case Assign(target, value) => r := ResolveAssign(target, value, env, cx);
      case Block(stmts) =>
        var rs := ResolveInner(stmts, env, cx);
        r := RBlock(rs);
      case If(_, _, _) => r := ResolveIf(s, env, cx);
    }

    /** A block in a scope of its own. */
    method ResolveInner(stmts: seq<Stmt>, env: Env<Binding>, ghost cx: Ctx) returns (rs: seq<RStmt>)
      requires Ready(env, cx) && CleanBlock(stmts)
      modifies this`errs
      ensures Ready(env, cx) && Grew(old(errs), errs) && (AnyBad(rs) ==> errs != [])
      ensures Verdict(old(errs), errs, rs, CheckBlock(cx.Enter(), stmts))
      decreases stmts, 11
    {
      hide Shaped, ErrorFreeScope;
      var inner := new Env<Binding>.Enclosed(env);
      EnterSane(errs, cx.frames);
      rs := ResolveBlock(stmts, inner, cx.Enter());
    }

    static lemma EnterSane(errs: seq<Code>, frames: Symbols)
      requires Sane(errs, frames)
      ensures Sane(errs, [map[]] + frames)
    {
      forall x ensures KeptWell(errs, x, Lookup([map[]] + frames, x)) {
        LookupPush(frames, x);
        SaneAt(errs, frames, x);
      }
      MakeSane(errs, [map[]] + frames);
    }

    static lemma BindSane(errs: seq<Code>, frames: Symbols, symbol: string, b: Binding)
      requires frames != [] && Sane(errs, frames) && KeptWell(errs, symbol, Some(b))
      ensures Sane(errs, SetHead(frames, symbol, b))
    {
      forall x ensures KeptWell(errs, x, Lookup(SetHead(frames, symbol, b), x)) {
        LookupSetHead(frames, symbol, b, x);
        SaneAt(errs, frames, x);
      }
      MakeSane(errs, SetHead(frames, symbol, b));
    }

    /** Binds a symbol in the innermost scope, which stays in order. */
    method Bind(symbol: string, b: Binding, env: Env<Binding>, ghost cx: Ctx) returns (ghost next: Ctx)
      requires Ready(env, cx) && KeptWell(errs, symbol, Some(b)) && cx.frames != []
      modifies env
      ensures Ready(env, next) && next == cx.(frames := SetHead(cx.frames, symbol, b))
    {
      hide Shaped, ErrorFreeScope;
      BindSane(errs, cx.frames, symbol, b);
      env.Set(symbol, b);
      next := cx.(frames := SetHead(cx.frames, symbol, b));
    }

    method ResolveLet(name: string, value: Expr, env: Env<Binding>, ghost cx: Ctx) returns (r: RStmt, ghost next: Ctx)
      requires Ready(env, cx) && CleanExpr(value) && Plain(name)
      modifies this`errs, env
      ensures Ready(env, next) && Grew(old(errs), errs) && (HasBadStmt(r) ==> errs != [])
      ensures Verdict(old(errs), errs, r, CheckLet(cx, name, value))
      ensures errs == [] ==> next == After(cx, r)
    {
      hide Tilt, Shaped, ErrorFreeScope, HasBad, ErrorFree;
      next := cx;
      var b := env.Get(name);
      if b.Some? {
        Report(if b.value.Reserved() then ReservedName else DuplicateDeclaration);
        var _ := ResolveExpr(value, env, cx);
        return RBadStmt, cx;
      }
      var v := ResolveExpr(value, env, cx);
      next := Bind(name, LetBinding(v.Type()), env, cx);
      r := RLet(name, v, v.Type());
    }

    method ResolveAssign(target: Expr, value: Expr, env: Env<Binding>, ghost cx: Ctx) returns (r: RStmt)
      requires Ready(env, cx) && CleanExpr(target) && CleanExpr(value)
      modifies this`errs
      ensures Ready(env, cx) && Grew(old(errs), errs) && (HasBadStmt(r) ==> errs != [])
      ensures Verdict(old(errs), errs, r, CheckAssign(cx, target, value))
      ensures !r.RLet?
    {
      hide Tilt, Shaped, ErrorFreeScope;
      var v := ResolveExpr(value, env, cx);
      var b := ResolveTarget(target, env, cx);
      if b.None? { return RBadStmt; }
      r := FinishAssign(target, v, b.value, cx.reg);
    }

    method FinishAssign(target: Expr, v: RExpr, b: Binding, ghost known: Registry) returns (r: RStmt)
      requires known == reg.View() && ErrorFree(known) && Honest(errs, v) && (b.t == ERROR_TYPE_ID ==> errs != [])
      modifies this`errs
      ensures Grew(old(errs), errs) && (HasBadStmt(r) ==> errs != []) && !r.RLet?
      ensures Verdict(old(errs), errs, r, AssignTo(known, target, v, b))
    {
      hide Tilt, HasBad, CoerceTo, ErrorFree, TargetName, LiveRegistry.View;
      if !b.assignable {
        Report(NotAssignable);
        return RBadStmt;
      }
      var fitted := Coerce(v, b.t, known);
      if fitted.None? { return RBadStmt; }
      if b.slot.Some? { return RAssignSlot(b.slot.value, fitted.value, b.t); }
      r := RAssignName(TargetName(target), fitted.value, b.t);
    }

    /** The value as a cell of type t takes it; nothing is said again about a value or cell of the error type. */
    method Coerce(r: RExpr, t: TypeID, ghost known: Registry) returns (v: Option<RExpr>)
      requires known == reg.View() && ErrorFree(known) && Honest(errs, r) && (t == ERROR_TYPE_ID ==> errs != [])
      modifies this`errs
      ensures Grew(old(errs), errs) && if v.None? then errs != [] else Honest(errs, v.value)
      ensures old(errs) == [] ==>
        match CoerceTo(known, r, t)
        case Some(u) => errs == [] && v == Some(u)
        case None => errs != [] && errs[0] == TypeMismatch
    {
      hide Tilt;
      if r.Type() == ERROR_TYPE_ID || t == ERROR_TYPE_ID { return None; }
      if r.Type() == t { return Some(r); }
      var rule := reg.View().LookupCoerce(r.Type(), t);
      if rule.None? {
        Report(TypeMismatch);
        return None;
      }
      assert CoerceKey(r.Type(), t) in known.coerces;
      v := Some(RCoerce(r, rule.value.evalType, rule.value.fn));
    }

    method ResolveTarget(target: Expr, env: Env<Binding>, ghost cx: Ctx) returns (b: Option<Binding>)
      requires Ready(env, cx)
      modifies this`errs
      ensures Ready(env, cx) && Grew(old(errs), errs) && (b.None? ==> errs != [])
        && (b.Some? ==> b.value.t == ERROR_TYPE_ID ==> errs != [])
      ensures b.Some? ==> errs == old(errs) && CheckTarget(cx, target) == Success(b.value)
      ensures b.None? && old(errs) == [] ==> CheckTarget(cx, target) == Failure(errs[0])
    {
      hide Tilt, Shaped, ErrorFreeScope;
      if target.Ident? {
        b := LookupOr(target.name, UndefinedVar, env, cx);
        return;
      }
      var isSlot := target.Member?;
      if isSlot { isSlot := AtDeclWord(target.receiver, env, cx); }
      if isSlot {
        b := LookupOr(Qualified(target.receiver.name, target.name), SlotUndeclared, env, cx);
        return;
      }
      Report(InvalidAssignTarget);
      b := None;
    }

    method LookupOr(symbol: string, code: Code, env: Env<Binding>, ghost cx: Ctx) returns (b: Option<Binding>)
      requires Ready(env, cx) && Weight(code) == 0
      modifies this`errs
      ensures Ready(env, cx) && Grew(old(errs), errs) && (b.None? ==> errs != [])
        && (b.Some? ==> b.value.t == ERROR_TYPE_ID ==> errs != [])
      ensures b == Lookup(cx.frames, symbol) && if b.None? then errs == old(errs) + [code] else errs == old(errs)
    {
      hide Tilt, Shaped, ErrorFreeScope;
      b := env.Get(symbol);
      SaneAt(errs, cx.frames, symbol);
      if b.None? { Report(code); }
    }

    method ResolveIf(s: Stmt, env: Env<Binding>, ghost cx: Ctx) returns (r: RStmt)
      requires Ready(env, cx) && s.If? && CleanStmt(s)
      modifies this`errs, env
      ensures Ready(env, cx) && Grew(old(errs), errs) && (HasBadStmt(r) ==> errs != []) && !r.RLet?
      ensures Verdict(old(errs), errs, r, CheckStmt(cx, s))
      decreases s, 8
    {
      hide Tilt, Shaped, ErrorFreeScope;
      var c := ResolveCondition(s.cond.value, env, cx);
      var rs := ResolveInner(s.consequence, env, cx);
      if s.alternative.None? { return RIf(c, rs, None); }
      var alt, _ := ResolveStmt(s.alternative.value, env, cx);
      r := RIf(c, rs, Some(alt));
    }

    method ResolveCondition(e: Expr, env: Env<Binding>, ghost cx: Ctx) returns (c: RExpr)
      requires Ready(env, cx) && CleanExpr(e)
      modifies this`errs
      ensures Ready(env, cx) && Grew(old(errs), errs) && Honest(errs, c)
      ensures Verdict(old(errs), errs, c, CheckCondition(cx, e))
    {
      hide Shaped, ErrorFreeScope;
      c := ResolveExpr(e, env, cx);
      if c.Type() != ERROR_TYPE_ID && c.Type() != BOOL_ID { Report(TypeMismatch); }
    }

    method ResolveEmit(call: Expr, env: Env<Binding>, ghost cx: Ctx) returns (r: RStmt)
      requires Ready(env, cx) && call.Call? && CleanExpr(call)
      modifies this`errs
      ensures Ready(env, cx) && Grew(old(errs), errs) && (HasBadStmt(r) ==> errs != [])
      ensures Verdict(old(errs), errs, r, CheckEmit(cx, call))
      ensures !r.RLet?
    {
      hide Tilt, CleanExpr, CheckEmitTo, HasBad, Shaped, ErrorFreeScope;
      if call.args == [] || !call.args[0].Ident? {
        Report(InvalidEmitTarget);
        return RBadStmt;
      }
      var output := call.args[0].name;
      var b := env.Get(output);
      SaneAt(errs, cx.frames, output);
      if b.None? {
        Report(UndefinedIdent);
        return RBadStmt;
      }
      if b.value.kind != KOutput {
        Report(InvalidEmitTarget);
        return RBadStmt;
      }
      r := EmitTo(output, b.value.t, call, env, cx);
    }

    /** An emission to an output of type t. */
    method EmitTo(output: string, t: TypeID, call: Expr, env: Env<Binding>, ghost cx: Ctx) returns (r: RStmt)
      requires Ready(env, cx) && call.Call? && call.args != [] && CleanExpr(call) && (t == ERROR_TYPE_ID ==> errs != [])
      modifies this`errs
      ensures Ready(env, cx) && Grew(old(errs), errs) && (HasBadStmt(r) ==> errs != [])
      ensures Verdict(old(errs), errs, r, CheckEmitTo(cx, output, t, call))
      ensures !r.RLet?
    {
      hide Tilt, CleanExpr, CheckArgs, Shaped, ErrorFreeScope;
      if phase != InRun { Report(EmitOutsideRun); }
      var params := reg.View().EmitRule(t).params;
      EmitParamsOk(cx.reg, t);
      var args, valid := ResolveArgs(params, call, 1, env, cx);
      if !valid { return RBadStmt; }
      CompleteIsHonest(cx.reg, errs, params, args);
      r := REmit(output, args, t);
    }

    // ---------- Declarations ----------

    /** The state between declarations; the bound scope and the slots counted are those of cx. */
    ghost predicate AtDecl(env: Env<Binding>, cx: Ctx)
      reads this, reg, env.chain
    {
      Ready(env, cx) && slotCount == |cx.slots| && cx.frames != [] && WordsMatch(cx.reg.kinds)
        && HonestDecls(errs, decls)
    }

    static ghost predicate WordsMatch(kinds: map<string, DeclKind>) {
      forall w | w in kinds :: kinds[w].word == w
    }

    static ghost predicate HonestDecls(errs: seq<Code>, decls: seq<RDecl>) {
      forall d | d in decls && BadDecl(d) :: errs != []
    }

    static predicate BadDecl(d: RDecl) {
      match d
      case RConst(_, e, t) => HasBad(e) || t == ERROR_TYPE_ID
      case RInput(_, t) => t == ERROR_TYPE_ID
      case ROutput(_, t) => t == ERROR_TYPE_ID
      case RSlotDecl(slot, init) => slot.t == ERROR_TYPE_ID || (init.Some? && HasBad(init.value))
    }

    /** A declaration read clean adds exactly what the checker says, and leaves the context it says. */
    static ghost predicate DeclVerdict(before: seq<Code>, after: seq<Code>, cx: Ctx, next: Ctx, ds: seq<RDecl>,
        ds': seq<RDecl>, spec: Check<(Registry, RDecl)>) {
      before == [] ==>
        match spec
        case Success(v) => after == [] && ds' == ds + [v.1] && next == AfterDecl(cx, v.1).(reg := v.0)
        case Failure(code) => after != [] && after[0] == code
    }

    method ResolveDecl(d: Decl, env: Env<Binding>, ghost cx: Ctx) returns (ghost next: Ctx)
      requires AtDecl(env, cx) && CleanDecl(d)
      modifies this`errs, this`slotCount, this`decls, env, reg
      ensures AtDecl(env, next) && Grew(old(errs), errs)
        && next == cx.(frames := next.frames, slots := next.slots, reg := next.reg)
      ensures DeclVerdict(old(errs), errs, cx, next, old(decls), decls, CheckDecl(cx, d))
    {
      hide Shaped, ErrorFreeScope;
      match d
      case Const(name, value) => next := ResolveConst(name.value, value.value, env, cx);
      case Input(name, t) => next := ResolvePort(true, name.value, t.value, env, cx);
      case Output(name, t) => next := ResolvePort(false, name.value, t.value, env, cx);
      case Kind(_, _, _, _) => next := ResolveKind(d, env, cx);
    }

    /** Declares nothing over a name that is taken. */
    method CheckTaken(symbol: string, env: Env<Binding>, ghost cx: Ctx) returns (taken: bool)
      requires Ready(env, cx)
      modifies this`errs
      ensures Ready(env, cx) && Grew(old(errs), errs) && taken == Lookup(cx.frames, symbol).Some?
      ensures if taken then errs == old(errs) + [Taken(Lookup(cx.frames, symbol)).error] else errs == old(errs)
    {
      hide Tilt, Shaped, ErrorFreeScope;
      var b := env.Get(symbol);
      taken := b.Some?;
      if taken { Report(if b.value.Reserved() then ReservedName else DuplicateDeclaration); }
    }

    /** Adds a declaration and binds its symbol. */
    method Declare(rd: RDecl, symbol: string, b: Binding, env: Env<Binding>, ghost cx: Ctx) returns (ghost next: Ctx)
      requires AtDecl(env, cx) && !rd.RSlotDecl? && KeptWell(errs, symbol, Some(b)) && (BadDecl(rd) ==> errs != [])
      modifies this`decls, env
      ensures AtDecl(env, next) && next == cx.(frames := SetHead(cx.frames, symbol, b)) && decls == old(decls) + [rd]
    {
      hide Shaped, ErrorFreeScope;
      next := Bind(symbol, b, env, cx);
      decls := decls + [rd];
      SlotsAppend(old(decls), rd);
    }

    method ResolveConst(name: string, value: Expr, env: Env<Binding>, ghost cx: Ctx) returns (ghost next: Ctx)
      requires AtDecl(env, cx) && Plain(name) && CleanExpr(value)
      modifies this`errs, this`decls, env
      ensures AtDecl(env, next) && Grew(old(errs), errs) && next == cx.(frames := next.frames)
      ensures DeclVerdict(old(errs), errs, cx, next, old(decls), decls, CheckConst(cx, name, value))
    {
      hide Tilt, Shaped, ErrorFreeScope;
      next := cx;
      var taken := CheckTaken(name, env, cx);
      if taken { return; }
      var v := ResolveExpr(value, env, cx);
      next := Declare(RConst(name, v, v.Type()), name, PlainBinding(v.Type(), KConst), env, cx);
    }

    // The source has this twice, for inputs and for outputs.
    method ResolvePort(isInput: bool, name: string, t: TypeDecl, env: Env<Binding>, ghost cx: Ctx)
      returns (ghost next: Ctx)
      requires AtDecl(env, cx) && Plain(name)
      modifies this`errs, this`decls, env, reg
      ensures AtDecl(env, next) && Grew(old(errs), errs) && next == cx.(frames := next.frames, reg := next.reg)
      ensures DeclVerdict(old(errs), errs, cx, next, old(decls), decls, CheckPort(cx, isInput, name, t))
    {
      hide Tilt, Shaped, ErrorFreeScope;
      next := cx;
      var taken := CheckTaken(name, env, cx);
      if taken { return; }
      var id;
      id, next := ResolvePortType(t, if isInput then "input" else "output", name, env, cx);
      var rd := if isInput then RInput(name, id) else ROutput(name, id);
      next := Declare(rd, name, PlainBinding(id, if isInput then KInput else KOutput), env, next);
    }

    method ResolvePortType(t: TypeDecl, space: string, name: string, env: Env<Binding>, ghost cx: Ctx)
      returns (id: TypeID, ghost next: Ctx)
      requires AtDecl(env, cx)
      modifies this`errs, reg
      ensures AtDecl(env, next) && Grew(old(errs), errs) && next == cx.(reg := next.reg)
        && (id == ERROR_TYPE_ID ==> errs != [])
      ensures Verdict(old(errs), errs, (next.reg, id), CheckPortType(cx.reg, t, space, name))
    {
      hide Tilt, Shaped, ErrorFreeScope, CheckInlineType;
      next := cx;
      match t
      case Named(known) =>
        if known in reg.types { return known, cx; }
        Report(UndefinedType);
        return ERROR_TYPE_ID, cx;
      case Structural(fieldDecls) => id, next := ResolveInlineType(fieldDecls, Qualified(space, name), env, cx);
    }

    /** Registers an inline type under its qualified name. */
    method ResolveInlineType(fieldDecls: seq<FieldDecl>, typeName: TypeID, env: Env<Binding>, ghost cx: Ctx)
      returns (id: TypeID, ghost next: Ctx)
      requires AtDecl(env, cx)
      modifies this`errs, reg
      ensures AtDecl(env, next) && Grew(old(errs), errs) && next == cx.(reg := next.reg)
        && (id == ERROR_TYPE_ID ==> errs != [])
      ensures Verdict(old(errs), errs, (next.reg, id), CheckInlineType(cx.reg, fieldDecls, typeName))
    {
      hide Tilt, Shaped, ErrorFreeScope, CheckFields, ErrorFree, BadDecl;
      id, next := ERROR_TYPE_ID, cx;
      var fields, ok := ResolveFields(fieldDecls, cx.reg);
      if !ok { return; }
      ok := RegisterInline(typeName, fields, cx.reg);
      next := cx.(reg := reg.View());
      if ok { id := typeName; }
    }

    method RegisterInline(typeName: TypeID, fields: seq<Field>, ghost known: Registry) returns (ok: bool)
      requires known == reg.View() && ErrorFree(known)
      modifies this`errs, reg
      ensures ErrorFree(reg.View()) && reg.View().kinds == known.kinds && (ok ==> typeName != ERROR_TYPE_ID)
      ensures match known.RegisterScriptType(typeName, fields)
        case Success(more) => ok && errs == old(errs) && reg.View() == more
        case Failure(_) =>
          !ok && Grew(old(errs), errs) && errs == old(errs) + [TypeRegistrationFail] && reg.View() == known
    {
      hide Tilt, ErrorFree;
      var refusal := reg.RegisterScriptType(typeName, fields);
      if refusal.Some? {
        Report(TypeRegistrationFail);
        return false;
      }
      ScriptTypeErrorFree(known, typeName, fields);
      ScriptTypeExtends(known, typeName, fields);
      ok := true;
    }

    method ResolveFields(fieldDecls: seq<FieldDecl>, ghost known: Registry) returns (fields: seq<Field>, ok: bool)
      requires known == reg.View()
      modifies this`errs
      ensures Grew(old(errs), errs) && (!ok ==> errs != [])
      ensures Verdict(old(errs), errs, fields, CheckFields(known, fieldDecls, {}, []))
      ensures errs == [] ==> ok
    {
      hide Tilt;
      fields, ok := [], true;
      var seen: set<string> := {};
      var i := 0;
      while i < |fieldDecls|
        invariant 0 <= i <= |fieldDecls| && known == reg.View() && Grew(old(errs), errs) && (!ok ==> errs != [])
          && (errs == [] ==> ok)
        invariant old(errs) == [] && errs == [] ==>
          CheckFields(known, fieldDecls, {}, []) == CheckFields(known, fieldDecls[i..], seen, fields)
        invariant old(errs) == [] && errs != [] ==> CheckFields(known, fieldDecls, {}, []) == Failure(errs[0])
      {
        var f := fieldDecls[i];
        assert fieldDecls[i..][0] == f && fieldDecls[i..][1..] == fieldDecls[i + 1..];
        var wrong := if f.name in seen then Some(DuplicateDeclaration)
          else if f.typ !in reg.types then Some(UndefinedType) else None;
        seen := seen + {f.name};
        if wrong.Some? {
          Report(wrong.value);
          ok := false;
        } else {
          fields := fields + [Field(f.name, f.typ)];
        }
        i := i + 1;
      }
    }

    method ResolveKind(d: Decl, env: Env<Binding>, ghost cx: Ctx) returns (ghost next: Ctx)
      requires AtDecl(env, cx) && CleanDecl(d) && d.Kind?
      modifies this`errs, this`slotCount, this`decls, env
      ensures AtDecl(env, next) && Grew(old(errs), errs) && next == cx.(frames := next.frames, slots := next.slots)
      ensures DeclVerdict(old(errs), errs, cx, next, old(decls), decls,
        CheckKind(cx, d.word, d.slotName, d.slotType, d.init))
    {
      hide Tilt, Shaped, ErrorFreeScope;
      next := cx;
      if d.word !in reg.kinds {
        Report(UnknownDeclKeyword);
        return;
      }
      var kind := reg.kinds[d.word];
      var symbol := SlotSymbol(kind, d.slotName);
      var taken := CheckTaken(symbol, env, cx);
      if taken { return; }
      var t, init, fits := ResolveSlot(kind, d.slotType, d.init, env, cx);
      if !fits { return; }
      var slot := Slot(kind.word, d.slotName, t, slotCount);
      next := DeclareSlot(slot, init, symbol, kind.assignable, env, cx);
    }

    method DeclareSlot(slot: Slot, init: Option<RExpr>, symbol: string, assignable: bool, env: Env<Binding>,
        ghost cx: Ctx) returns (ghost next: Ctx)
      requires AtDecl(env, cx) && slot.index == slotCount
      requires BadDecl(RSlotDecl(slot, init)) ==> errs != []
      modifies this`slotCount, this`decls, env
      ensures AtDecl(env, next) && decls == old(decls) + [RSlotDecl(slot, init)]
      ensures next == cx.(frames := SetHead(cx.frames, symbol, SlotBinding(slot, assignable)),
        slots := cx.slots + [slot])
    {
      hide Shaped, ErrorFreeScope, LiveRegistry.View, Env.Frames;
      slotCount := slotCount + 1;
      next := Bind(symbol, SlotBinding(slot, assignable), env, cx);
      decls := decls + [RSlotDecl(slot, init)];
      next := next.(slots := cx.slots + [slot]);
      SlotsAppend(old(decls), RSlotDecl(slot, init));
    }

    /** A slot's type and fitted initializer; a mismatch between the two drops the declaration. */
    method ResolveSlot(kind: DeclKind, slotType: Option<string>, init: Option<Expr>, env: Env<Binding>, ghost cx: Ctx)
      returns (t: TypeID, value: Option<RExpr>, fits: bool)
      requires Ready(env, cx) && (init.Some? ==> CleanExpr(init.value))
      modifies this`errs
      ensures Ready(env, cx) && Grew(old(errs), errs) && (!fits ==> errs != [])
      ensures t == ERROR_TYPE_ID || (value.Some? && HasBad(value.value)) ==> errs != []
      ensures Verdict(old(errs), errs, (t, value), SlotParts(cx, kind, slotType, init)) && (errs == [] ==> fits)
    {
      hide Tilt, Shaped, ErrorFreeScope;
      t := ResolveSlotHead(kind, slotType, init.Some?, cx.reg);
      value := None;
      if init.Some? {
        var v := ResolveExpr(init.value, env, cx);
        value := Some(v);
      }
      t, value, fits := FitInitializer(kind, slotType.Some?, t, value, cx.reg);
    }

    method ResolveSlotHead(kind: DeclKind, slotType: Option<string>, hasInit: bool, ghost known: Registry)
      returns (t: TypeID)
      requires known == reg.View()
      modifies this`errs
      ensures Grew(old(errs), errs) && (slotType.Some? && t != slotType.value ==> errs != [])
        && (slotType.None? ==> t == ERROR_TYPE_ID)
      ensures Verdict(old(errs), errs, (), SlotHead(known, kind, slotType, hasInit))
      ensures slotType.Some? && slotType.value == ERROR_TYPE_ID && slotType.value !in known.types ==> errs != []
    {
      hide Tilt;
      if kind.init.InitRequired? && !hasInit { Report(InitializerRequired); }
      if kind.init.InitForbidden? && hasInit { Report(InitializerForbidden); }
      t := ERROR_TYPE_ID;
      if slotType.Some? {
        if slotType.value in reg.types { t := slotType.value; } else { Report(UndefinedType); }
      }
    }

    method FitInitializer(kind: DeclKind, given: bool, slotType: TypeID, init: Option<RExpr>, ghost known: Registry)
      returns (t: TypeID, value: Option<RExpr>, fits: bool)
      requires known == reg.View() && ErrorFree(known) && (init.Some? ==> Honest(errs, init.value))
      requires given && slotType == ERROR_TYPE_ID ==> errs != []
      modifies this`errs
      ensures Grew(old(errs), errs) && (!fits ==> errs != [])
      ensures t == ERROR_TYPE_ID || (value.Some? && HasBad(value.value)) ==> errs != []
      ensures Verdict(old(errs), errs, (t, value), FitSlot(known, kind, if given then Some(slotType) else None, init))
        && (errs == [] ==> fits)
    {
      hide Tilt;
      t, value, fits := FitValueTo(given, slotType, init, known);
      if !fits { return; }
      if kind.allowed != [] && t != ERROR_TYPE_ID && t !in kind.allowed { Report(DeclTypeNotAllowed); }
    }

    method FitValueTo(given: bool, slotType: TypeID, init: Option<RExpr>, ghost known: Registry)
      returns (t: TypeID, value: Option<RExpr>, fits: bool)
      requires known == reg.View() && ErrorFree(known) && (init.Some? ==> Honest(errs, init.value))
      requires given && slotType == ERROR_TYPE_ID ==> errs != []
      modifies this`errs
      ensures Grew(old(errs), errs) && (!fits ==> errs != [])
      ensures t == ERROR_TYPE_ID || (value.Some? && HasBad(value.value)) ==> errs != []
      ensures Verdict(old(errs), errs, (t, value), FitValue(known, if given then Some(slotType) else None, init))
        && (errs == [] ==> fits)
    {
      hide Tilt;
      t, value, fits := slotType, init, true;
      if given && init.Some? {
        if init.value.Type() != ERROR_TYPE_ID && t != ERROR_TYPE_ID {
          value := Coerce(init.value, t, known);
          fits := value.Some?;
        }
      } else if init.Some? {
        t := init.value.Type();
      } else if !given {
        t := ERROR_TYPE_ID;
        Report(TypeRequired);
      }
    }
  }

  ghost function DeclsAfter(done: seq<RDecl>, rest: Check<(Ctx, seq<RDecl>)>): Check<(Ctx, seq<RDecl>)> {
    match rest case Success(r) => Success((r.0, done + r.1)) case Failure(code) => Failure(code)
  }

  lemma DeclsStart(cx: Ctx, ds: seq<Decl>)
    ensures CheckDecls(cx, ds) == DeclsAfter([], CheckDecls(cx, ds[0..]))
  {
    assert ds[0..] == ds;
    var r := CheckDecls(cx, ds);
    assert r.Success? ==> [] + r.value.1 == r.value.1;
  }

  lemma DeclsStep(cx: Ctx, ds: seq<Decl>, i: nat, done: seq<RDecl>)
    requires i < |ds|
    ensures var head := CheckDecl(cx, ds[i]);
      DeclsAfter(done, CheckDecls(cx, ds[i..]))
      == if head.Failure? then Failure(head.error)
         else DeclsAfter(done + [head.value.1],
           CheckDecls(AfterDecl(cx, head.value.1).(reg := head.value.0), ds[i + 1..]))
  {
    assert ds[i..][1..] == ds[i + 1..];
    if CheckDecl(cx, ds[i]).Success? {
      var first := CheckDecl(cx, ds[i]).value;
      var rest := CheckDecls(AfterDecl(cx, first.1).(reg := first.0), ds[i + 1..]);
      assert rest.Success? ==> done + ([first.1] + rest.value.1) == (done + [first.1]) + rest.value.1;
    }
  }

  lemma {:induction false} SlotsAppend(ds: seq<RDecl>, d: RDecl)
    ensures Slots(ds + [d]) == Slots(ds) + if d.RSlotDecl? then [d.slot] else []
  {
    if ds == [] {
      assert ds + [d] == [d];
    } else {
      SlotsAppend(ds[1..], d);
      assert (ds + [d])[1..] == ds[1..] + [d];
    }
  }

  ghost function Preceded(done: seq<RStmt>, rest: Check<seq<RStmt>>): Check<seq<RStmt>> {
    match rest case Success(r) => Success(done + r) case Failure(code) => Failure(code)
  }

  lemma BlockStart(cx: Ctx, stmts: seq<Stmt>)
    ensures CheckBlock(cx, stmts) == Preceded([], CheckBlock(cx, stmts[0..]))
  {
    assert stmts[0..] == stmts;
    var r := CheckBlock(cx, stmts);
    assert r.Success? ==> [] + r.value == r.value;
  }

  lemma BlockStep(cx: Ctx, stmts: seq<Stmt>, i: nat, done: seq<RStmt>)
    requires i < |stmts|
    ensures var head := CheckStmt(cx, stmts[i]);
      Preceded(done, CheckBlock(cx, stmts[i..]))
      == if head.Failure? then Failure(head.error)
        else Preceded(done + [head.value], CheckBlock(After(cx, head.value), stmts[i + 1..]))
  {
    assert stmts[i..][1..] == stmts[i + 1..];
    if CheckStmt(cx, stmts[i]).Success? {
      var r := CheckStmt(cx, stmts[i]).value;
      var rest := CheckBlock(After(cx, r), stmts[i + 1..]);
      assert rest.Success? ==> done + ([r] + rest.value) == (done + [r]) + rest.value;
    }
  }

  lemma EmitParamsOk(reg: Registry, t: TypeID)
    requires ErrorFree(reg)
    ensures forall p | p in reg.EmitRule(t).params :: p.typ == ERROR_TYPE_ID ==> t == ERROR_TYPE_ID
  {
    var fields := reg.FieldsOf(t);
    if fields != [] {
      forall p | p in FieldParams(fields) ensures p.typ != ERROR_TYPE_ID {
        var i :| 0 <= i < |fields| && FieldParams(fields)[i] == p;
        assert fields[i] in reg.types[t].fields;
      }
    }
  }

  // ---------- Counting arguments ----------

  function Count(out: seq<Option<RArg>>): nat {
    if out == [] then 0 else Count(out[..|out| - 1]) + if out[|out| - 1].Some? then 1 else 0
  }

  /** The arguments placed so far, by parameter index. */
  ghost function Placed(out: seq<Option<RArg>>): map<nat, RArg> {
    map i: nat | i < |out| && out[i].Some? :: out[i].value
  }

  lemma {:induction false} CountNone(out: seq<Option<RArg>>)
    requires forall i | 0 <= i < |out| :: out[i].None?
    ensures Count(out) == 0 && Placed(out) == map[]
  {
    if out != [] { CountNone(out[..|out| - 1]); }
  }

  /** As many arguments as parameters, each placed where none was: then every parameter has one. */
  lemma {:induction false} CountAll(out: seq<Option<RArg>>)
    ensures Count(out) <= |out|
    ensures Count(out) == |out| <==> forall i | 0 <= i < |out| :: out[i].Some?
  {
    if out != [] { CountAll(out[..|out| - 1]); }
  }

  lemma {:induction false} PlaceOne(out: seq<Option<RArg>>, i: nat, arg: RArg)
    requires i < |out| && out[i].None?
    ensures Count(out[i := Some(arg)]) == Count(out) + 1 && Placed(out[i := Some(arg)]) == Placed(out)[i := arg]
  {
    if i == |out| - 1 {
      assert out[i := Some(arg)][..i] == out[..i];
    } else {
      PlaceOne(out[..|out| - 1], i, arg);
      assert out[i := Some(arg)][..|out| - 1] == out[..|out| - 1][i := Some(arg)];
    }
  }

  lemma Collected(params: seq<Param>, out: seq<Option<RArg>>, all: seq<RArg>)
    requires |params| == |out| == |all| && forall i | 0 <= i < |out| :: out[i] == Some(all[i])
    ensures Collect(params, Placed(out)) == Success(all)
  {
    var m := Placed(out);
    assert forall i: nat | i < |params| :: i in m;
    assert Collect(params, m).Success?;
    assert Collect(params, m).value == all;
  }

  ghost function Called(o: RExpr, name: string, rule: CallRule, args: Check<seq<RArg>>): Check<RExpr> {
    match args case Success(all) => Success(RCall(o, name, all, rule.evalType, rule.fn))
      case Failure(code) => Failure(code)
  }

  lemma CallUnfolds(cx: Ctx, e: Expr)
    requires e.Call? && e.callee.Member?
    ensures CheckExpr(cx, e)
         == match CheckReceiver(cx, e.callee.receiver)
            case Failure(code) => Failure(code)
            case Success(o) =>
              match cx.reg.LookupCall(o.Type(), e.callee.name)
              case None => Failure(UndefinedMethod)
              case Some(rule) => Called(o, e.callee.name, rule, CheckArgs(cx, rule.params, e, 0))
  {
  }

  lemma CallRuleOk(reg: Registry, owner: TypeID, name: string)
    requires ErrorFree(reg) && reg.LookupCall(owner, name).Some?
    ensures var rule := reg.LookupCall(owner, name).value;
      rule.evalType != ERROR_TYPE_ID && forall p | p in rule.params :: p.typ != ERROR_TYPE_ID
  {
    assert MemberKey(owner, name) in reg.call;
  }

  /** The first parameter of that name, as a loop finds it. */
  lemma {:induction false} FindParamAt(params: seq<Param>, name: string, k: nat)
    requires k <= |params| && (forall n | 0 <= n < k :: params[n].name != name)
      && (k < |params| ==> params[k].name == name)
    ensures FindParam(params, name) == if k < |params| then Some(k) else None
  {
    if params != [] && params[0].name != name {
      FindParamAt(params[1..], name, k - 1);
    }
  }
}
