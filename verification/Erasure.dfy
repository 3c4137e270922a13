/**
 Accepted programs mean what was written. A resolved tree reads back as a written one: types, rule functions and
 coercions are forgotten, a slot is read back as its name, qualified where its kind is, and an argument is found at
 its parameter's position or under its name. What the checker returns reads back as the tree it was given
 (resolver/resolver.go:41-748).
 */
module Erasure {
  import opened Wrappers
  import opened Tokens
  import opened Values
  import opened Registries
  import opened WellFormed
  import opened Scopes
  import opened Ast
  import opened Resolved
  import opened Typing
  import opened Elaboration
  import opened CheckedPrograms
  import opened AcceptedPrograms

  type Kinds = map<string, DeclKind>

  // ---------- Reading back ----------

  /** r is what e says, made explicit. */
  predicate ReadsBack(kinds: Kinds, r: RExpr, e: Expr)
    decreases r
  {
    match r
    case RBad => false
    case RInt(n) => e == IntLit(n)
    case RFloat(f) => e == FloatLit(f)
    case RStr(s) => e == StrLit(s)
    case RBool(b) => e == BoolLit(b)
    case RIdent(name, _) => e == Ident(name)
    case RSlot(slot) => NamesSlot(kinds, slot, e)
    case RInfix(op, left, right, _, _) => e.Infix? && e.op == op && ReadsBack(kinds, left, e.left)
      && ReadsBack(kinds, right, e.right)
    case RLogical(op, left, right) => e.Infix? && e.op == op && ReadsBack(kinds, left, e.left)
      && ReadsBack(kinds, right, e.right)
    case RPrefix(op, right, _, _) => e.Prefix? && e.op == op && ReadsBack(kinds, right, e.right)
    case RCoerce(inner, _, _) => ReadsBack(kinds, inner, e)
    case RMember(receiver, attribute, _, _) => e.Member? && e.name == attribute
      && ReadsBack(kinds, receiver, e.receiver)
    case RCall(receiver, name, args, _, _) =>
      && e.Call? && e.callee.Member? && e.callee.name == name && ReadsBack(kinds, receiver, e.callee.receiver)
      && ArgsReadBack(kinds, args, e.args, e.kwargs)
  }

  /** How a slot is written: its name, after its kind's word and a dot if the kind is namespaced. */
  predicate NamesSlot(kinds: Kinds, slot: Slot, e: Expr) {
    && slot.kind in kinds
    && e == if kinds[slot.kind].namespaced then Member(Ident(slot.kind), slot.name) else Ident(slot.name)
  }

  /**
   The first arguments are the positional ones in order; each other one is a keyword of its name, and each keyword one
   of them.
   */
  predicate ArgsReadBack(kinds: Kinds, args: seq<RArg>, positional: seq<Expr>, keywords: seq<Kwarg>)
    decreases args, 1
  {
    && |args| == |positional| + |keywords|
    && (forall i | 0 <= i < |positional| :: ReadsBack(kinds, args[i].value, positional[i]))
    && (forall i | |positional| <= i < |args| :: HasKeyword(kinds, args[i], keywords))
    && (forall k | 0 <= k < |keywords| :: IsTaken(kinds, args, |positional|, keywords[k]))
    && DistinctKeys(keywords)
  }

  predicate DistinctKeys(keywords: seq<Kwarg>) {
    forall j, k | 0 <= j < k < |keywords| :: keywords[j].key != keywords[k].key
  }

  predicate HasKeyword(kinds: Kinds, arg: RArg, keywords: seq<Kwarg>)
    decreases arg, 1
  {
    exists k | 0 <= k < |keywords| :: KeywordReadsBack(kinds, arg, keywords[k])
  }

  predicate IsTaken(kinds: Kinds, args: seq<RArg>, from: nat, keyword: Kwarg)
    decreases args, 0
  {
    exists i | from <= i < |args| :: KeywordReadsBack(kinds, args[i], keyword)
  }

  predicate KeywordReadsBack(kinds: Kinds, arg: RArg, keyword: Kwarg)
    decreases arg, 0
  {
    keyword.key == arg.name && ReadsBack(kinds, arg.value, keyword.value)
  }

  predicate StmtReadsBack(kinds: Kinds, r: RStmt, s: Stmt)
    decreases r, 0
  {
    match r
    case RBadStmt => false
    case RLet(name, value, _) => s.Let? && s.letName == Some(name) && ReadsBack(kinds, value, s.value)
    case RAssignName(target, value, _) => s.Assign? && s.target == Ident(target) && ReadsBack(kinds, value, s.value)
    case RAssignSlot(slot, value, _) => s.Assign? && NamesSlot(kinds, slot, s.target)
      && ReadsBack(kinds, value, s.value)
    case RExprStmt(e) => s.ExprStmt? && ReadsBack(kinds, e, s.expr)
    case RBlock(stmts) => s.Block? && BlockReadsBack(kinds, stmts, s.stmts)
    case RIf(cond, consequence, alternative) =>
      && s.If? && s.cond.Some? && ReadsBack(kinds, cond, s.cond.value)
        && BlockReadsBack(kinds, consequence, s.consequence)
      && (alternative.Some? <==> s.alternative.Some?)
      && (alternative.Some? ==> StmtReadsBack(kinds, alternative.value, s.alternative.value))
    case REmit(output, args, _) =>
      && s.ExprStmt? && IsEmit(s.expr) && s.expr.args != [] && s.expr.args[0] == Ident(output)
      && ArgsReadBack(kinds, args, s.expr.args[1..], s.expr.kwargs)
  }

  predicate BlockReadsBack(kinds: Kinds, rs: seq<RStmt>, stmts: seq<Stmt>)
    decreases rs, 1
  {
    |rs| == |stmts| && forall i | 0 <= i < |rs| :: StmtReadsBack(kinds, rs[i], stmts[i])
  }

  /** A port's type: the one named, or one registered under the port's qualified name with the fields written. */
  predicate TypeReadsBack(reg: Registry, id: TypeID, t: TypeDecl, space: string, name: string) {
    match t
    case Named(known) => id == known && known in reg.types
    case Structural(fields) =>
      && id == Qualified(space, name) && id in reg.types && reg.types[id].shape == ScriptShape
      && |reg.types[id].fields| == |fields|
      && forall i | 0 <= i < |fields| :: reg.types[id].fields[i] == Field(fields[i].name, fields[i].typ)
  }

  predicate DeclReadsBack(reg: Registry, r: RDecl, d: Decl) {
    match r
    case RConst(name, value, _) => d.Const? && d.name == Some(name) && d.constValue.Some?
      && ReadsBack(reg.kinds, value, d.constValue.value)
    case RInput(name, t) => d.Input? && d.name == Some(name) && d.portType.Some?
      && TypeReadsBack(reg, t, d.portType.value, "input", name)
    case ROutput(name, t) => d.Output? && d.name == Some(name) && d.portType.Some?
      && TypeReadsBack(reg, t, d.portType.value, "output", name)
    case RSlotDecl(slot, init) =>
      && d.Kind? && d.word == slot.kind && d.slotName == slot.name
      && (d.slotType.Some? ==> slot.t == d.slotType.value)
      && (d.slotType.None? ==> init.Some? && slot.t == init.value.Type())
      && (init.Some? <==> d.init.Some?) && (init.Some? ==> ReadsBack(reg.kinds, init.value, d.init.value))
  }

  predicate ProgramReadsBack(reg: Registry, r: RProgram, p: Program) {
    && |r.decls| == |p.decls| && (forall i | 0 <= i < |r.decls| :: DeclReadsBack(reg, r.decls[i], p.decls[i]))
    && (r.initFn.Some? <==> p.initFn.Some?)
      && (r.initFn.Some? ==> BlockReadsBack(reg.kinds, r.initFn.value, p.initFn.value))
    && p.runFn.Some? && BlockReadsBack(reg.kinds, r.runFn, p.runFn.value)
  }

  // ---------- Names of slots ----------

  /** A slot in scope is bound under the symbol it is written as, and only slots have dotted symbols. */
  ghost predicate SlotNamed(kinds: Kinds, x: string, b: Binding) {
    && ('.' in x ==> b.slot.Some?)
    && (b.slot.Some? ==>
         var s := b.slot.value;
         s.kind in kinds && kinds[s.kind].word == s.kind && Plain(s.kind) && Plain(s.name)
           && x == SlotSymbol(kinds[s.kind], s.name))
  }

  ghost predicate SlotsNamed(cx: Ctx) {
    forall x :: NamedAt(cx, x)
  }

  ghost predicate NamedAt(cx: Ctx, x: string) {
    Lookup(cx.frames, x).Some? ==> SlotNamed(cx.reg.kinds, x, Lookup(cx.frames, x).value)
  }

  lemma EnterNamed(cx: Ctx)
    requires SlotsNamed(cx)
    ensures SlotsNamed(cx.Enter())
  {
    forall x ensures NamedAt(cx.Enter(), x) {
      LookupPush(cx.frames, x);
      assert NamedAt(cx, x);
    }
  }

  lemma BindNamed(cx: Ctx, name: string, b: Binding)
    requires SlotsNamed(cx) && cx.frames != [] && SlotNamed(cx.reg.kinds, name, b)
    ensures SlotsNamed(cx.(frames := SetHead(cx.frames, name, b)))
  {
    var cx' := cx.(frames := SetHead(cx.frames, name, b));
    forall x ensures NamedAt(cx', x) {
      LookupSetHead(cx.frames, name, b, x);
      assert NamedAt(cx, x);
    }
  }

  lemma FirstDot(w: string, n: string)
    requires Plain(w)
    ensures Qualified(w, n)[|w|] == '.' && forall k | 0 <= k < |w| :: Qualified(w, n)[k] != '.'
  {
    forall k | 0 <= k < |w| ensures Qualified(w, n)[k] != '.' {
      assert Qualified(w, n)[k] == w[k] && w[k] in w;
    }
  }

  /** A word and a name are recovered from the qualified name. */
  lemma QualifiedOnce(w: string, n: string, v: string, m: string)
    requires Plain(w) && Plain(v) && Qualified(w, n) == Qualified(v, m)
    ensures w == v && n == m
  {
    var q := Qualified(w, n);
    FirstDot(w, n);
    FirstDot(v, m);
    assert q[..|w|] == w && q[..|v|] == v;
    assert q[|w| + 1..] == n && q[|v| + 1..] == m;
  }

  lemma QualifiedHasDot(w: string, n: string)
    ensures !Plain(Qualified(w, n))
  {
    assert Qualified(w, n)[|w|] == '.';
  }

  /** A plain name that is bound to a slot is that slot's, of a kind that is not namespaced. */
  lemma PlainNamesSlot(kinds: Kinds, x: string, b: Binding)
    requires SlotNamed(kinds, x, b) && Plain(x) && b.slot.Some?
    ensures NamesSlot(kinds, b.slot.value, Ident(x))
  {
    QualifiedHasDot(b.slot.value.kind, b.slot.value.name);
  }

  lemma QualifiedNamesSlot(kinds: Kinds, word: string, name: string, b: Binding)
    requires SlotNamed(kinds, Qualified(word, name), b) && Plain(word)
    ensures b.slot.Some? && NamesSlot(kinds, b.slot.value, Member(Ident(word), name))
  {
    QualifiedHasDot(word, name);
    var s := b.slot.value;
    if kinds[s.kind].namespaced {
      QualifiedOnce(word, name, s.kind, s.name);
    }
  }

  // ---------- Expressions ----------

  lemma IdentReadsBack(cx: Ctx, name: string)
    requires SlotsNamed(cx) && Plain(name) && CheckIdent(cx, name).Success?
    ensures ReadsBack(cx.reg.kinds, CheckIdent(cx, name).value, Ident(name))
  {
    assert NamedAt(cx, name);
    var b := Lookup(cx.frames, name).value;
    if b.slot.Some? {
      PlainNamesSlot(cx.reg.kinds, name, b);
    }
  }

  lemma SlotRefReadsBack(cx: Ctx, word: string, name: string)
    requires SlotsNamed(cx) && Plain(word) && CheckSlotRef(cx, word, name).Success?
    ensures ReadsBack(cx.reg.kinds, CheckSlotRef(cx, word, name).value, Member(Ident(word), name))
  {
    assert NamedAt(cx, Qualified(word, name));
    QualifiedNamesSlot(cx.reg.kinds, word, name, Lookup(cx.frames, Qualified(word, name)).value);
  }

  /** A coercion around an expression is not written. */
  lemma CoercionReadsBack(reg: Registry, r: RExpr, t: TypeID, e: Expr)
    requires ReadsBack(reg.kinds, r, e) && CoerceTo(reg, r, t).Some?
    ensures ReadsBack(reg.kinds, CoerceTo(reg, r, t).value, e)
  {
  }

  /** The resolved form of an accepted expression reads back as the expression. */
  lemma {:induction false} ExprReadsBack(cx: Ctx, e: Expr)
    requires SlotsNamed(cx) && CleanExpr(e) && CheckExpr(cx, e).Success?
    ensures ReadsBack(cx.reg.kinds, CheckExpr(cx, e).value, e)
    decreases e, 1
  {
    hide SlotsNamed, CheckIdent, CheckSlotRef, CheckReceiver, CheckArgs;
    match e
    case Ident(name) => IdentReadsBack(cx, name);
    case Infix(_, left, right) =>
      ExprReadsBack(cx, left);
      ExprReadsBack(cx, right);
    case Prefix(_, right) => ExprReadsBack(cx, right);
    case Member(receiver, name) =>
      if IsDeclWord(cx, receiver) {
        SlotRefReadsBack(cx, receiver.name, name);
      } else {
        ReceiverReadsBack(cx, receiver);
      }
    case Call(_, _, _) => CallReadsBack(cx, e);
    case _ =>
  }

  lemma {:induction false} ReceiverReadsBack(cx: Ctx, e: Expr)
    requires SlotsNamed(cx) && CleanExpr(e) && CheckReceiver(cx, e).Success?
    ensures ReadsBack(cx.reg.kinds, CheckReceiver(cx, e).value, e)
    decreases e, 2
  {
    hide SlotsNamed, CheckExpr;
    var b := if e.Ident? then Lookup(cx.frames, e.name) else None;
    if !(b.Some? && b.value.kind == KModule) {
      ExprReadsBack(cx, e);
    }
  }

  lemma {:induction false} CallReadsBack(cx: Ctx, e: Expr)
    requires SlotsNamed(cx) && e.Call? && CleanExpr(e) && CheckExpr(cx, e).Success?
    ensures ReadsBack(cx.reg.kinds, CheckExpr(cx, e).value, e)
    decreases e, 0
  {
    hide SlotsNamed, CheckReceiver, CheckArgs, ArgsReadBack;
    if e.callee.Member? {
      ReceiverReadsBack(cx, e.callee.receiver);
      var o := CheckReceiver(cx, e.callee.receiver).value;
      var rule := cx.reg.LookupCall(o.Type(), e.callee.name).value;
      CheckedArgsReadBack(cx, rule.params, e, 0);
      assert e.args[0..] == e.args;
    }
  }

  // ---------- Arguments ----------

  lemma {:induction false} ArgReadsBack(cx: Ctx, param: Param, e: Expr)
    requires SlotsNamed(cx) && CleanExpr(e) && CheckArg(cx, param, e).Success?
    ensures CheckArg(cx, param, e).value.name == param.name
      && ReadsBack(cx.reg.kinds, CheckArg(cx, param, e).value.value, e)
    decreases e, 2
  {
    hide SlotsNamed, CheckExpr;
    ExprReadsBack(cx, e);
    var r := CheckExpr(cx, e).value;
    if r.Type() != param.typ {
      CoercionReadsBack(cx.reg, r, param.typ, e);
    }
  }

  /** The parameter at i has an argument named for it that reads back as e. */
  ghost predicate Filled(kinds: Kinds, params: seq<Param>, filled: map<nat, RArg>, i: nat, e: Expr) {
    i < |params| && i in filled && filled[i].name == params[i].name && ReadsBack(kinds, filled[i].value, e)
  }

  /** Parameters from the i-th on are filled by the positional arguments at their indices; no other changes. */
  lemma {:induction false} PositionalReadBack(cx: Ctx, params: seq<Param>, args: seq<Expr>, i: nat,
      filled: map<nat, RArg>)
    requires SlotsNamed(cx) && (forall a | a in args :: CleanExpr(a)) && i <= |args| <= |params|
    requires CheckPositional(cx, params, args, i, filled).Success?
    requires forall k: nat :: k in filled <==> k < i
    ensures var all := CheckPositional(cx, params, args, i, filled).value;
      && (forall k: nat :: k in all <==> k < |args|)
      && (forall k: nat | i <= k < |args| :: Filled(cx.reg.kinds, params, all, k, args[k]))
      && (forall k | k in filled :: k in all && all[k] == filled[k])
    decreases args, 3, |args| - i
  {
    hide SlotsNamed, CheckArg, ReadsBack;
    if i < |args| {
      ArgReadsBack(cx, params[i], args[i]);
      PositionalReadBack(cx, params, args, i + 1, filled[i := CheckArg(cx, params[i], args[i]).value]);
    }
  }

  /** Each keyword fills a parameter of its name that was empty; what was filled stays. */
  lemma {:induction false} KeywordsReadBack(cx: Ctx, params: seq<Param>, kwargs: seq<Kwarg>, filled: map<nat, RArg>)
    returns (at: seq<nat>)
    requires SlotsNamed(cx) && (forall k | k in kwargs :: CleanExpr(k.value))
    requires CheckKeywords(cx, params, kwargs, filled).Success?
    ensures var all := CheckKeywords(cx, params, kwargs, filled).value;
      && |at| == |kwargs|
      && (forall k | 0 <= k < |kwargs| ::
            at[k] !in filled && Filled(cx.reg.kinds, params, all, at[k], kwargs[k].value)
              && params[at[k]].name == kwargs[k].key)
      && (forall i | i in all :: i in filled || i in at)
      && (forall i | i in filled :: i in all && all[i] == filled[i])
      && |all| == |filled| + |kwargs|
    ensures DistinctKeys(kwargs) && forall k | 0 <= k < |kwargs| :: FindParam(params, kwargs[k].key) == Some(at[k])
    decreases kwargs, 3
  {
    hide SlotsNamed, CheckArg, ReadsBack;
    if kwargs == [] {
      at := [];
    } else {
      var kw := kwargs[0];
      assert kw.value < kw;
      var i := FindParam(params, kw.key).value;
      ArgReadsBack(cx, params[i], kw.value);
      var next := CheckKeyword(cx, params, kw, filled).value;
      var rest := KeywordsReadBack(cx, params, kwargs[1..], next);
      at := [i] + rest;
    }
  }

  /** Arguments in parameter order read back as those written. */
  lemma {:induction false} CheckedArgsReadBack(cx: Ctx, params: seq<Param>, call: Expr, leading: nat)
    requires SlotsNamed(cx) && call.Call? && CleanExpr(call) && leading <= |call.args|
      && CheckArgs(cx, params, call, leading).Success?
    ensures ArgsReadBack(cx.reg.kinds, CheckArgs(cx, params, call, leading).value, call.args[leading..], call.kwargs)
    decreases call, 0, 0
  {
    hide SlotsNamed, CheckPositional, CheckKeywords, ReadsBack;
    var args := if leading == 0 then call.args else call.args[leading..];
    assert args == call.args[leading..];
    PositionalReadBack(cx, params, args, 0, map[]);
    var placed := CheckPositional(cx, params, args, 0, map[]).value;
    var at := KeywordsReadBack(cx, params, call.kwargs, placed);
    var filled := CheckKeywords(cx, params, call.kwargs, placed).value;
    CollectedReadBack(cx.reg.kinds, params, args, call.kwargs, filled, at, CheckArgs(cx, params, call, leading).value);
  }

  lemma CollectedReadBack(kinds: Kinds, params: seq<Param>, args: seq<Expr>, kwargs: seq<Kwarg>, filled: map<nat, RArg>,
      at: seq<nat>, all: seq<RArg>)
    requires |params| == |args| + |kwargs| && |at| == |kwargs| && |all| == |params|
    requires forall i: nat | i < |params| :: i in filled && all[i] == filled[i]
    requires forall i: nat | i < |args| :: Filled(kinds, params, filled, i, args[i])
    requires forall k | 0 <= k < |kwargs| ::
      at[k] >= |args| && Filled(kinds, params, filled, at[k], kwargs[k].value) && params[at[k]].name == kwargs[k].key
    requires (forall i: nat | |args| <= i < |params| :: i in at) && DistinctKeys(kwargs)
    ensures ArgsReadBack(kinds, all, args, kwargs)
  {
    forall i | |args| <= i < |all| ensures HasKeyword(kinds, all[i], kwargs) {
      assert i in at;
      var k :| 0 <= k < |at| && at[k] == i;
      assert Filled(kinds, params, filled, at[k], kwargs[k].value);
      assert KeywordReadsBack(kinds, all[i], kwargs[k]);
    }
    forall k | 0 <= k < |kwargs| ensures IsTaken(kinds, all, |args|, kwargs[k]) {
      assert Filled(kinds, params, filled, at[k], kwargs[k].value);
      assert KeywordReadsBack(kinds, all[at[k]], kwargs[k]);
    }
    forall i: nat | i < |args| ensures ReadsBack(kinds, all[i].value, args[i]) {
      assert Filled(kinds, params, filled, i, args[i]);
    }
  }

  // ---------- Statements ----------

  lemma LetReadsBack(cx: Ctx, name: string, value: Expr)
    requires SlotsNamed(cx) && CleanExpr(value) && CheckLet(cx, name, value).Success?
    ensures StmtReadsBack(cx.reg.kinds, CheckLet(cx, name, value).value, Let(Some(name), value))
  {
    hide SlotsNamed, CheckExpr, ReadsBack;
    ExprReadsBack(cx, value);
  }

  lemma AssignReadsBack(cx: Ctx, target: Expr, value: Expr)
    requires SlotsNamed(cx) && CleanExpr(target) && CleanExpr(value) && CheckAssign(cx, target, value).Success?
    ensures StmtReadsBack(cx.reg.kinds, CheckAssign(cx, target, value).value, Assign(target, value))
  {
    hide CheckExpr, CoerceTo, ReadsBack;
    ExprReadsBack(cx, value);
    var r, b := CheckExpr(cx, value).value, CheckTarget(cx, target).value;
    CoercionReadsBack(cx.reg, r, b.t, value);
    if target.Ident? {
      assert NamedAt(cx, target.name);
      if b.slot.Some? {
        PlainNamesSlot(cx.reg.kinds, target.name, b);
      }
    } else {
      assert NamedAt(cx, Qualified(target.receiver.name, target.name));
      QualifiedNamesSlot(cx.reg.kinds, target.receiver.name, target.name, b);
    }
  }

  lemma EmitReadsBack(cx: Ctx, call: Expr)
    requires SlotsNamed(cx) && IsEmit(call) && CleanExpr(call) && CheckEmit(cx, call).Success?
    ensures StmtReadsBack(cx.reg.kinds, CheckEmit(cx, call).value, ExprStmt(call))
  {
    hide SlotsNamed, CheckArgs, ArgsReadBack, CleanExpr;
    var t := Lookup(cx.frames, call.args[0].name).value.t;
    CheckedArgsReadBack(cx, cx.reg.EmitRule(t).params, call, 1);
  }

  lemma {:induction false} CheckedStmtReadsBack(cx: Ctx, s: Stmt)
    requires SlotsNamed(cx) && CleanStmt(s) && CheckStmt(cx, s).Success? && cx.frames != []
    ensures StmtReadsBack(cx.reg.kinds, CheckStmt(cx, s).value, s)
    ensures SlotsNamed(After(cx, CheckStmt(cx, s).value))
    decreases s, 0
  {
    hide SlotsNamed, CheckExpr, CheckLet, CheckAssign, CheckEmit, CheckCondition, CheckBlock, ReadsBack;
    match s
    case ExprStmt(e) =>
      if IsEmit(e) {
        EmitReadsBack(cx, e);
      } else {
        ExprReadsBack(cx, e);
      }
    case Let(name, value) =>
      LetReadsBack(cx, name.value, value);
      AfterLet(cx, name.value, value);
    case Assign(target, value) => AssignReadsBack(cx, target, value);
    case Block(stmts) =>
      EnterNamed(cx);
      CheckedBlockReadsBack(cx.Enter(), stmts);
    case If(_, _, _) => IfReadsBack(cx, s);
  }

  lemma AfterLet(cx: Ctx, name: string, value: Expr)
    requires SlotsNamed(cx) && cx.frames != [] && Plain(name) && CheckLet(cx, name, value).Success?
    ensures SlotsNamed(After(cx, CheckLet(cx, name, value).value))
  {
    hide SlotsNamed, CheckExpr;
    var r := CheckLet(cx, name, value).value;
    BindNamed(cx, name, LetBinding(r.t));
  }

  lemma {:induction false} IfReadsBack(cx: Ctx, s: Stmt)
    requires SlotsNamed(cx) && s.If? && CleanStmt(s) && CheckStmt(cx, s).Success? && cx.frames != []
    ensures StmtReadsBack(cx.reg.kinds, CheckStmt(cx, s).value, s)
    decreases s, 0, 0
  {
    hide SlotsNamed, CheckExpr, CheckBlock, ReadsBack;
    ExprReadsBack(cx, s.cond.value);
    EnterNamed(cx);
    CheckedBlockReadsBack(cx.Enter(), s.consequence);
    if s.alternative.Some? {
      CheckedStmtReadsBack(cx, s.alternative.value);
    }
  }

  /** Statements are resolved one for one, in order. */
  lemma {:induction false} CheckedBlockReadsBack(cx: Ctx, stmts: seq<Stmt>)
    requires SlotsNamed(cx) && CleanBlock(stmts) && CheckBlock(cx, stmts).Success? && cx.frames != []
    ensures BlockReadsBack(cx.reg.kinds, CheckBlock(cx, stmts).value, stmts)
    decreases stmts, 1
  {
    hide SlotsNamed, CheckStmt, StmtReadsBack;
    if stmts != [] {
      CheckedStmtReadsBack(cx, stmts[0]);
      var first := CheckStmt(cx, stmts[0]).value;
      var next := After(cx, first);
      CheckedBlockReadsBack(next, stmts[1..]);
      BlockCons(cx.reg.kinds, first, CheckBlock(next, stmts[1..]).value, stmts);
    }
  }

  lemma BlockCons(kinds: Kinds, first: RStmt, rest: seq<RStmt>, stmts: seq<Stmt>)
    requires stmts != [] && StmtReadsBack(kinds, first, stmts[0]) && BlockReadsBack(kinds, rest, stmts[1..])
    ensures BlockReadsBack(kinds, [first] + rest, stmts)
  {
    hide StmtReadsBack;
    var rs := [first] + rest;
    forall i | 0 <= i < |rs| ensures StmtReadsBack(kinds, rs[i], stmts[i]) {
      if i > 0 {
        assert StmtReadsBack(kinds, rest[i - 1], stmts[1..][i - 1]);
      }
    }
  }

  // ---------- Declarations ----------

  /** What a registry knew it still knows. */
  ghost predicate StillKnows(a: Registry, b: Registry) {
    b.kinds == a.kinds && KeptIn(a.types, b.types)
  }

  lemma {:induction false} FieldsAsWritten(reg: Registry, decls: seq<FieldDecl>, seen: set<string>, fields: seq<Field>)
    requires CheckFields(reg, decls, seen, fields).Success?
    ensures var all := CheckFields(reg, decls, seen, fields).value;
      && |all| == |fields| + |decls| && fields <= all
      && forall i | 0 <= i < |decls| :: all[|fields| + i] == Field(decls[i].name, decls[i].typ)
    decreases |decls|
  {
    if decls != [] {
      var next := fields + [Field(decls[0].name, decls[0].typ)];
      FieldsAsWritten(reg, decls[1..], seen + {decls[0].name}, next);
      var all := CheckFields(reg, decls, seen, fields).value;
      assert all[|fields|] == next[|fields|];
      forall i | 0 <= i < |decls| ensures all[|fields| + i] == Field(decls[i].name, decls[i].typ) {
        if i > 0 {
          assert decls[i] == decls[1..][i - 1];
        }
      }
    }
  }

  lemma PortTypeReadsBack(reg: Registry, t: TypeDecl, space: string, name: string)
    requires CheckPortType(reg, t, space, name).Success?
    ensures var (reg', id) := CheckPortType(reg, t, space, name).value;
      TypeReadsBack(reg', id, t, space, name) && StillKnows(reg, reg')
  {
    if t.Structural? {
      var id := Qualified(space, name);
      var fields := CheckFields(reg, t.fields, {}, []).value;
      FieldsAsWritten(reg, t.fields, {}, []);
      AddFieldRulesIs(reg.(types := reg.types[id := TypeDef(ScriptShape, fields)]), id, fields);
      assert forall i | 0 <= i < |t.fields| :: fields[0 + i] == fields[i];
    }
  }

  ghost predicate WordsFit(kinds: Kinds) {
    forall w | w in kinds :: kinds[w].word == w
  }

  lemma SlotReadsBack(cx: Ctx, d: Decl)
    requires SlotsNamed(cx) && CleanDecl(d) && d.Kind? && WordsFit(cx.reg.kinds) && CheckDecl(cx, d).Success?
    ensures var (reg', r) := CheckDecl(cx, d).value; reg' == cx.reg && DeclReadsBack(reg', r, d)
  {
    hide SlotsNamed, CheckExpr, ReadsBack, CoerceTo;
    if d.init.Some? {
      ExprReadsBack(cx, d.init.value);
      if d.slotType.Some? {
        CoercionReadsBack(cx.reg, CheckExpr(cx, d.init.value).value, d.slotType.value, d.init.value);
      }
    }
  }

  lemma CheckedDeclReadsBack(cx: Ctx, d: Decl)
    requires SlotsNamed(cx) && CleanDecl(d) && WordsFit(cx.reg.kinds) && CheckDecl(cx, d).Success?
    ensures var (reg', r) := CheckDecl(cx, d).value; DeclReadsBack(reg', r, d) && StillKnows(cx.reg, reg')
  {
    hide SlotsNamed, CheckExpr, ReadsBack, CheckPortType, TypeReadsBack, CheckKind;
    match d
    case Const(_, value) => ExprReadsBack(cx, value.value);
    case Input(name, t) => PortTypeReadsBack(cx.reg, t.value, "input", name.value);
    case Output(name, t) => PortTypeReadsBack(cx.reg, t.value, "output", name.value);
    case Kind(_, _, _, _) => SlotReadsBack(cx, d);
  }

  /** After a declaration, too, slots are bound under the symbols they are written as. */
  lemma AfterDeclNamed(cx: Ctx, d: Decl)
    requires SlotsNamed(cx) && CleanDecl(d) && WordsFit(cx.reg.kinds) && CheckDecl(cx, d).Success? && cx.frames != []
    ensures var (reg', r) := CheckDecl(cx, d).value;
      reg'.kinds == cx.reg.kinds ==> SlotsNamed(AfterDecl(cx, r).(reg := reg')) && AfterDecl(cx, r).frames != []
  {
    hide SlotsNamed, CheckExpr, CheckPortType, SlotParts;
    var (reg', r) := CheckDecl(cx, d).value;
    var sym, b := DeclSymbol(cx.reg, r), DeclBinding(cx.reg, r);
    assert SlotNamed(cx.reg.kinds, sym, b);
    BindNamed(cx, sym, b);
    if reg'.kinds == cx.reg.kinds {
      SameNames(cx.(frames := SetHead(cx.frames, sym, b)), AfterDecl(cx, r).(reg := reg'));
    }
  }

  lemma SameNames(cx: Ctx, cx': Ctx)
    requires SlotsNamed(cx) && cx'.frames == cx.frames && cx'.reg.kinds == cx.reg.kinds
    ensures SlotsNamed(cx')
  {
    forall x ensures NamedAt(cx', x) {
      assert NamedAt(cx, x);
    }
  }

  lemma DeclStillReadsBack(a: Registry, b: Registry, r: RDecl, d: Decl)
    requires DeclReadsBack(a, r, d) && StillKnows(a, b)
    ensures DeclReadsBack(b, r, d)
  {
    hide ReadsBack;
  }

  lemma {:induction false} CheckedDeclsReadBack(cx: Ctx, ds: seq<Decl>)
    requires SlotsNamed(cx) && (forall d | d in ds :: CleanDecl(d)) && WordsFit(cx.reg.kinds) && cx.frames != []
    requires CheckDecls(cx, ds).Success?
    ensures var (cx', rs) := CheckDecls(cx, ds).value;
      && |rs| == |ds| && (forall i | 0 <= i < |rs| :: DeclReadsBack(cx'.reg, rs[i], ds[i]))
      && SlotsNamed(cx') && StillKnows(cx.reg, cx'.reg) && cx'.frames != []
    decreases |ds|
  {
    hide SlotsNamed, CheckDecl, DeclReadsBack, CleanDecl;
    if ds != [] {
      CheckedDeclReadsBack(cx, ds[0]);
      AfterDeclNamed(cx, ds[0]);
      var (reg', first) := CheckDecl(cx, ds[0]).value;
      var next := AfterDecl(cx, first).(reg := reg');
      CheckedDeclsReadBack(next, ds[1..]);
      var (cx', rest) := CheckDecls(next, ds[1..]).value;
      DeclStillReadsBack(reg', cx'.reg, first, ds[0]);
      var rs := [first] + rest;
      forall i | 0 <= i < |rs| ensures DeclReadsBack(cx'.reg, rs[i], ds[i]) {
        if i > 0 {
          assert DeclReadsBack(cx'.reg, rest[i - 1], ds[1..][i - 1]);
        }
      }
    }
  }

  lemma OpeningNamed(reg: Registry, declared: set<string>)
    requires RegistryInv(reg) && DotlessTypes(reg)
    ensures SlotsNamed(Opening(reg, declared)) && WordsFit(reg.kinds)
  {
    hide Prelude;
    var cx := Opening(reg, declared);
    forall x ensures NamedAt(cx, x) {
      assert Lookup([Prelude(reg)], x) == if x in Prelude(reg) then Some(Prelude(reg)[x]) else None;
      if x in Prelude(reg) {
        PreludeBinding(reg, x);
      }
    }
  }

  /**
   An accepted program resolves to the program that was written, declaration by declaration, statement by statement.
   */
  lemma CheckedProgramReadsBack(reg: Registry, p: Program)
    requires RegistryInv(reg) && DotlessTypes(reg) && CleanProgram(p) && CheckProgram(reg, p).Success?
    ensures var (reg', rp) := CheckProgram(reg, p).value; ProgramReadsBack(reg', rp, p)
  {
    hide SlotsNamed, CheckDecls, CheckBlock, DeclReadsBack, StmtReadsBack, CleanDecl, CleanStmt, RegistryInv,
      DotlessTypes, Prelude;
    var opening := Opening(reg, DeclaredNames(reg, p.decls));
    OpeningNamed(reg, DeclaredNames(reg, p.decls));
    CheckedDeclsReadBack(opening, p.decls);
    var cx := CheckDecls(opening, p.decls).value.0;
    if p.initFn.Some? {
      SameNames(cx, cx.(phase := InInit));
      EnterNamed(cx.(phase := InInit));
      CheckedBlockReadsBack(cx.(phase := InInit).Enter(), p.initFn.value);
    }
    SameNames(cx, cx.(phase := InRun));
    EnterNamed(cx.(phase := InRun));
    CheckedBlockReadsBack(cx.(phase := InRun).Enter(), p.runFn.value);
  }
}
