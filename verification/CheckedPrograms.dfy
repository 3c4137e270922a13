/** What the checker accepts is well typed: its output satisfies the type system the evaluator relies on. */
module CheckedPrograms {
  import opened Wrappers
  import opened Tokens
  import opened Values
  import opened Registries
  import opened WellFormed
  import opened Scopes
  import opened Ast
  import opened Resolved
  import opened Typing
  import opened Elaboration

  // ---------- Contexts ----------

  /** No error type in scope; a slot binding is a declared slot, and only those have dotted names. */
  ghost predicate BindingOk(cx: Ctx, x: string, b: Binding) {
    && b.t != ERROR_TYPE_ID
    && (b.kind == KSlot <==> b.slot.Some?)
    && (b.slot.Some? ==>
      b.slot.value.t == b.t && b.slot.value.index < |cx.slots| && cx.slots[b.slot.value.index] == b.slot.value)
    && (b.assignable ==> b.kind in {KLet, KSlot})
    && ('.' in x ==> b.kind == KSlot)
  }

  ghost predicate Coherent(cx: Ctx) {
    forall x :: BoundOk(cx, x)
  }

  ghost predicate BoundOk(cx: Ctx, x: string) {
    Lookup(cx.frames, x).Some? ==> BindingOk(cx, x, Lookup(cx.frames, x).value)
  }

  /** The registry facts resolution leans on. */
  ghost predicate RegOk(reg: Registry) {
    ErrorFree(reg) && forall k | k in reg.coerces :: reg.coerces[k].evalType == k.to
  }

  ghost predicate CtxOk(cx: Ctx) {
    cx.frames != [] && Coherent(cx) && RegOk(cx.reg)
  }

  lemma EnterOk(cx: Ctx)
    requires CtxOk(cx)
    ensures CtxOk(cx.Enter())
  {
    forall x ensures BoundOk(cx.Enter(), x) {
      LookupPush(cx.frames, x);
      assert BoundOk(cx, x);
    }
  }

  lemma BindOk(cx: Ctx, name: string, b: Binding)
    requires CtxOk(cx) && BindingOk(cx, name, b)
    ensures CtxOk(cx.(frames := SetHead(cx.frames, name, b)))
  {
    var cx' := cx.(frames := SetHead(cx.frames, name, b));
    forall x ensures BoundOk(cx', x) {
      LookupSetHead(cx.frames, name, b, x);
      assert BoundOk(cx, x);
    }
  }

  // ---------- Expressions ----------

  ghost predicate Typed(cx: Ctx, r: RExpr) {
    WtExpr(cx, r) && r.Type() != ERROR_TYPE_ID
  }

  lemma CoerceToTyped(cx: Ctx, r: RExpr, t: TypeID)
    requires CtxOk(cx) && Typed(cx, r) && CoerceTo(cx.reg, r, t).Some?
    ensures var v := CoerceTo(cx.reg, r, t).value; Typed(cx, v) && v.Type() == t
  {
    if r.Type() != t {
      assert CoerceKey(r.Type(), t) in cx.reg.coerces;
    }
  }

  lemma {:induction false} CheckExprTyped(cx: Ctx, e: Expr)
    requires CtxOk(cx) && CheckExpr(cx, e).Success?
    ensures Typed(cx, CheckExpr(cx, e).value)
    decreases e, 2
  {
    match e
    case Ident(name) => assert BoundOk(cx, name);
    case Infix(op, left, right) =>
      CheckExprTyped(cx, left);
      CheckExprTyped(cx, right);
      var l, r := CheckExpr(cx, left).value, CheckExpr(cx, right).value;
      assert op !in {AND, OR} ==> BinaryKey(op, l.Type(), r.Type()) in cx.reg.binary;
    case Prefix(op, right) =>
      CheckExprTyped(cx, right);
      assert UnaryKey(op, CheckExpr(cx, right).value.Type()) in cx.reg.unary;
    case Member(receiver, name) =>
      if IsDeclWord(cx, receiver) {
        assert BoundOk(cx, Qualified(receiver.name, name));
      } else {
        CheckReceiverTyped(cx, receiver);
        assert MemberKey(CheckReceiver(cx, receiver).value.Type(), name) in cx.reg.member;
      }
    case Call(_, _, _) => CheckCallTyped(cx, e);
    case _ =>
  }

  lemma {:induction false} CheckReceiverTyped(cx: Ctx, e: Expr)
    requires CtxOk(cx) && CheckReceiver(cx, e).Success?
    ensures Typed(cx, CheckReceiver(cx, e).value)
    decreases e, 3
  {
    if e.Ident? && Lookup(cx.frames, e.name).Some? && Lookup(cx.frames, e.name).value.kind == KModule {
      assert BoundOk(cx, e.name);
    } else {
      CheckExprTyped(cx, e);
    }
  }

  ghost predicate Fills(cx: Ctx, params: seq<Param>, filled: map<nat, RArg>) {
    forall i | i in filled :: i < |params| && Suits(cx, params[i], filled[i])
  }

  ghost predicate Suits(cx: Ctx, param: Param, arg: RArg) {
    arg.name == param.name && arg.value.Type() == param.typ && WtExpr(cx, arg.value)
  }

  lemma {:induction false} CheckArgTyped(cx: Ctx, param: Param, e: Expr)
    requires CtxOk(cx) && CheckArg(cx, param, e).Success?
    ensures Suits(cx, param, CheckArg(cx, param, e).value)
    decreases e, 3
  {
    CheckExprTyped(cx, e);
    var r := CheckExpr(cx, e).value;
    if r.Type() != param.typ {
      CoerceToTyped(cx, r, param.typ);
    }
  }

  lemma {:induction false} CheckPositionalTyped(cx: Ctx, params: seq<Param>, args: seq<Expr>, i: nat,
      filled: map<nat, RArg>)
    requires CtxOk(cx) && i <= |args| <= |params| && Fills(cx, params, filled)
      && CheckPositional(cx, params, args, i, filled).Success?
    ensures Fills(cx, params, CheckPositional(cx, params, args, i, filled).value)
    decreases args, 4, |args| - i
  {
    if i < |args| {
      CheckArgTyped(cx, params[i], args[i]);
      CheckPositionalTyped(cx, params, args, i + 1, filled[i := CheckArg(cx, params[i], args[i]).value]);
    }
  }

  lemma {:induction false} CheckKeywordsTyped(cx: Ctx, params: seq<Param>, kwargs: seq<Kwarg>, filled: map<nat, RArg>)
    requires CtxOk(cx) && Fills(cx, params, filled) && CheckKeywords(cx, params, kwargs, filled).Success?
    ensures Fills(cx, params, CheckKeywords(cx, params, kwargs, filled).value)
    decreases kwargs, 4
  {
    if kwargs != [] {
      var i := FindParam(params, kwargs[0].key).value;
      CheckArgTyped(cx, params[i], kwargs[0].value);
      CheckKeywordsTyped(cx, params, kwargs[1..], CheckKeyword(cx, params, kwargs[0], filled).value);
    }
  }

  lemma CollectTyped(cx: Ctx, params: seq<Param>, filled: map<nat, RArg>)
    requires Fills(cx, params, filled) && Collect(params, filled).Success?
    ensures WtArgs(cx, params, Collect(params, filled).value)
  {
    var all := Collect(params, filled).value;
    forall i | 0 <= i < |all|
      ensures all[i].name == params[i].name && all[i].value.Type() == params[i].typ && WtExpr(cx, all[i].value)
    {
      assert Suits(cx, params[i], filled[i]);
    }
  }

  lemma {:induction false} CheckArgsTyped(cx: Ctx, params: seq<Param>, call: Expr, leading: nat)
    requires CtxOk(cx) && call.Call? && leading <= |call.args| && CheckArgs(cx, params, call, leading).Success?
    ensures WtArgs(cx, params, CheckArgs(cx, params, call, leading).value)
    decreases call, 0
  {
    var args := if leading == 0 then call.args else call.args[leading..];
    CheckPositionalTyped(cx, params, args, 0, map[]);
    var placed := CheckPositional(cx, params, args, 0, map[]).value;
    CheckKeywordsTyped(cx, params, call.kwargs, placed);
    CollectTyped(cx, params, CheckKeywords(cx, params, call.kwargs, placed).value);
  }

  lemma {:induction false} CheckCallTyped(cx: Ctx, e: Expr)
    requires CtxOk(cx) && e.Call? && CheckExpr(cx, e).Success?
    ensures Typed(cx, CheckExpr(cx, e).value)
    decreases e, 1
  {
    CheckReceiverTyped(cx, e.callee.receiver);
    var o := CheckReceiver(cx, e.callee.receiver).value;
    assert MemberKey(o.Type(), e.callee.name) in cx.reg.call;
    CheckArgsTyped(cx, cx.reg.LookupCall(o.Type(), e.callee.name).value.params, e, 0);
  }

  // ---------- Statements ----------

  lemma CheckEmitTyped(cx: Ctx, call: Expr)
    requires CtxOk(cx) && call.Call? && CheckEmit(cx, call).Success?
    ensures WtStmt(cx, CheckEmit(cx, call).value)
  {
    var b := Lookup(cx.frames, call.args[0].name).value;
    CheckArgsTyped(cx, cx.reg.EmitRule(b.t).params, call, 1);
  }

  lemma CheckAssignTyped(cx: Ctx, s: Stmt)
    requires CtxOk(cx) && s.Assign? && CheckStmt(cx, s).Success?
    ensures WtStmt(cx, CheckStmt(cx, s).value)
  {
    CheckExprTyped(cx, s.value);
    var b := CheckTarget(cx, s.target).value;
    match s.target {
      case Ident(name) => assert BoundOk(cx, name);
      case Member(receiver, name) => assert BoundOk(cx, Qualified(receiver.name, name));
      case _ =>
    }
    CoerceToTyped(cx, CheckExpr(cx, s.value).value, b.t);
  }

  lemma {:induction false} CheckStmtTyped(cx: Ctx, s: Stmt)
    requires CtxOk(cx) && CleanStmt(s) && CheckStmt(cx, s).Success?
    ensures WtStmt(cx, CheckStmt(cx, s).value) && CtxOk(After(cx, CheckStmt(cx, s).value))
    decreases s, 1
  {
    match s
    case ExprStmt(e) =>
      if IsEmit(e) {
        CheckEmitTyped(cx, e);
      } else {
        CheckExprTyped(cx, e);
      }
    case Let(name, value) =>
      CheckExprTyped(cx, value);
      BindOk(cx, name.value, LetBinding(CheckExpr(cx, value).value.Type()));
    case Assign(_, _) => CheckAssignTyped(cx, s);
    case Block(stmts) =>
      EnterOk(cx);
      CheckBlockTyped(cx.Enter(), stmts);
    case If(_, _, _) => CheckIfTyped(cx, s);
  }

  lemma {:induction false} CheckIfTyped(cx: Ctx, s: Stmt)
    requires CtxOk(cx) && s.If? && CleanStmt(s) && CheckStmt(cx, s).Success?
    ensures WtStmt(cx, CheckStmt(cx, s).value)
    decreases s, 0
  {
    CheckExprTyped(cx, s.cond.value);
    EnterOk(cx);
    CheckBlockTyped(cx.Enter(), s.consequence);
    if s.alternative.Some? {
      CheckStmtTyped(cx, s.alternative.value);
    }
  }

  lemma {:induction false} CheckBlockTyped(cx: Ctx, stmts: seq<Stmt>)
    requires CtxOk(cx) && CleanBlock(stmts) && CheckBlock(cx, stmts).Success?
    ensures WtBlock(cx, CheckBlock(cx, stmts).value)
    decreases stmts, 2
  {
    if stmts != [] {
      CheckStmtTyped(cx, stmts[0]);
      var first := CheckStmt(cx, stmts[0]).value;
      CheckBlockTyped(After(cx, first), stmts[1..]);
      var all := CheckBlock(cx, stmts).value;
      assert all[0] == first && all[1..] == CheckBlock(After(cx, first), stmts[1..]).value;
    }
  }
}
