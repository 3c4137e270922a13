/**
 What is accepted, said without checking: a resolved tree is the resolution of a written one if it reads back as it, is
 well typed, and is direct, which is to say that it has coercions only where a value must change its type and
 names only what may be read there. The checker finds exactly that tree, and refuses exactly where there is none.
 */
module Acceptance {
  import opened Wrappers
  import opened Tokens
  import opened Values
  import opened Registries
  import opened WellFormed
  import opened Scopes
  import opened Ast
  import opened Resolved
  import opened Typing
  import opened Elaboration
  import opened CheckedPrograms
  import opened Erasure

  /** What is taken for granted of a scope: slots under their symbols, words and modules reserved, no error type. */
  ghost predicate InOrder(cx: Ctx) {
    && CtxOk(cx) && SlotsNamed(cx)
    && (forall k | k in cx.reg.call :: DistinctParams(cx.reg.call[k].params))
    && (forall t | t in cx.reg.types :: DistinctFields(cx.reg.types[t].fields))
  }

  // ---------- Direct expressions ----------

  predicate BoundAs(cx: Ctx, name: string, kind: BindingKind) {
    var b := Lookup(cx.frames, name);
    b.Some? && b.value.kind == kind
  }

  /** The slot is in scope under its symbol, and so is the word of a namespaced one. */
  predicate SlotInScope(cx: Ctx, slot: Slot) {
    && slot.kind in cx.reg.kinds
    && (cx.reg.kinds[slot.kind].namespaced ==> BoundAs(cx, slot.kind, KDeclWord))
    && var b := Lookup(cx.frames, SlotSymbol(cx.reg.kinds[slot.kind], slot.name)); b.Some? && b.value.slot == Some(slot)
  }

  /** No coercion that the form does not call for, and no module but as a receiver. */
  predicate Direct(cx: Ctx, r: RExpr)
    decreases r, 0
  {
    match r
    case RBad => false
    case RIdent(name, _) => !BoundAs(cx, name, KModule)
    case RSlot(slot) => SlotInScope(cx, slot)
    case RInfix(op, left, right, _, _) => op !in {AND, OR} && Direct(cx, left) && Direct(cx, right)
    case RLogical(_, left, right) => Direct(cx, left) && Direct(cx, right)
    case RPrefix(_, right, _, _) => Direct(cx, right)
    case RCoerce(_, _, _) => false
    case RMember(receiver, _, _, _) => DirectReceiver(cx, receiver)
    case RCall(receiver, name, args, _, _) =>
      && DirectReceiver(cx, receiver)
      && var rule := cx.reg.LookupCall(receiver.Type(), name); rule.Some? && DirectArgs(cx, rule.value.params, args)
    case _ => true
  }

  predicate DirectReceiver(cx: Ctx, r: RExpr)
    decreases r, 1
  {
    (r.RIdent? && BoundAs(cx, r.name, KModule)) || Direct(cx, r)
  }

  /** A value of a type of its own, or one of another type under one coercion. */
  predicate Fitted(cx: Ctx, r: RExpr, t: TypeID)
    decreases r, 1
  {
    if r.RCoerce? then r.inner.Type() != t && Direct(cx, r.inner) else Direct(cx, r)
  }

  predicate DirectArgs(cx: Ctx, params: seq<Param>, args: seq<RArg>)
    decreases args
  {
    && |args| == |params|
    && forall i | 0 <= i < |args| ::
      (params[i].exact ==> !args[i].value.RCoerce?) && Fitted(cx, args[i].value, params[i].typ)
  }

  /** r is the resolution of e. */
  ghost predicate Resolves(cx: Ctx, r: RExpr, e: Expr) {
    ReadsBack(cx.reg.kinds, r, e) && WtExpr(cx, r) && Direct(cx, r)
  }

  // ---------- The checker's trees are direct ----------

  lemma IdentIsDirect(cx: Ctx, name: string)
    requires InOrder(cx) && Plain(name) && CheckIdent(cx, name).Success?
    ensures Direct(cx, CheckIdent(cx, name).value)
  {
    hide ErrorFree;
    assert BoundOk(cx, name) && NamedAt(cx, name);
    var b := Lookup(cx.frames, name).value;
    if b.slot.Some? {
      QualifiedHasDot(b.slot.value.kind, b.slot.value.name);
    }
  }

  lemma SlotRefIsDirect(cx: Ctx, word: string, name: string)
    requires InOrder(cx) && Plain(word) && IsDeclWord(cx, Ident(word)) && CheckSlotRef(cx, word, name).Success?
    ensures Direct(cx, CheckSlotRef(cx, word, name).value)
  {
    hide ErrorFree;
    assert NamedAt(cx, Qualified(word, name));
    QualifiedNamesSlot(cx.reg.kinds, word, name, Lookup(cx.frames, Qualified(word, name)).value);
  }

  lemma {:induction false} ExprIsDirect(cx: Ctx, e: Expr)
    requires InOrder(cx) && CleanExpr(e) && CheckExpr(cx, e).Success?
    ensures Direct(cx, CheckExpr(cx, e).value)
    decreases e, 1
  {
    hide InOrder, CheckIdent, CheckSlotRef, CheckReceiver, CheckArgs, DirectReceiver, DirectArgs;
    match e
    case Ident(name) => IdentIsDirect(cx, name);
    case Infix(_, left, right) =>
      ExprIsDirect(cx, left);
      ExprIsDirect(cx, right);
    case Prefix(_, right) => ExprIsDirect(cx, right);
    case Member(receiver, name) =>
      if IsDeclWord(cx, receiver) {
        SlotRefIsDirect(cx, receiver.name, name);
      } else {
        ReceiverIsDirect(cx, receiver);
      }
    case Call(callee, _, _) =>
      if callee.Member? {
        ReceiverIsDirect(cx, callee.receiver);
        var o := CheckReceiver(cx, callee.receiver).value;
        ArgsAreDirect(cx, cx.reg.LookupCall(o.Type(), callee.name).value.params, e, 0);
      }
    case _ =>
  }

  lemma {:induction false} ReceiverIsDirect(cx: Ctx, e: Expr)
    requires InOrder(cx) && CleanExpr(e) && CheckReceiver(cx, e).Success?
    ensures DirectReceiver(cx, CheckReceiver(cx, e).value)
    decreases e, 2
  {
    hide InOrder, CheckExpr;
    if !(e.Ident? && BoundAs(cx, e.name, KModule)) {
      ExprIsDirect(cx, e);
    }
  }

  lemma {:induction false} ArgIsDirect(cx: Ctx, param: Param, e: Expr)
    requires InOrder(cx) && CleanExpr(e) && CheckArg(cx, param, e).Success?
    ensures var v := CheckArg(cx, param, e).value.value; (param.exact ==> !v.RCoerce?) && Fitted(cx, v, param.typ)
    decreases e, 2
  {
    hide InOrder, CheckExpr;
    ExprIsDirect(cx, e);
  }

  ghost predicate DirectAt(cx: Ctx, params: seq<Param>, filled: map<nat, RArg>, i: nat) {
    i < |params| && i in filled && (params[i].exact ==> !filled[i].value.RCoerce?)
      && Fitted(cx, filled[i].value, params[i].typ)
  }

  lemma {:induction false} PositionalIsDirect(cx: Ctx, params: seq<Param>, args: seq<Expr>, i: nat,
      filled: map<nat, RArg>)
    requires InOrder(cx) && (forall a | a in args :: CleanExpr(a)) && i <= |args| <= |params|
    requires CheckPositional(cx, params, args, i, filled).Success?
      && forall k | k in filled :: DirectAt(cx, params, filled, k)
    ensures var all := CheckPositional(cx, params, args, i, filled).value; forall k | k in all ::
      DirectAt(cx, params, all, k)
    decreases args, 3, |args| - i
  {
    hide InOrder, CheckArg, Fitted;
    if i < |args| {
      ArgIsDirect(cx, params[i], args[i]);
      var next := filled[i := CheckArg(cx, params[i], args[i]).value];
      forall k | k in next ensures DirectAt(cx, params, next, k) {
        assert k != i ==> DirectAt(cx, params, filled, k);
      }
      PositionalIsDirect(cx, params, args, i + 1, next);
    }
  }

  lemma {:induction false} KeywordsAreDirect(cx: Ctx, params: seq<Param>, kwargs: seq<Kwarg>, filled: map<nat, RArg>)
    requires InOrder(cx) && (forall k | k in kwargs :: CleanExpr(k.value))
    requires CheckKeywords(cx, params, kwargs, filled).Success?
      && forall k | k in filled :: DirectAt(cx, params, filled, k)
    ensures var all := CheckKeywords(cx, params, kwargs, filled).value; forall k | k in all ::
      DirectAt(cx, params, all, k)
    decreases kwargs, 3
  {
    hide InOrder, CheckArg, Fitted;
    if kwargs != [] {
      var kw := kwargs[0];
      assert kw.value < kw;
      var i := FindParam(params, kw.key).value;
      ArgIsDirect(cx, params[i], kw.value);
      var next := CheckKeyword(cx, params, kw, filled).value;
      forall k | k in next ensures DirectAt(cx, params, next, k) {
        assert k != i ==> DirectAt(cx, params, filled, k);
      }
      KeywordsAreDirect(cx, params, kwargs[1..], next);
    }
  }

  lemma {:induction false} ArgsAreDirect(cx: Ctx, params: seq<Param>, call: Expr, leading: nat)
    requires InOrder(cx) && call.Call? && CleanExpr(call) && leading <= |call.args|
      && CheckArgs(cx, params, call, leading).Success?
    ensures DirectArgs(cx, params, CheckArgs(cx, params, call, leading).value)
    decreases call, 0
  {
    hide InOrder, CheckPositional, CheckKeywords, Fitted;
    var args := if leading == 0 then call.args else call.args[leading..];
    PositionalIsDirect(cx, params, args, 0, map[]);
    var placed := CheckPositional(cx, params, args, 0, map[]).value;
    KeywordsAreDirect(cx, params, call.kwargs, placed);
    var filled := CheckKeywords(cx, params, call.kwargs, placed).value;
    assert forall i: nat | i < |params| :: DirectAt(cx, params, filled, i);
  }

  // ---------- Every resolution is found ----------

  lemma IdentFound(cx: Ctx, r: RExpr, name: string)
    requires InOrder(cx) && r.RIdent? && r.name == name && WtExpr(cx, r) && Direct(cx, r)
    ensures CheckIdent(cx, name) == Success(r)
  {
    hide ErrorFree;
    assert BoundOk(cx, name);
  }

  lemma SlotFound(cx: Ctx, slot: Slot, e: Expr)
    requires InOrder(cx) && SlotInScope(cx, slot) && NamesSlot(cx.reg.kinds, slot, e)
    ensures CheckExpr(cx, e) == Success(RSlot(slot))
    ensures e.Ident? ==> BoundAs(cx, e.name, KSlot)
  {
    hide ErrorFree;
    var symbol := SlotSymbol(cx.reg.kinds[slot.kind], slot.name);
    assert BoundOk(cx, symbol) && NamedAt(cx, symbol);
  }

  lemma {:induction false} ReceiverFound(cx: Ctx, r: RExpr, e: Expr)
    requires InOrder(cx) && ReadsBack(cx.reg.kinds, r, e) && WtExpr(cx, r) && DirectReceiver(cx, r)
    ensures CheckReceiver(cx, e) == Success(r) && !IsDeclWord(cx, e)
    decreases r, 3
  {
    hide InOrder, CheckExpr;
    if !(r.RIdent? && BoundAs(cx, r.name, KModule)) {
      ExprFound(cx, r, e);
      if e.Ident? && r.RSlot? {
        SlotFound(cx, r.slot, e);
      }
    }
  }

  lemma {:induction false} ExprFound(cx: Ctx, r: RExpr, e: Expr)
    requires InOrder(cx) && ReadsBack(cx.reg.kinds, r, e) && WtExpr(cx, r) && Direct(cx, r)
    ensures CheckExpr(cx, e) == Success(r)
    decreases r, 2
  {
    hide InOrder, CheckIdent, CheckReceiver, CheckArgs, DirectReceiver, DirectArgs, ArgsReadBack, WtArgs, SlotInScope,
      NamesSlot;
    match r
    case RIdent(name, _) => IdentFound(cx, r, name);
    case RSlot(slot) => SlotFound(cx, slot, e);
    case RInfix(_, left, right, _, _) =>
      ExprFound(cx, left, e.left);
      ExprFound(cx, right, e.right);
    case RLogical(_, left, right) =>
      ExprFound(cx, left, e.left);
      ExprFound(cx, right, e.right);
    case RPrefix(_, right, _, _) => ExprFound(cx, right, e.right);
    case RMember(receiver, _, _, _) => ReceiverFound(cx, receiver, e.receiver);
    case RCall(_, _, _, _, _) => CallFound(cx, r, e);
    case _ =>
  }

  lemma CallParts(cx: Ctx, r: RExpr, e: Expr) returns (rule: CallRule)
    requires InOrder(cx) && r.RCall? && ReadsBack(cx.reg.kinds, r, e) && WtExpr(cx, r) && Direct(cx, r)
    ensures e.Call? && e.callee.Member? && e.callee.name == r.name
    ensures ReadsBack(cx.reg.kinds, r.receiver, e.callee.receiver) && WtExpr(cx, r.receiver)
      && DirectReceiver(cx, r.receiver)
    ensures cx.reg.LookupCall(r.receiver.Type(), r.name) == Some(rule) && rule.fn == r.callFn && rule.evalType == r.t
    ensures DistinctParams(rule.params) && DirectArgs(cx, rule.params, r.args) && WtArgs(cx, rule.params, r.args)
    ensures ArgsReadBack(cx.reg.kinds, r.args, e.args, e.kwargs)
  {
    hide CtxOk, SlotsNamed, DirectReceiver, DirectArgs, ArgsReadBack, WtArgs;
    rule := cx.reg.LookupCall(r.receiver.Type(), r.name).value;
    assert MemberKey(r.receiver.Type(), r.name) in cx.reg.call;
  }

  lemma {:induction false} CallFound(cx: Ctx, r: RExpr, e: Expr)
    requires InOrder(cx) && r.RCall? && ReadsBack(cx.reg.kinds, r, e) && WtExpr(cx, r) && Direct(cx, r)
    ensures CheckExpr(cx, e) == Success(r)
    decreases r, 1
  {
    hide CheckExpr, InOrder, ReadsBack, WtExpr, Direct, CheckReceiver, CheckArgs, DirectReceiver, DirectArgs,
      ArgsReadBack, WtArgs;
    var rule := CallParts(cx, r, e);
    ReceiverFound(cx, r.receiver, e.callee.receiver);
    assert e.args[0..] == e.args;
    ArgsFound(cx, rule.params, r.args, e, 0);
    CallChecked(cx, e, r.receiver, rule, r.args);
  }

  lemma CallChecked(cx: Ctx, e: Expr, o: RExpr, rule: CallRule, args: seq<RArg>)
    requires e.Call? && e.callee.Member? && CheckReceiver(cx, e.callee.receiver) == Success(o)
    requires cx.reg.LookupCall(o.Type(), e.callee.name) == Some(rule)
    requires CheckArgs(cx, rule.params, e, 0) == Success(args)
    ensures CheckExpr(cx, e) == Success(RCall(o, e.callee.name, args, rule.evalType, rule.fn))
  {
    hide CheckReceiver, CheckArgs;
  }

  // ---------- Arguments ----------

  /** The argument at i is the resolution of e at its parameter. */
  lemma {:induction false} ArgFound(cx: Ctx, param: Param, arg: RArg, e: Expr)
    requires InOrder(cx) && arg.name == param.name && arg.value.Type() == param.typ && WtExpr(cx, arg.value)
    requires (param.exact ==> !arg.value.RCoerce?) && Fitted(cx, arg.value, param.typ)
      && ReadsBack(cx.reg.kinds, arg.value, e)
    ensures CheckArg(cx, param, e) == Success(arg)
    decreases arg
  {
    hide InOrder, CheckExpr;
    var v := arg.value;
    if v.RCoerce? {
      ExprFound(cx, v.inner, e);
    } else {
      ExprFound(cx, v, e);
    }
  }

  lemma {:induction false} PositionalFound(cx: Ctx, params: seq<Param>, args: seq<Expr>, i: nat,
      filled: map<nat, RArg>, vals: seq<RArg>)
    requires i <= |args| <= |params| == |vals|
    requires forall k | i <= k < |args| :: CheckArg(cx, params[k], args[k]) == Success(vals[k])
    requires (forall k: nat :: k in filled <==> k < i) && forall k: nat | k < i :: filled[k] == vals[k]
    ensures CheckPositional(cx, params, args, i, filled).Success?
    ensures var all := CheckPositional(cx, params, args, i, filled).value;
      (forall k: nat :: k in all <==> k < |args|) && forall k: nat | k < |args| :: all[k] == vals[k]
    decreases |args| - i
  {
    hide CheckArg;
    if i < |args| {
      PositionalFound(cx, params, args, i + 1, filled[i := vals[i]], vals);
    }
  }

  lemma {:induction false} KeywordsFound(cx: Ctx, params: seq<Param>, kwargs: seq<Kwarg>, filled: map<nat, RArg>,
      at: seq<nat>, vals: seq<RArg>)
    requires |at| == |kwargs| && |params| == |vals|
    requires forall k | 0 <= k < |at| ::
      at[k] < |params| && FindParam(params, kwargs[k].key) == Some(at[k]) && at[k] !in filled
    requires forall j, k | 0 <= j < k < |at| :: at[j] != at[k]
    requires forall k | 0 <= k < |at| :: CheckArg(cx, params[at[k]], kwargs[k].value) == Success(vals[at[k]])
    requires forall i | i in filled :: i < |vals| && filled[i] == vals[i]
    ensures CheckKeywords(cx, params, kwargs, filled).Success?
    ensures var all := CheckKeywords(cx, params, kwargs, filled).value;
      (forall i :: i in all <==> i in filled || i in at) && forall i | i in all :: i < |vals| && all[i] == vals[i]
    decreases |kwargs|
  {
    hide CheckArg, FindParam;
    if kwargs != [] {
      var i := at[0];
      assert CheckKeyword(cx, params, kwargs[0], filled) == Success(filled[i := vals[i]]);
      KeywordsFound(cx, params, kwargs[1..], filled[i := vals[i]], at[1..], vals);
      assert at == [i] + at[1..];
    }
  }

  /** Where each keyword goes: the parameter of its name, which is not one of the positional ones. */
  lemma ParamFound(params: seq<Param>, key: string, i: nat)
    requires DistinctParams(params) && i < |params| && params[i].name == key
    ensures FindParam(params, key) == Some(i)
  {
    assert params[i] in params;
    assert FindParam(params, key).value == i;
  }

  lemma {:induction false} KeywordPlaces(kinds: Kinds, params: seq<Param>, args: seq<RArg>, from: nat,
      kwargs: seq<Kwarg>) returns (at: seq<nat>)
    requires DistinctParams(params) && |args| == |params|
      && forall i | 0 <= i < |args| :: args[i].name == params[i].name
    requires forall k | 0 <= k < |kwargs| :: IsTaken(kinds, args, from, kwargs[k])
    ensures |at| == |kwargs|
    ensures forall k | 0 <= k < |at| ::
      from <= at[k] < |args| && KeywordReadsBack(kinds, args[at[k]], kwargs[k])
        && FindParam(params, kwargs[k].key) == Some(at[k])
    decreases |kwargs|
  {
    hide KeywordReadsBack, IsTaken, FindParam, DistinctParams;
    at := [];
    if kwargs != [] {
      assert IsTaken(kinds, args, from, kwargs[0]);
      var i := TakenAt(kinds, args, from, kwargs[0]);
      ParamFound(params, kwargs[0].key, i);
      assert forall k | 0 <= k < |kwargs| - 1 :: IsTaken(kinds, args, from, kwargs[1..][k]) by {
        assert forall k | 0 <= k < |kwargs| - 1 :: kwargs[1..][k] == kwargs[k + 1];
      }
      var rest := KeywordPlaces(kinds, params, args, from, kwargs[1..]);
      at := [i] + rest;
    }
  }

  lemma TakenAt(kinds: Kinds, args: seq<RArg>, from: nat, keyword: Kwarg) returns (i: nat)
    requires IsTaken(kinds, args, from, keyword)
    ensures from <= i < |args| && KeywordReadsBack(kinds, args[i], keyword) && args[i].name == keyword.key
  {
    i :| from <= i < |args| && KeywordReadsBack(kinds, args[i], keyword);
  }

  /** Arguments that read back as those written, are typed and direct are the ones the checker finds. */
  lemma {:induction false} ArgsFound(cx: Ctx, params: seq<Param>, args: seq<RArg>, call: Expr, leading: nat)
    requires InOrder(cx) && call.Call? && leading <= |call.args| && DistinctParams(params)
    requires WtArgs(cx, params, args) && DirectArgs(cx, params, args)
    requires ArgsReadBack(cx.reg.kinds, args, call.args[leading..], call.kwargs)
    ensures CheckArgs(cx, params, call, leading) == Success(args)
    decreases args
  {
    hide InOrder, CheckArg, CheckArgs, Fitted, FindParam, KeywordReadsBack, HasKeyword, IsTaken;
    var kinds, pos := cx.reg.kinds, call.args[leading..];
    forall k | 0 <= k < |pos| ensures CheckArg(cx, params[k], pos[k]) == Success(args[k]) {
      ArgFound(cx, params[k], args[k], pos[k]);
    }
    var at := KeywordPlaces(kinds, params, args, |pos|, call.kwargs);
    forall k | 0 <= k < |at| ensures CheckArg(cx, params[at[k]], call.kwargs[k].value) == Success(args[at[k]]) {
      KeywordMeans(kinds, args[at[k]], call.kwargs[k]);
      ArgFound(cx, params[at[k]], args[at[k]], call.kwargs[k].value);
    }
    hide WtArgs, DirectArgs;
    AllFound(cx, params, args, call, leading, at);
  }

  lemma KeywordMeans(kinds: Kinds, arg: RArg, keyword: Kwarg)
    requires KeywordReadsBack(kinds, arg, keyword)
    ensures keyword.key == arg.name && ReadsBack(kinds, arg.value, keyword.value)
  {
  }

  lemma AllFound(cx: Ctx, params: seq<Param>, args: seq<RArg>, call: Expr, leading: nat, at: seq<nat>)
    requires call.Call? && leading <= |call.args| && DistinctParams(params)
    requires |args| == |params| && forall i | 0 <= i < |args| :: args[i].name == params[i].name
    requires ArgsReadBack(cx.reg.kinds, args, call.args[leading..], call.kwargs)
    requires var pos := call.args[leading..]; forall k | 0 <= k < |pos| ::
      CheckArg(cx, params[k], pos[k]) == Success(args[k])
    requires |at| == |call.kwargs| && forall k | 0 <= k < |at| ::
      && |call.args| - leading <= at[k] < |args| && KeywordReadsBack(cx.reg.kinds, args[at[k]], call.kwargs[k])
      && FindParam(params, call.kwargs[k].key) == Some(at[k])
      && CheckArg(cx, params[at[k]], call.kwargs[k].value) == Success(args[at[k]])
    ensures CheckArgs(cx, params, call, leading) == Success(args)
  {
    hide CheckArg, CheckArgs, CheckPositional, CheckKeywords, FindParam, ReadsBack, IsTaken, KeywordReadsBack,
      HasKeyword;
    var kinds, pos := cx.reg.kinds, call.args[leading..];
    assert pos == if leading == 0 then call.args else call.args[leading..];
    PositionalFound(cx, params, pos, 0, map[], args);
    var placed := CheckPositional(cx, params, pos, 0, map[]).value;
    DistinctPlaces(kinds, args, call.kwargs, at);
    KeywordsFound(cx, params, call.kwargs, placed, at, args);
    AllPlaced(kinds, params, args, |pos|, call.kwargs, at);
    CheckArgsIs(cx, params, args, call, leading, placed, CheckKeywords(cx, params, call.kwargs, placed).value);
  }

  lemma DistinctPlaces(kinds: Kinds, args: seq<RArg>, kwargs: seq<Kwarg>, at: seq<nat>)
    requires |at| == |kwargs| && DistinctKeys(kwargs)
    requires forall k | 0 <= k < |at| :: at[k] < |args| && KeywordReadsBack(kinds, args[at[k]], kwargs[k])
    ensures forall j, k | 0 <= j < k < |at| :: at[j] != at[k]
  {
    hide ReadsBack;
    forall j, k | 0 <= j < k < |at| ensures at[j] != at[k] {
      KeywordMeans(kinds, args[at[j]], kwargs[j]);
      KeywordMeans(kinds, args[at[k]], kwargs[k]);
    }
  }

  lemma CheckArgsIs(cx: Ctx, params: seq<Param>, args: seq<RArg>, call: Expr, leading: nat,
      placed: map<nat, RArg>, filled: map<nat, RArg>)
    requires call.Call? && leading <= |call.args| && |call.args| - leading + |call.kwargs| == |params| == |args|
    requires CheckPositional(cx, params, call.args[leading..], 0, map[]) == Success(placed)
    requires CheckKeywords(cx, params, call.kwargs, placed) == Success(filled)
    requires forall i: nat | i < |params| :: i in filled && filled[i] == args[i]
    ensures CheckArgs(cx, params, call, leading) == Success(args)
  {
    hide CheckPositional, CheckKeywords;
    assert call.args[leading..] == if leading == 0 then call.args else call.args[leading..];
    assert Collect(params, filled).value == args;
  }

  lemma AllPlaced(kinds: Kinds, params: seq<Param>, args: seq<RArg>, from: nat, kwargs: seq<Kwarg>, at: seq<nat>)
    requires DistinctParams(params) && |args| == |params|
      && forall i | 0 <= i < |args| :: args[i].name == params[i].name
    requires forall i | from <= i < |args| :: HasKeyword(kinds, args[i], kwargs)
    requires |at| == |kwargs| && forall k | 0 <= k < |at| ::
      at[k] < |args| && KeywordReadsBack(kinds, args[at[k]], kwargs[k])
    ensures forall i: nat | from <= i < |args| :: i in at
  {
    forall i: nat | from <= i < |args| ensures i in at {
      assert HasKeyword(kinds, args[i], kwargs);
      var k :| 0 <= k < |kwargs| && KeywordReadsBack(kinds, args[i], kwargs[k]);
      assert args[at[k]].name == args[i].name;
      assert at[k] == i;
    }
  }

  /** An expression is accepted exactly if it has a resolution, and resolves to that. */
  lemma ExprsExactly(cx: Ctx, e: Expr, r: RExpr)
    requires InOrder(cx) && CleanExpr(e)
    ensures CheckExpr(cx, e) == Success(r) <==> Resolves(cx, r, e)
  {
    hide CtxOk, SlotsNamed, CheckExpr, ReadsBack, WtExpr, Direct;
    if CheckExpr(cx, e) == Success(r) {
      ExprReadsBack(cx, e);
      CheckExprTyped(cx, e);
      ExprIsDirect(cx, e);
    }
    if Resolves(cx, r, e) {
      ExprFound(cx, r, e);
    }
  }

  // ---------- Statements ----------

  predicate DirectStmt(cx: Ctx, r: RStmt)
    decreases r, 0
  {
    match r
    case RBadStmt => false
    case RExprStmt(e) => Direct(cx, e)
    case RLet(_, value, _) => Direct(cx, value)
    case RAssignName(target, value, t) =>
      var b := Lookup(cx.frames, target); b.Some? && b.value.assignable && b.value.slot.None? && Fitted(cx, value, t)
    case RAssignSlot(slot, value, _) =>
      && SlotInScope(cx, slot) && Fitted(cx, value, slot.t)
      && Lookup(cx.frames, SlotSymbol(cx.reg.kinds[slot.kind], slot.name)).value.assignable
    case RBlock(stmts) => DirectBlock(cx.Enter(), stmts)
    case RIf(cond, consequence, alternative) =>
      && Direct(cx, cond) && DirectBlock(cx.Enter(), consequence)
      && (alternative.Some? ==> DirectStmt(cx, alternative.value))
    case REmit(_, args, t) => DirectArgs(cx, cx.reg.EmitRule(t).params, args)
  }

  predicate DirectBlock(cx: Ctx, rs: seq<RStmt>)
    decreases rs, 1
  {
    rs == [] || (DirectStmt(cx, rs[0]) && DirectBlock(After(cx, rs[0]), rs[1..]))
  }

  ghost predicate StmtResolves(cx: Ctx, r: RStmt, s: Stmt) {
    StmtReadsBack(cx.reg.kinds, r, s) && WtStmt(cx, r) && DirectStmt(cx, r)
  }

  ghost predicate BlockResolves(cx: Ctx, rs: seq<RStmt>, stmts: seq<Stmt>) {
    BlockReadsBack(cx.reg.kinds, rs, stmts) && WtBlock(cx, rs) && DirectBlock(cx, rs)
  }

  lemma EnterInOrder(cx: Ctx)
    requires InOrder(cx)
    ensures InOrder(cx.Enter())
  {
    EnterOk(cx);
    EnterNamed(cx);
  }

  /** A statement the checker accepts leaves the scope in order. */
  lemma AfterInOrder(cx: Ctx, s: Stmt)
    requires InOrder(cx) && CleanStmt(s) && CheckStmt(cx, s).Success?
    ensures InOrder(After(cx, CheckStmt(cx, s).value))
  {
    hide CheckStmt, CtxOk, SlotsNamed, CleanStmt;
    assert cx.frames != [] by { ScopeIsOpen(cx); }
    CheckStmtTyped(cx, s);
    CheckedStmtReadsBack(cx, s);
  }

  lemma ScopeIsOpen(cx: Ctx)
    requires CtxOk(cx)
    ensures cx.frames != []
  {
  }

  lemma EmitParamsDistinct(cx: Ctx, t: TypeID)
    requires InOrder(cx)
    ensures DistinctParams(cx.reg.EmitRule(t).params)
  {
    var fields := cx.reg.FieldsOf(t);
    if fields != [] {
      assert DistinctFields(cx.reg.types[t].fields);
    }
  }

  /** A value fitted to a type is fitted by the coercion the type calls for. */
  lemma FittedIsCoerced(cx: Ctx, v: RExpr, t: TypeID, e: Expr) returns (r: RExpr)
    requires InOrder(cx) && ReadsBack(cx.reg.kinds, v, e) && WtExpr(cx, v) && Fitted(cx, v, t) && v.Type() == t
    ensures CheckExpr(cx, e) == Success(r) && CoerceTo(cx.reg, r, t) == Some(v)
  {
    hide InOrder, CheckExpr, Direct;
    r := if v.RCoerce? then v.inner else v;
    ExprFound(cx, r, e);
  }

  lemma CoercedIsFitted(cx: Ctx, r: RExpr, t: TypeID)
    requires Direct(cx, r) && CoerceTo(cx.reg, r, t).Some?
    ensures Fitted(cx, CoerceTo(cx.reg, r, t).value, t)
  {
  }

  lemma AssignIsDirect(cx: Ctx, target: Expr, value: Expr)
    requires InOrder(cx) && CleanExpr(target) && CleanExpr(value) && CheckAssign(cx, target, value).Success?
    ensures DirectStmt(cx, CheckAssign(cx, target, value).value)
  {
    hide CheckExpr, CoerceTo, Direct, ErrorFree;
    ExprIsDirect(cx, value);
    var r, b := CheckExpr(cx, value).value, CheckTarget(cx, target).value;
    CoercedIsFitted(cx, r, b.t);
    var symbol := if target.Ident? then target.name else Qualified(target.receiver.name, target.name);
    assert NamedAt(cx, symbol) && BoundOk(cx, symbol);
    if b.slot.Some? {
      if target.Ident? {
        PlainNamesSlot(cx.reg.kinds, symbol, b);
      } else {
        QualifiedNamesSlot(cx.reg.kinds, target.receiver.name, target.name, b);
      }
    }
  }

  lemma {:induction false} StmtIsDirect(cx: Ctx, s: Stmt)
    requires InOrder(cx) && CleanStmt(s) && CheckStmt(cx, s).Success?
    ensures DirectStmt(cx, CheckStmt(cx, s).value)
    decreases s, 0
  {
    hide InOrder, CheckExpr, CheckAssign, CheckBlock, CheckArgs, Direct, DirectArgs;
    match s
    case ExprStmt(e) =>
      if IsEmit(e) {
        ArgsAreDirect(cx, cx.reg.EmitRule(Lookup(cx.frames, e.args[0].name).value.t).params, e, 1);
      } else {
        ExprIsDirect(cx, e);
      }
    case Let(_, value) => ExprIsDirect(cx, value);
    case Assign(target, value) => AssignIsDirect(cx, target, value);
    case Block(stmts) =>
      EnterInOrder(cx);
      BlockIsDirect(cx.Enter(), stmts);
    case If(cond, consequence, alternative) =>
      ExprIsDirect(cx, cond.value);
      EnterInOrder(cx);
      BlockIsDirect(cx.Enter(), consequence);
      if alternative.Some? {
        StmtIsDirect(cx, alternative.value);
      }
  }

  lemma {:induction false} BlockIsDirect(cx: Ctx, stmts: seq<Stmt>)
    requires InOrder(cx) && CleanBlock(stmts) && CheckBlock(cx, stmts).Success?
    ensures DirectBlock(cx, CheckBlock(cx, stmts).value)
    decreases stmts, 1
  {
    hide InOrder, CheckStmt, DirectStmt;
    if stmts != [] {
      StmtIsDirect(cx, stmts[0]);
      AfterInOrder(cx, stmts[0]);
      BlockIsDirect(After(cx, CheckStmt(cx, stmts[0]).value), stmts[1..]);
    }
  }

  lemma AssignFound(cx: Ctx, r: RStmt, s: Stmt)
    requires InOrder(cx) && (r.RAssignName? || r.RAssignSlot?) && StmtResolves(cx, r, s)
    ensures CheckStmt(cx, s) == Success(r)
  {
    hide CheckExpr, ReadsBack, WtExpr, Fitted, CoerceTo, ErrorFree;
    if r.RAssignName? {
      var _ := FittedIsCoerced(cx, r.value, r.t, s.value);
    } else {
      var _ := FittedIsCoerced(cx, r.value, r.slot.t, s.value);
      var symbol := SlotSymbol(cx.reg.kinds[r.slot.kind], r.slot.name);
      assert BoundOk(cx, symbol) && NamedAt(cx, symbol);
    }
  }

  lemma EmitFound(cx: Ctx, r: RStmt, s: Stmt)
    requires InOrder(cx) && r.REmit? && StmtResolves(cx, r, s)
    ensures CheckStmt(cx, s) == Success(r)
  {
    hide InOrder, CheckArgs, ArgsReadBack, WtArgs, DirectArgs;
    EmitParamsDistinct(cx, r.t);
    ArgsFound(cx, cx.reg.EmitRule(r.t).params, r.args, s.expr, 1);
  }

  lemma {:induction false} StmtFound(cx: Ctx, r: RStmt, s: Stmt)
    requires InOrder(cx) && CleanStmt(s) && StmtResolves(cx, r, s)
    ensures CheckStmt(cx, s) == Success(r)
    decreases r, 0
  {
    hide InOrder, CheckExpr, CheckBlock, ReadsBack, WtExpr, Direct, BlockReadsBack, WtBlock, DirectBlock, ArgsReadBack,
      WtArgs;
    match r
    case RExprStmt(e) =>
      ExprFound(cx, e, s.expr);
      assert !IsEmit(s.expr) by { NotEmit(cx, e, s.expr); }
    case RLet(_, value, _) => ExprFound(cx, value, s.value);
    case RAssignName(_, _, _) => AssignFound(cx, r, s);
    case RAssignSlot(_, _, _) => AssignFound(cx, r, s);
    case RBlock(stmts) =>
      EnterInOrder(cx);
      BlockFound(cx.Enter(), stmts, s.stmts);
    case RIf(_, _, _) => IfFound(cx, r, s);
    case REmit(_, _, _) => EmitFound(cx, r, s);
  }

  lemma NotEmit(cx: Ctx, r: RExpr, e: Expr)
    requires CheckExpr(cx, e) == Success(r)
    ensures !IsEmit(e)
  {
    hide CheckReceiver, CheckArgs;
  }

  lemma {:induction false} IfFound(cx: Ctx, r: RStmt, s: Stmt)
    requires InOrder(cx) && CleanStmt(s) && r.RIf? && StmtResolves(cx, r, s)
    ensures CheckStmt(cx, s) == Success(r)
    decreases r, 0, 0
  {
    hide InOrder, CheckExpr, CheckBlock, ReadsBack, WtExpr, Direct, BlockReadsBack, WtBlock, DirectBlock, CleanExpr;
    ExprFound(cx, r.cond, s.cond.value);
    EnterInOrder(cx);
    BlockFound(cx.Enter(), r.consequence, s.consequence);
    if r.alternative.Some? {
      StmtFound(cx, r.alternative.value, s.alternative.value);
    }
  }

  lemma {:induction false} BlockFound(cx: Ctx, rs: seq<RStmt>, stmts: seq<Stmt>)
    requires InOrder(cx) && CleanBlock(stmts) && BlockResolves(cx, rs, stmts)
    ensures CheckBlock(cx, stmts) == Success(rs)
    decreases rs, 1
  {
    hide InOrder, CheckStmt, StmtReadsBack, WtStmt, DirectStmt, CleanStmt;
    if rs != [] {
      StmtFound(cx, rs[0], stmts[0]);
      AfterInOrder(cx, stmts[0]);
      assert BlockReadsBack(cx.reg.kinds, rs[1..], stmts[1..]);
      BlockFound(After(cx, rs[0]), rs[1..], stmts[1..]);
      assert rs == [rs[0]] + rs[1..];
    }
  }

  /** A block is accepted exactly if it has a resolution, and resolves to that. */
  lemma BlocksExactly(cx: Ctx, stmts: seq<Stmt>, rs: seq<RStmt>)
    requires InOrder(cx) && CleanBlock(stmts)
    ensures CheckBlock(cx, stmts) == Success(rs) <==> BlockResolves(cx, rs, stmts)
  {
    hide CtxOk, SlotsNamed, CheckBlock, BlockReadsBack, WtBlock, DirectBlock, CleanBlock;
    assert cx.frames != [] by { ScopeIsOpen(cx); }
    if CheckBlock(cx, stmts) == Success(rs) {
      CheckedBlockReadsBack(cx, stmts);
      CheckBlockTyped(cx, stmts);
      BlockIsDirect(cx, stmts);
    }
    if BlockResolves(cx, rs, stmts) {
      BlockFound(cx, rs, stmts);
    }
  }
}
