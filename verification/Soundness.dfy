/**
 Type soundness: a well-typed program never reaches a panic site of the evaluator, every value it computes
 has the type it was resolved at, and every name in scope is found.
 */
module Soundness {
  import opened Wrappers
  import opened Tokens
  import opened Values
  import opened Registries
  import opened Rules
  import opened WellFormed
  import opened Scopes
  import opened Resolved
  import opened Typing
  import opened Semantics

  /** What soundness asks of the registry and the host. */
  ghost predicate Trusted(p: Program) {
    && RulesKeep(p.host, p.reg)
    && (forall k | k in p.reg.call :: DistinctParams(p.reg.call[k].params))
    && (forall t | t in p.reg.types :: DistinctFields(p.reg.types[t].fields))
    && (forall k | k in p.reg.coerces :: p.reg.coerces[k].evalType == k.to)
    && (forall t | t in CORE_IDS :: p.reg.FieldsOf(t) == [])
  }

  lemma WellFormedIsTrusted(p: Program)
    requires WfRegistry(p.reg) && HostHonours(p.host, p.reg)
    ensures Trusted(p)
  {
    AllRulesKeep(p.host, p.reg);
  }

  // ---------- The outside world ----------

  ghost predicate InputsTyped(p: Program, w: World) {
    forall n | n in w.inputs :: InputType(p.code.decls, n).Some?
      && HasType(p.reg, w.inputs[n], InputType(p.code.decls, n).value)
  }

  ghost predicate OutputsTyped(p: Program, w: World) {
    forall n | n in w.outputs :: OutputType(p.code.decls, n) == Some(w.outputs[n].t)
  }

  /** Every delivered value is canonical and has the type its sink accepts, and the sink that of the declared output. */
  ghost predicate TraceTyped(p: Program, trace: seq<Emission>) {
    forall m | m in trace :: HasType(p.reg, m.value, m.sink.t) && OutputType(p.code.decls, m.output) == Some(m.sink.t)
  }

  ghost predicate WorldOk(p: Program, w: World) {
    InputsTyped(p, w) && OutputsTyped(p, w) && TraceTyped(p, w.trace)
  }

  /** How the world may move: ports are never unbound and frozen once Created is left, deliveries never recalled. */
  ghost predicate Advances(w: World, w': World) {
    && w.outputs.Keys <= w'.outputs.Keys && w.trace <= w'.trace
    && (w.stage != Created ==> w'.stage == w.stage && w'.inputs == w.inputs && w'.outputs == w.outputs)
  }

  lemma FitToTyped(p: Program, v: Value, t: TypeID)
    requires Trusted(p) && Canonical(p.reg, v)
    ensures FitTo(p, v, t).Fits? ==> HasType(p.reg, FitTo(p, v, t).v, t)
    ensures FitTo(p, v, t) != CoercePanics(true)
  {
    var key := CoerceKey(TypeOf(v), t);
    if TypeOf(v) != t && key in p.reg.coerces {
      assert CoerceKeeps(p.host, p.reg, key, p.reg.coerces[key]);
      assert HasType(p.reg, v, key.from);
    }
  }

  lemma NestedCallOk(p: Program, w: World, c: ApiCall)
    requires Trusted(p) && WorldOk(p, w) && ProperCall(p.reg, c)
    ensures WorldOk(p, NestedCall(p, w, c)) && Advances(w, NestedCall(p, w, c)) && NestedCall(p, w, c).trace == w.trace
  {
    if c.CallBindInput? {
      var t := InputType(p.code.decls, c.name);
      if t.Some? {
        FitToTyped(p, c.value, t.value);
      }
    }
  }

  /** Callbacks, however many and whichever, leave ports typed and bound and deliver nothing. */
  lemma {:induction false} NestedCallsOk(p: Program, w: World, cs: seq<ApiCall>)
    requires Trusted(p) && WorldOk(p, w) && ProperCalls(p.reg, cs)
    ensures WorldOk(p, NestedCalls(p, w, cs)) && Advances(w, NestedCalls(p, w, cs))
      && NestedCalls(p, w, cs).trace == w.trace
    decreases |cs|
  {
    if cs != [] {
      NestedCallOk(p, w, cs[0]);
      NestedCallsOk(p, NestedCall(p, w, cs[0]), cs[1..]);
    }
  }

  // ---------- Scopes at run time ----------

  /** Static frames as resolution builds them: no name twice, locals inside, declarations at the top. */
  ghost predicate Layered(cx: Ctx) {
    && cx.frames != []
    && (forall i, j, x | 0 <= i < j < |cx.frames| && x in cx.frames[i] :: x !in cx.frames[j])
    && (forall i, x | 0 <= i < |cx.frames| - 1 && x in cx.frames[i] :: cx.frames[i][x].kind == KLet)
    && (forall x | x in Top(cx.frames) :: Top(cx.frames)[x].kind != KLet)
  }

  /**
   Where a run-time frame may hold a name: the static frame at its level, or for an input the function's own frame.
   */
  ghost predicate HomeOf(cx: Ctx, i: nat, x: string)
    requires i < |cx.frames|
  {
    || x in cx.frames[i]
    || (i == |cx.frames| - 2 && cx.phase == InRun && x in Top(cx.frames) && Top(cx.frames)[x].kind == KInput)
  }

  ghost predicate Homed(cx: Ctx, frames: Frames) {
    |frames| == |cx.frames| && forall i, x | 0 <= i < |frames| && x in frames[i] :: HomeOf(cx, i, x)
  }

  /** Every name the program may read is bound, to a value of its static type. */
  ghost predicate Valued(cx: Ctx, frames: Frames) {
    forall x :: ReadsWell(cx, frames, x)
  }

  ghost predicate ReadsWell(cx: Ctx, frames: Frames, x: string) {
    var b := Lookup(cx.frames, x);
    b.Some? && InEnvironment(cx.phase, b.value) ==>
      Lookup(frames, x).Some? && HasType(cx.reg, Lookup(frames, x).value, b.value.t)
  }

  lemma LetLayered(cx: Ctx, name: string, t: TypeID)
    requires Layered(cx) && |cx.frames| > 1 && Lookup(cx.frames, name).None?
    ensures Layered(cx.(frames := SetHead(cx.frames, name, LetBinding(t))))
  {
    forall i | 0 <= i < |cx.frames| ensures name !in cx.frames[i] { LookupNone(cx.frames, name, i); }
    assert Top(SetHead(cx.frames, name, LetBinding(t))) == Top(cx.frames);
  }

  lemma LetHomed(cx: Ctx, frames: Frames, name: string, v: Value, t: TypeID)
    requires |cx.frames| > 1 && Homed(cx, frames)
    ensures Homed(cx.(frames := SetHead(cx.frames, name, LetBinding(t))), SetHead(frames, name, v))
  {
    var cx' := cx.(frames := SetHead(cx.frames, name, LetBinding(t)));
    var frames' := SetHead(frames, name, v);
    forall i, x | 0 <= i < |frames'| && x in frames'[i] ensures HomeOf(cx', i, x) {
      if x in frames[i] { assert HomeOf(cx, i, x); }
    }
  }

  lemma LetValued(cx: Ctx, frames: Frames, name: string, v: Value, t: TypeID)
    requires cx.frames != [] && frames != [] && Valued(cx, frames) && HasType(cx.reg, v, t)
    ensures Valued(cx.(frames := SetHead(cx.frames, name, LetBinding(t))), SetHead(frames, name, v))
  {
    var cx' := cx.(frames := SetHead(cx.frames, name, LetBinding(t)));
    var frames' := SetHead(frames, name, v);
    forall x ensures ReadsWell(cx', frames', x) {
      LookupSetHead(cx.frames, name, LetBinding(t), x);
      LookupSetHead(frames, name, v, x);
      assert ReadsWell(cx, frames, x);
    }
  }

  lemma AssignHomed(cx: Ctx, frames: Frames, name: string, v: Value)
    requires Homed(cx, frames)
    ensures Homed(cx, AssignIn(frames, name, v))
  {
    var frames' := AssignIn(frames, name, v);
    forall i, x | 0 <= i < |frames'| && x in frames'[i] ensures HomeOf(cx, i, x) {
      AssignInFrame(frames, name, v, i);
      assert x in frames[i].Keys;
    }
  }

  lemma AssignValued(cx: Ctx, frames: Frames, name: string, v: Value)
    requires Valued(cx, frames) && Lookup(cx.frames, name).Some? && HasType(cx.reg, v, Lookup(cx.frames, name).value.t)
    ensures Valued(cx, AssignIn(frames, name, v))
  {
    var frames' := AssignIn(frames, name, v);
    forall x ensures ReadsWell(cx, frames', x) {
      LookupAssignIn(frames, name, v, x);
      assert ReadsWell(cx, frames, x);
    }
  }

  lemma PushLayered(cx: Ctx)
    requires Layered(cx)
    ensures Layered(cx.Enter())
  {
    var inner := cx.Enter();
    assert Top(inner.frames) == Top(cx.frames);
    forall i, j, x | 0 <= i < j < |inner.frames| && x in inner.frames[i] ensures x !in inner.frames[j] {
      assert x in cx.frames[i - 1];
    }
    forall i, x | 0 <= i < |inner.frames| - 1 && x in inner.frames[i] ensures inner.frames[i][x].kind == KLet {
      assert x in cx.frames[i - 1];
    }
  }

  lemma PushHomed(cx: Ctx, frames: Frames)
    requires cx.frames != [] && Homed(cx, frames)
    ensures Homed(cx.Enter(), [map[]] + frames)
  {
    var frames' := [map[]] + frames;
    assert Top(cx.Enter().frames) == Top(cx.frames);
    forall i, x | 0 <= i < |frames'| && x in frames'[i] ensures HomeOf(cx.Enter(), i, x) {
      assert x in frames[i - 1];
      assert HomeOf(cx, i - 1, x);
    }
  }

  lemma PushValued(cx: Ctx, frames: Frames)
    requires Valued(cx, frames)
    ensures Valued(cx.Enter(), [map[]] + frames)
  {
    forall x ensures ReadsWell(cx.Enter(), [map[]] + frames, x) {
      LookupPush(cx.frames, x);
      LookupPush(frames, x);
      assert ReadsWell(cx, frames, x);
    }
  }

  lemma PopHomed(cx: Ctx, inner: Ctx, frames: Frames)
    requires |cx.frames| > 1 && Homed(inner, frames)
    requires inner == cx.(frames := inner.frames) && |inner.frames| > 0 && inner.frames[1..] == cx.frames
    ensures Homed(cx, frames[1..])
  {
    var outer := frames[1..];
    assert Top(inner.frames) == Top(cx.frames);
    forall i, x | 0 <= i < |outer| && x in outer[i] ensures HomeOf(cx, i, x) {
      assert x in frames[i + 1];
      assert HomeOf(inner, i + 1, x);
      assert inner.frames[i + 1] == cx.frames[i];
    }
  }

  /** Leaving a block: no inner name hid an outer one, so what the outer frames hold still reads well. */
  lemma PopValued(cx: Ctx, inner: Ctx, frames: Frames)
    requires |cx.frames| > 1 && Layered(inner) && Homed(inner, frames) && Valued(inner, frames)
    requires inner == cx.(frames := inner.frames) && inner.frames[1..] == cx.frames
    ensures Valued(cx, frames[1..])
  {
    forall x ensures ReadsWell(cx, frames[1..], x) {
      if Lookup(cx.frames, x).Some? {
        var i := LookupIndex(cx.frames, x);
        assert x in inner.frames[i + 1];
        assert x !in inner.frames[0];
        assert ReadsWell(inner, frames, x);
      }
    }
  }

  // ---------- Expressions ----------

  ghost predicate CellsTyped(p: Program, cells: Cells) {
    var slots := Slots(p.code.decls);
    |cells| == |slots| && forall i | 0 <= i < |cells| && cells[i].Some? :: HasType(p.reg, cells[i].value, slots[i].t)
  }

  ghost predicate AllFilled(cells: Cells) {
    forall i | 0 <= i < |cells| :: cells[i].Some?
  }

  /** A state in which an expression typed in cx may be evaluated. */
  ghost predicate Ready(p: Program, cx: Ctx, frames: Frames, cells: Cells, w: World) {
    Trusted(p) && cx.reg == p.reg && cx.slots <= Slots(p.code.decls) && Valued(cx, frames) && CellsTyped(p, cells)
      && WorldOk(p, w)
  }

  /** No panic site reached, no empty slot read once all are filled, nothing delivered, ports still bound. */
  ghost predicate Safe<T>(p: Program, cells: Cells, w: World, r: Evaluated<T>) {
    && r.out != EnginePanic
    && (AllFilled(cells) ==> r.out != Trap(EmptySlot))
    && WorldOk(p, r.world) && Advances(w, r.world) && r.world.trace == w.trace
  }

  ghost predicate Yields(p: Program, r: Evaluated<Value>, t: TypeID) {
    r.out.Done? ==> HasType(p.reg, r.out.v, t)
  }

  lemma SettleSafe(p: Program, cells: Cells, w0: World, w: World, a: Applied, t: TypeID)
    requires Trusted(p) && WorldOk(p, w) && Advances(w0, w) && w.trace == w0.trace && Keeps(p.reg, a, t)
    ensures Safe(p, cells, w0, Settle(p, w, a)) && Yields(p, Settle(p, w, a), t)
  {
    NestedCallsOk(p, w.(clock := w.clock + 1), a.nested);
  }

  lemma BinaryStep(p: Program, cells: Cells, w0: World, w: World, op: TokenType, l: Value, r: Value, rule: BinaryRule)
    requires Trusted(p) && WorldOk(p, w) && Advances(w0, w) && w.trace == w0.trace
    requires p.reg.LookupBinary(op, TypeOf(l), TypeOf(r)) == Some(rule) && Canonical(p.reg, l) && Canonical(p.reg, r)
    ensures Safe(p, cells, w0, Settle(p, w, ApplyBinary(p.host, rule.fn, w.clock, l, r)))
    ensures Yields(p, Settle(p, w, ApplyBinary(p.host, rule.fn, w.clock, l, r)), rule.evalType)
  {
    var key := BinaryKey(op, TypeOf(l), TypeOf(r));
    assert BinaryKeeps(p.host, p.reg, key, rule);
    assert HasType(p.reg, l, key.left) && HasType(p.reg, r, key.right);
    SettleSafe(p, cells, w0, w, ApplyBinary(p.host, rule.fn, w.clock, l, r), rule.evalType);
  }

  lemma UnaryStep(p: Program, cells: Cells, w0: World, w: World, op: TokenType, v: Value, rule: UnaryRule)
    requires Trusted(p) && WorldOk(p, w) && Advances(w0, w) && w.trace == w0.trace
    requires p.reg.LookupUnary(op, TypeOf(v)) == Some(rule) && Canonical(p.reg, v)
    ensures Safe(p, cells, w0, Settle(p, w, ApplyUnary(p.host, rule.fn, w.clock, v)))
    ensures Yields(p, Settle(p, w, ApplyUnary(p.host, rule.fn, w.clock, v)), rule.evalType)
  {
    var key := UnaryKey(op, TypeOf(v));
    assert UnaryKeeps(p.host, p.reg, key, rule);
    assert HasType(p.reg, v, key.right);
    SettleSafe(p, cells, w0, w, ApplyUnary(p.host, rule.fn, w.clock, v), rule.evalType);
  }

  lemma MemberStep(p: Program, cells: Cells, w0: World, w: World, name: string, v: Value, rule: MemberRule)
    requires Trusted(p) && WorldOk(p, w) && Advances(w0, w) && w.trace == w0.trace
    requires p.reg.LookupMember(TypeOf(v), name) == Some(rule) && Canonical(p.reg, v)
    ensures Safe(p, cells, w0, Settle(p, w, ApplyMember(p.host, rule.fn, w.clock, v)))
    ensures Yields(p, Settle(p, w, ApplyMember(p.host, rule.fn, w.clock, v)), rule.evalType)
  {
    var key := MemberKey(TypeOf(v), name);
    assert MemberKeeps(p.host, p.reg, key, rule);
    assert HasType(p.reg, v, key.owner);
    SettleSafe(p, cells, w0, w, ApplyMember(p.host, rule.fn, w.clock, v), rule.evalType);
  }

  lemma CallStep(p: Program, cells: Cells, w0: World, w: World, name: string, v: Value, rule: CallRule,
      args: map<string, Value>)
    requires Trusted(p) && WorldOk(p, w) && Advances(w0, w) && w.trace == w0.trace
    requires p.reg.LookupCall(TypeOf(v), name) == Some(rule) && Canonical(p.reg, v) && ArgsFit(p.reg, rule.params, args)
    ensures Safe(p, cells, w0, Settle(p, w, ApplyCall(p.host, rule.fn, w.clock, v, args)))
    ensures Yields(p, Settle(p, w, ApplyCall(p.host, rule.fn, w.clock, v, args)), rule.evalType)
  {
    var key := MemberKey(TypeOf(v), name);
    assert CallKeeps(p.host, p.reg, key, rule);
    assert HasType(p.reg, v, key.owner);
    SettleSafe(p, cells, w0, w, ApplyCall(p.host, rule.fn, w.clock, v, args), rule.evalType);
  }

  lemma CoerceStep(p: Program, v: Value, t: TypeID, fn: CoerceFn)
    requires Trusted(p) && p.reg.LookupCoerce(TypeOf(v), t) == Some(CoerceRule(fn, t)) && Canonical(p.reg, v)
    ensures var out := ApplyCoerce(p.host, fn, v);
      out != EnginePanic && out != Trap(EmptySlot) && (out.Done? ==> HasType(p.reg, out.v, t))
  {
    var key := CoerceKey(TypeOf(v), t);
    assert CoerceKeeps(p.host, p.reg, key, CoerceRule(fn, t));
    assert HasType(p.reg, v, key.from);
  }

  /** A well-typed expression evaluates safely, to a value of the type it was resolved at. */
  lemma {:induction false} EvalExprSafe(p: Program, cx: Ctx, frames: Frames, cells: Cells, w: World, e: RExpr)
    requires Ready(p, cx, frames, cells, w) && WtExpr(cx, e)
    ensures Safe(p, cells, w, EvalExpr(p, frames, cells, w, e)) && Yields(p, EvalExpr(p, frames, cells, w, e), e.Type())
    decreases e, 1
  {
    match e
    case RIdent(name, _) => assert ReadsWell(cx, frames, name);
    case RSlot(slot) => assert Slots(p.code.decls)[slot.index] == slot;
    case RInfix(op, left, right, t, fn) =>
      EvalExprSafe(p, cx, frames, cells, w, left);
      var l := EvalExpr(p, frames, cells, w, left);
      if l.out.Done? {
        EvalExprSafe(p, cx, frames, cells, l.world, right);
        var r := EvalExpr(p, frames, cells, l.world, right);
        if r.out.Done? {
          BinaryStep(p, cells, w, r.world, op, l.out.v, r.out.v, BinaryRule(fn, t));
        }
      }
    case RLogical(op, left, right) =>
      LogicalSafe(p, cx, frames, cells, w, e);
    case RPrefix(op, right, t, fn) =>
      EvalExprSafe(p, cx, frames, cells, w, right);
      var r := EvalExpr(p, frames, cells, w, right);
      if r.out.Done? {
        UnaryStep(p, cells, w, r.world, op, r.out.v, UnaryRule(fn, t));
      }
    case RCoerce(inner, t, fn) =>
      EvalExprSafe(p, cx, frames, cells, w, inner);
      var i := EvalExpr(p, frames, cells, w, inner);
      if i.out.Done? {
        CoerceStep(p, i.out.v, t, fn);
      }
    case RMember(receiver, name, t, fn) =>
      EvalExprSafe(p, cx, frames, cells, w, receiver);
      var o := EvalExpr(p, frames, cells, w, receiver);
      if o.out.Done? {
        MemberStep(p, cells, w, o.world, name, o.out.v, MemberRule(fn, t));
      }
    case RCall(_, _, _, _, _) => CallSafe(p, cx, frames, cells, w, e);
    case _ =>
  }

  /** Both operands of a logical operator are Bool, so neither check of the evaluator can fail. */
  lemma {:induction false} LogicalSafe(p: Program, cx: Ctx, frames: Frames, cells: Cells, w: World, e: RExpr)
    requires Ready(p, cx, frames, cells, w) && e.RLogical? && WtExpr(cx, e)
    ensures Safe(p, cells, w, EvalExpr(p, frames, cells, w, e)) && Yields(p, EvalExpr(p, frames, cells, w, e), BOOL_ID)
    decreases e, 0
  {
    EvalExprSafe(p, cx, frames, cells, w, e.left);
    var l := EvalExpr(p, frames, cells, w, e.left);
    if l.out.Done? {
      CoreValues(p.reg, l.out.v);
      EvalExprSafe(p, cx, frames, cells, l.world, e.right);
      var r := EvalExpr(p, frames, cells, l.world, e.right);
      if r.out.Done? {
        CoreValues(p.reg, r.out.v);
      }
    }
  }

  lemma {:induction false} CallSafe(p: Program, cx: Ctx, frames: Frames, cells: Cells, w: World, e: RExpr)
    requires Ready(p, cx, frames, cells, w) && e.RCall? && WtExpr(cx, e)
    ensures Safe(p, cells, w, EvalExpr(p, frames, cells, w, e)) && Yields(p, EvalExpr(p, frames, cells, w, e), e.t)
    decreases e, 0
  {
    EvalExprSafe(p, cx, frames, cells, w, e.receiver);
    var o := EvalExpr(p, frames, cells, w, e.receiver);
    if o.out.Done? {
      var rule := p.reg.LookupCall(e.receiver.Type(), e.name).value;
      assert DistinctParams(rule.params) by { assert MemberKey(e.receiver.Type(), e.name) in p.reg.call; }
      assert rule.params[0..] == rule.params;
      EvalArgsSafe(p, cx, frames, cells, o.world, rule.params, e.args, map[], 0);
      var a := EvalArgs(p, frames, cells, o.world, e.args, map[]);
      if a.out.Done? {
        CallStep(p, cells, w, a.world, e.name, o.out.v, rule, a.out.v);
      }
    }
  }

  /** Arguments evaluate to a map that fits the parameters; k of them are already in it. */
  lemma {:induction false} EvalArgsSafe(
      p: Program, cx: Ctx, frames: Frames, cells: Cells, w: World,
      params: seq<Param>, args: seq<RArg>, named: map<string, Value>, k: nat)
    requires Ready(p, cx, frames, cells, w) && DistinctParams(params) && k + |args| == |params|
    requires WtArgs(cx, params[k..], args) && ArgsFit(p.reg, params[..k], named)
    ensures var r := EvalArgs(p, frames, cells, w, args, named);
      Safe(p, cells, w, r) && (r.out.Done? ==> ArgsFit(p.reg, params, r.out.v))
    decreases args, 2
  {
    if args == [] {
      assert params[..k] == params;
    } else {
      EvalExprSafe(p, cx, frames, cells, w, args[0].value);
      var a := EvalExpr(p, frames, cells, w, args[0].value);
      if a.out.Done? {
        assert args[0].name == params[k..][0].name == params[k].name;
        var named' := named[args[0].name := a.out.v];
        forall q | q in params[..k + 1] ensures q.name in named' && HasType(p.reg, named'[q.name], q.typ) {
          assert params[..k + 1] == params[..k] + [params[k]];
        }
        forall i | 0 <= i < |args[1..]|
          ensures args[1..][i].name == params[k + 1..][i].name && args[1..][i].value.Type() == params[k + 1..][i].typ
            && WtExpr(cx, args[1..][i].value)
        {
          assert args[1..][i] == args[i + 1] && params[k + 1..][i] == params[k..][i + 1];
        }
        EvalArgsSafe(p, cx, frames, cells, a.world, params, args[1..], named', k + 1);
      }
    }
  }
}
