/**
 Laws between public calls (executable.go:83-182, evaluator/evaluator.go:78-142): what one call stores, a later one
 finds, and nothing else changes.
 */
module CallLaws {
  import opened Wrappers
  import opened Values
  import opened Registries
  import opened Rules
  import opened Scopes
  import opened Resolved
  import opened Typing
  import opened Semantics
  import opened Soundness
  import opened Lifecycle
  import opened Safety
  import opened TickInputs

  /** u is v as a cell of type t holds it: v itself at that type, otherwise its image under the registered coercion. */
  predicate StoredAs(p: Program, v: Value, t: TypeID, u: Value) {
    if TypeOf(v) == t then u == v
    else
      var key := CoerceKey(TypeOf(v), t);
      key in p.reg.coerces && ApplyCoerce(p.host, p.reg.coerces[key].fn, v) == Done(u)
  }

  // ---------- Slots ----------

  /** The slot a kind and name refer to is the first declared so. */
  predicate SlotOf(p: Program, kind: string, name: string, i: nat) {
    var slots := Slots(p.code.decls);
    && i < |slots| && slots[i].kind == kind && slots[i].name == name
    && forall j | 0 <= j < i :: !(slots[j].kind == kind && slots[j].name == name)
  }

  lemma {:induction false} FindSlotExact(slots: seq<Slot>, kind: string, name: string, i: nat)
    requires i < |slots| && slots[i].kind == kind && slots[i].name == name
    requires forall j | 0 <= j < i :: !(slots[j].kind == kind && slots[j].name == name)
    ensures FindSlot(slots, kind, name) == Some(i)
  {
    if i > 0 {
      assert forall j | 0 <= j < i - 1 :: slots[1..][j] == slots[j + 1];
      FindSlotExact(slots[1..], kind, name, i - 1);
    }
  }

  /** What a read of the slot answers. */
  function Read(p: Program, x: Exec, kind: string, name: string): ApiResult {
    Call(p, x, CallSlotGet(kind, name)).1
  }

  /**
   A set is accepted exactly outside activations, before or after Init but not after a failed one, on a declared
   slot, of a value that has the slot's type or can be coerced to it; and then the slot reads as that value.
   */
  lemma SetThenGet(p: Program, x: Exec, kind: string, name: string, v: Value, i: nat)
    requires SlotOf(p, kind, name, i) && |x.slots| == |Slots(p.code.decls)|
    ensures var (y, answer) := Call(p, x, CallSlotSet(kind, name, v)); var t := Slots(p.code.decls)[i].t;
      && (answer.Accepted? <==> !x.inTick && x.world.stage != FailedStage && exists u :: StoredAs(p, v, t, u))
      && (answer.Accepted? ==> Read(p, y, kind, name).Got? && StoredAs(p, v, t, Read(p, y, kind, name).v))
      && (!answer.Accepted? ==> y == x)
  {
    FindSlotExact(Slots(p.code.decls), kind, name, i);
    var t := Slots(p.code.decls)[i].t;
    var f := FitTo(p, v, t);
    assert f.Fits? ==> StoredAs(p, v, t, f.v);
    assert (exists u :: StoredAs(p, v, t, u)) ==> f.Fits?;
  }

  /** No other slot is touched, nor anything outside the cells. */
  lemma SetLeavesOthers(p: Program, x: Exec, kind: string, name: string, v: Value, kind': string, name': string)
    requires |x.slots| == |Slots(p.code.decls)| && (kind', name') != (kind, name)
    ensures var y := Call(p, x, CallSlotSet(kind, name, v)).0;
      Read(p, y, kind', name') == Read(p, x, kind', name') && y == x.(slots := y.slots) && |y.slots| == |x.slots|
  {
    FindSlotIs(Slots(p.code.decls), kind, name);
    FindSlotIs(Slots(p.code.decls), kind', name');
  }

  /** An unknown handle is refused, whatever is asked of it. */
  lemma UnknownSlot(p: Program, x: Exec, kind: string, name: string, v: Value)
    requires forall s | s in Slots(p.code.decls) :: !(s.kind == kind && s.name == name)
    ensures Read(p, x, kind, name) == Rejected(NoSuchSlot)
      && Call(p, x, CallSlotSet(kind, name, v)) == (x, Rejected(NoSuchSlot))
  {
    FindSlotIs(Slots(p.code.decls), kind, name);
  }

  /** A read answers the cell's value, and is refused inside an activation and on an empty cell. */
  lemma ReadsTheCell(p: Program, x: Exec, kind: string, name: string, i: nat)
    requires SlotOf(p, kind, name, i) && |x.slots| == |Slots(p.code.decls)|
    ensures Call(p, x, CallSlotGet(kind, name)).0 == x
    ensures forall v :: Read(p, x, kind, name) == Got(v) <==> !x.inTick && x.slots[i] == Some(v)
  {
    FindSlotExact(Slots(p.code.decls), kind, name, i);
  }

  /**
   A freshly compiled program: every slot reads as empty, no input is bound, Run is refused, and nothing was delivered.
   */
  lemma FreshIsEmpty(p: Program, kind: string, name: string, i: nat)
    ensures SlotOf(p, kind, name, i) ==> Read(p, Fresh(p), kind, name) == Rejected(SlotIsEmpty)
    ensures Call(p, Fresh(p), CallRun) == (Fresh(p), Rejected(NotInitialized))
    ensures Fresh(p).world.inputs == map[] && Fresh(p).world.outputs == map[] && Fresh(p).world.trace == []
    ensures forall m :: m in Fresh(p).top <==> m in p.reg.modules
    ensures forall m | m in p.reg.modules :: Fresh(p).top[m] == ModuleV(m)
  {
    if SlotOf(p, kind, name, i) {
      FindSlotExact(Slots(p.code.decls), kind, name, i);
    }
  }

  // ---------- Ports ----------

  /** A binding is accepted exactly before Init, for a declared input, of a value that fits; the port then holds it. */
  lemma BindInputStores(p: Program, x: Exec, name: string, v: Value)
    ensures var (y, answer) := Call(p, x, CallBindInput(name, v)); var t := InputType(p.code.decls, name);
      && (answer.Accepted? <==> x.world.stage == Created && t.Some? && exists u :: StoredAs(p, v, t.value, u))
      && (answer.Accepted? ==>
           && name in y.world.inputs && StoredAs(p, v, t.value, y.world.inputs[name])
           && y.world.inputs - {name} == x.world.inputs - {name})
      && y == x.(world := x.world.(inputs := y.world.inputs)) && (!answer.Accepted? ==> y == x)
  {
    var t := InputType(p.code.decls, name);
    if t.Some? {
      var f := FitTo(p, v, t.value);
      assert f.Fits? ==> StoredAs(p, v, t.value, f.v);
      assert (exists u :: StoredAs(p, v, t.value, u)) ==> f.Fits?;
    }
  }

  lemma BindOutputStores(p: Program, x: Exec, name: string, sink: Sink)
    ensures var (y, answer) := Call(p, x, CallBindOutput(name, sink));
      && (answer.Accepted? <==> x.world.stage == Created && OutputType(p.code.decls, name) == Some(sink.t))
      && (answer.Accepted? ==>
           && name in y.world.outputs && y.world.outputs[name] == sink
           && y.world.outputs - {name} == x.world.outputs - {name})
      && y == x.(world := x.world.(outputs := y.world.outputs)) && (!answer.Accepted? ==> y == x)
  {
  }

  // ---------- What is bound stays bound ----------

  /** The call does not bind the port anew. */
  predicate Spares(c: ApiCall, port: string) {
    (c.CallBindInput? ==> c.name != port) && (c.CallBindOutput? ==> c.name != port)
  }

  predicate AllSpare(cs: seq<ApiCall>, port: string) {
    forall c | c in cs :: Spares(c, port)
  }

  /** Neither does any call the host makes back from a rule or a sink. */
  ghost predicate HostSpares(h: Host, port: string) {
    && (forall id: nat, clock: nat, l, r :: AllSpare(h.binary(id, clock, l, r).nested, port))
    && (forall id: nat, clock: nat, v :: AllSpare(h.unary(id, clock, v).nested, port))
    && (forall id: nat, clock: nat, v :: AllSpare(h.member(id, clock, v).nested, port))
    && (forall id: nat, clock: nat, v, args :: AllSpare(h.call(id, clock, v, args).nested, port))
    && (forall sink, clock: nat, v :: AllSpare(h.emit(sink, clock, v).nested, port))
  }

  /** What the port was bound to it still is, and everything delivered since through it went to that sink. */
  predicate Steady(w: World, w': World, port: string) {
    && (port in w.inputs ==> port in w'.inputs && w'.inputs[port] == w.inputs[port])
    && (port in w.outputs ==> port in w'.outputs && w'.outputs[port] == w.outputs[port])
    && w.trace <= w'.trace
    && (port in w.outputs ==>
         forall i | |w.trace| <= i < |w'.trace| && w'.trace[i].output == port :: w'.trace[i].sink == w.outputs[port])
  }

  lemma SteadyTransitive(u: World, v: World, w: World, port: string)
    requires Steady(u, v, port) && Steady(v, w, port)
    ensures Steady(u, w, port)
  {
    if port in u.outputs {
      forall i | |u.trace| <= i < |w.trace| && w.trace[i].output == port ensures w.trace[i].sink == u.outputs[port] {
        if i < |v.trace| {
          assert w.trace[i] == v.trace[i];
        }
      }
    }
  }

  lemma {:induction false} NestedSteady(p: Program, w: World, cs: seq<ApiCall>, port: string)
    requires AllSpare(cs, port)
    ensures Steady(w, NestedCalls(p, w, cs), port)
    decreases |cs|
  {
    if cs != [] {
      assert Spares(cs[0], port);
      NestedSteady(p, NestedCall(p, w, cs[0]), cs[1..], port);
    }
  }

  lemma SettleSteady(p: Program, w: World, a: Applied, port: string)
    requires AllSpare(a.nested, port)
    ensures Steady(w, Settle(p, w, a).world, port)
  {
    var next := w.(clock := w.clock + 1);
    NestedSteady(p, next, a.nested, port);
    SteadyTransitive(w, next, NestedCalls(p, next, a.nested), port);
  }

  lemma BinarySteady(p: Program, w: World, fn: BinaryFn, l: Value, r: Value, port: string)
    requires HostSpares(p.host, port)
    ensures Steady(w, Settle(p, w, ApplyBinary(p.host, fn, w.clock, l, r)).world, port)
  {
    assert fn.HostBinary? ==> AllSpare(p.host.binary(fn.id, w.clock, l, r).nested, port);
    assert AllSpare(ApplyBinary(p.host, fn, w.clock, l, r).nested, port) by { hide NumericArith, NumericComparison; }
    SettleSteady(p, w, ApplyBinary(p.host, fn, w.clock, l, r), port);
  }

  lemma UnarySteady(p: Program, w: World, fn: UnaryFn, v: Value, port: string)
    requires HostSpares(p.host, port)
    ensures Steady(w, Settle(p, w, ApplyUnary(p.host, fn, w.clock, v)).world, port)
  {
    assert fn.HostUnary? ==> AllSpare(p.host.unary(fn.id, w.clock, v).nested, port);
    SettleSteady(p, w, ApplyUnary(p.host, fn, w.clock, v), port);
  }

  lemma MemberSteady(p: Program, w: World, fn: MemberFn, v: Value, port: string)
    requires HostSpares(p.host, port)
    ensures Steady(w, Settle(p, w, ApplyMember(p.host, fn, w.clock, v)).world, port)
  {
    assert fn.HostMember? ==> AllSpare(p.host.member(fn.id, w.clock, v).nested, port);
    SettleSteady(p, w, ApplyMember(p.host, fn, w.clock, v), port);
  }

  lemma CallSteady(p: Program, w: World, fn: CallFn, v: Value, args: map<string, Value>, port: string)
    requires HostSpares(p.host, port)
    ensures Steady(w, Settle(p, w, ApplyCall(p.host, fn, w.clock, v, args)).world, port)
  {
    assert fn.HostCall? ==> AllSpare(p.host.call(fn.id, w.clock, v, args).nested, port);
    SettleSteady(p, w, ApplyCall(p.host, fn, w.clock, v, args), port);
  }

  lemma {:induction false} ExprSteady(p: Program, frames: Frames, slots: Cells, w: World, e: RExpr, port: string)
    requires HostSpares(p.host, port)
    ensures Steady(w, EvalExpr(p, frames, slots, w, e).world, port)
    decreases e, 0
  {
    hide Settle, HostSpares, Steady, ApplyBinary, ApplyUnary, ApplyMember, ApplyCall, ApplyCoerce;
    SteadySelf(w, port);
    match e
    case RInfix(_, left, right, _, fn) =>
      ExprSteady(p, frames, slots, w, left, port);
      var l := EvalExpr(p, frames, slots, w, left);
      if l.out.Done? {
        ExprSteady(p, frames, slots, l.world, right, port);
        var r := EvalExpr(p, frames, slots, l.world, right);
        SteadyTransitive(w, l.world, r.world, port);
        if r.out.Done? {
          BinarySteady(p, r.world, fn, l.out.v, r.out.v, port);
          SteadyTransitive(w, r.world, EvalExpr(p, frames, slots, w, e).world, port);
        }
      }
    case RLogical(_, left, right) =>
      ExprSteady(p, frames, slots, w, left, port);
      var l := EvalExpr(p, frames, slots, w, left);
      ExprSteady(p, frames, slots, l.world, right, port);
      SteadyTransitive(w, l.world, EvalExpr(p, frames, slots, l.world, right).world, port);
    case RPrefix(_, right, _, fn) =>
      ExprSteady(p, frames, slots, w, right, port);
      var r := EvalExpr(p, frames, slots, w, right);
      if r.out.Done? {
        UnarySteady(p, r.world, fn, r.out.v, port);
        SteadyTransitive(w, r.world, EvalExpr(p, frames, slots, w, e).world, port);
      }
    case RCoerce(inner, _, _) => ExprSteady(p, frames, slots, w, inner, port);
    case RMember(receiver, _, _, fn) =>
      ExprSteady(p, frames, slots, w, receiver, port);
      var o := EvalExpr(p, frames, slots, w, receiver);
      if o.out.Done? {
        MemberSteady(p, o.world, fn, o.out.v, port);
        SteadyTransitive(w, o.world, EvalExpr(p, frames, slots, w, e).world, port);
      }
    case RCall(_, _, _, _, _) => CallExprSteady(p, frames, slots, w, e, port);
    case _ =>
  }

  lemma SteadySelf(w: World, port: string)
    ensures Steady(w, w, port)
  {
  }

  lemma {:induction false} CallExprSteady(p: Program, frames: Frames, slots: Cells, w: World, e: RExpr, port: string)
    requires HostSpares(p.host, port) && e.RCall?
    ensures Steady(w, EvalExpr(p, frames, slots, w, e).world, port)
    decreases e, 0, 0
  {
    hide Settle, HostSpares, Steady, ApplyCall;
    ExprSteady(p, frames, slots, w, e.receiver, port);
    var o := EvalExpr(p, frames, slots, w, e.receiver);
    if o.out.Done? {
      ArgsSteady(p, frames, slots, o.world, e.args, map[], port);
      var a := EvalArgs(p, frames, slots, o.world, e.args, map[]);
      SteadyTransitive(w, o.world, a.world, port);
      if a.out.Done? {
        CallSteady(p, a.world, e.callFn, o.out.v, a.out.v, port);
        SteadyTransitive(w, a.world, EvalExpr(p, frames, slots, w, e).world, port);
      }
    }
  }

  lemma {:induction false} ArgsSteady(
      p: Program, frames: Frames, slots: Cells, w: World, args: seq<RArg>, named: map<string, Value>, port: string)
    requires HostSpares(p.host, port)
    ensures Steady(w, EvalArgs(p, frames, slots, w, args, named).world, port)
    decreases args, 1
  {
    hide HostSpares, Steady;
    SteadySelf(w, port);
    if args != [] {
      var first := args[0];
      assert first.value < first;
      ExprSteady(p, frames, slots, w, first.value, port);
      var a := EvalExpr(p, frames, slots, w, first.value);
      if a.out.Done? {
        ArgsSteady(p, frames, slots, a.world, args[1..], named[first.name := a.out.v], port);
        SteadyTransitive(w, a.world, EvalArgs(p, frames, slots, w, args, named).world, port);
      }
    }
  }

  lemma EmitSteady(p: Program, st: Store, s: RStmt, port: string)
    requires HostSpares(p.host, port) && s.REmit?
    ensures Steady(st.world, EvalStmt(p, st, s).store.world, port)
  {
    hide EvalExpr, EvalArgs;
    var v := EmittedValue(p, st, s.args, s.t);
    assert Steady(st.world, v.world, port) by {
      hide HostSpares, Steady;
      SteadySelf(st.world, port);
      ArgsSteady(p, st.frames, st.slots, st.world, s.args, map[], port);
      if s.args != [] {
        ExprSteady(p, st.frames, st.slots, st.world, s.args[0].value, port);
      }
    }
    if v.out.Done? && s.output in v.world.outputs {
      var sink := v.world.outputs[s.output];
      var sent := v.world.(clock := v.world.clock + 1, trace := v.world.trace + [Emission(s.output, sink, v.out.v)]);
      assert AllSpare(p.host.emit(sink, v.world.clock, v.out.v).nested, port);
      NestedSteady(p, sent, p.host.emit(sink, v.world.clock, v.out.v).nested, port);
      assert Steady(v.world, sent, port);
      SteadyTransitive(v.world, sent, EvalStmt(p, st, s).store.world, port);
      SteadyTransitive(st.world, v.world, EvalStmt(p, st, s).store.world, port);
    }
  }

  lemma {:induction false} StmtSteady(p: Program, st: Store, s: RStmt, port: string)
    requires HostSpares(p.host, port)
    ensures Steady(st.world, EvalStmt(p, st, s).store.world, port)
    decreases s, 0
  {
    hide EvalExpr, HostSpares, Steady;
    SteadySelf(st.world, port);
    match s
    case RBadStmt =>
    case RBlock(stmts) => BlockSteady(p, Push(st), stmts, None, port);
    case RIf(_, _, _) => IfSteady(p, st, s, port);
    case REmit(_, _, _) => EmitSteady(p, st, s, port);
    case RExprStmt(e) => ExprSteady(p, st.frames, st.slots, st.world, e, port);
    case _ => ExprSteady(p, st.frames, st.slots, st.world, s.value, port);
  }

  lemma {:induction false} IfSteady(p: Program, st: Store, s: RStmt, port: string)
    requires HostSpares(p.host, port) && s.RIf?
    ensures Steady(st.world, EvalStmt(p, st, s).store.world, port)
    decreases s, 0, 0
  {
    hide EvalExpr, HostSpares, Steady;
    ExprSteady(p, st.frames, st.slots, st.world, s.cond, port);
    var c := Evaluate(p, st, s.cond);
    var st' := st.(world := c.world);
    if c.out.Done? && c.out.v.BoolV? {
      if c.out.v.b {
        BlockSteady(p, Push(st'), s.consequence, None, port);
        SteadyTransitive(st.world, c.world, EvalStmt(p, st, s).store.world, port);
      } else if s.alternative.Some? {
        StmtSteady(p, st', s.alternative.value, port);
        SteadyTransitive(st.world, c.world, EvalStmt(p, st, s).store.world, port);
      }
    }
  }

  lemma {:induction false} BlockSteady(p: Program, st: Store, stmts: seq<RStmt>, last: Option<Value>, port: string)
    requires HostSpares(p.host, port)
    ensures Steady(st.world, EvalBlock(p, st, stmts, last).store.world, port)
    decreases stmts, 1
  {
    hide EvalStmt, HostSpares, Steady;
    SteadySelf(st.world, port);
    if stmts != [] {
      StmtSteady(p, st, stmts[0], port);
      var r := EvalStmt(p, st, stmts[0]);
      if r.out.Done? {
        BlockSteady(p, r.store, stmts[1..], r.out.v, port);
        SteadyTransitive(st.world, r.store.world, EvalBlock(p, st, stmts, last).store.world, port);
      }
    }
  }

  lemma {:induction false} LoadSteady(p: Program, st: Store, ds: seq<RDecl>, port: string)
    requires HostSpares(p.host, port)
    ensures Steady(st.world, LoadDecls(p, st, ds).store.world, port)
    decreases |ds|
  {
    hide EvalExpr, HostSpares, Steady;
    SteadySelf(st.world, port);
    if ds != [] {
      var d := ds[0];
      if d.RConst? {
        ExprSteady(p, st.frames, st.slots, st.world, d.value, port);
      } else if d.RSlotDecl? && d.init.Some? {
        ExprSteady(p, st.frames, st.slots, st.world, d.init.value, port);
      }
      var r := LoadDecl(p, st, d);
      if r.out.Done? {
        LoadSteady(p, r.store, ds[1..], port);
        SteadyTransitive(st.world, r.store.world, LoadDecls(p, st, ds).store.world, port);
      }
    }
  }

  lemma InitSteady(p: Program, x: Exec, port: string)
    requires HostSpares(p.host, port)
    ensures Steady(x.world, Init(p, x).0.world, port)
  {
    hide LoadDecls, EvalBlock, HostSpares;
    var st := Store([x.top], x.slots, x.world);
    LoadSteady(p, st, p.code.decls, port);
    var r := LoadDecls(p, st, p.code.decls);
    if p.code.initFn.Some? {
      BlockSteady(p, Push(r.store), p.code.initFn.value, None, port);
      var b := EvalBlock(p, Push(r.store), p.code.initFn.value, None);
      SteadyTransitive(st.world, r.store.world, b.store.world, port);
    }
  }

  lemma RunSteady(p: Program, x: Exec, port: string)
    requires HostSpares(p.host, port)
    ensures Steady(x.world, Run(p, x).0.world, port)
  {
    hide EvalBlock, HostSpares;
    var f := InputFrame(p.code.decls, x.world.inputs, map[]);
    if f.Success? {
      BlockSteady(p, Store([f.value, x.top], x.slots, x.world), p.code.runFn, None, port);
    }
  }

  lemma CallIsSteady(p: Program, x: Exec, c: ApiCall, port: string)
    requires HostSpares(p.host, port) && Spares(c, port)
    ensures Steady(x.world, Call(p, x, c).0.world, port)
  {
    hide Init, Run, HostSpares;
    match c
    case CallInit => InitSteady(p, x, port);
    case CallRun => RunSteady(p, x, port);
    case CallSlotSet(kind, name, v) => var i := FindSlot(Slots(p.code.decls), kind, name);
    case _ =>
  }

  lemma {:induction false} ConverseSteady(p: Program, x: Exec, calls: seq<ApiCall>, port: string)
    requires HostSpares(p.host, port) && AllSpare(calls, port)
    ensures Steady(x.world, Converse(p, x, calls).0.world, port)
    decreases |calls|
  {
    hide Steady, HostSpares, Call;
    SteadySelf(x.world, port);
    if calls != [] {
      assert Spares(calls[0], port);
      CallIsSteady(p, x, calls[0], port);
      var next := Call(p, x, calls[0]).0;
      ConverseSteady(p, next, calls[1..], port);
      SteadyTransitive(x.world, next.world, Converse(p, x, calls).0.world, port);
    }
  }

  /**
   Once bound, and until somebody binds the output anew, every delivery through it goes to the sink it was bound to,
   in Init and in every Run.
   */
  lemma BoundOutputDelivers(p: Program, x: Exec, name: string, sink: Sink, calls: seq<ApiCall>)
    requires Call(p, x, CallBindOutput(name, sink)).1.Accepted? && AllSpare(calls, name) && HostSpares(p.host, name)
    ensures var y := Call(p, x, CallBindOutput(name, sink)).0;
      var trace := Converse(p, y, calls).0.world.trace;
      y.world.trace == x.world.trace <= trace
      && forall i | |x.world.trace| <= i < |trace| && trace[i].output == name :: trace[i].sink == sink
  {
    BindOutputStores(p, x, name, sink);
    ConverseSteady(p, Call(p, x, CallBindOutput(name, sink)).0, calls, name);
  }

  /**
   Once bound, and until somebody binds the input anew, every Run reads the value it was bound to, as its declared
   type holds it: after any number of the Run's statements.
   */
  lemma BoundInputIsRead(p: Program, start: Ctx, x: Exec, name: string, v: Value, calls: seq<ApiCall>, k: nat)
    requires ProgramOk(p, start) && ExecOk(p, start, x) && Canonical(p.reg, v) && ProperCalls(p.reg, calls)
    requires Call(p, x, CallBindInput(name, v)).1.Accepted? && AllSpare(calls, name) && HostSpares(p.host, name)
    requires var z := Converse(p, Call(p, x, CallBindInput(name, v)).0, calls).0;
      z.world.stage == Initialized && InputFrame(p.code.decls, z.world.inputs, map[]).Success? && k <= |p.code.runFn|
    ensures var z := Converse(p, Call(p, x, CallBindInput(name, v)).0, calls).0;
      var frame := InputFrame(p.code.decls, z.world.inputs, map[]).value;
      var r := EvalBlock(p, Store([frame, z.top], z.slots, z.world), p.code.runFn[..k], None);
      && InputType(p.code.decls, name).Some?
      && Lookup(r.store.frames, name).Some?
      && StoredAs(p, v, InputType(p.code.decls, name).value, Lookup(r.store.frames, name).value)
  {
    hide ProgramOk, ExecOk, EvalBlock, Converse, HostSpares;
    BindInputStores(p, x, name, v);
    CallSafely(p, start, x, CallBindInput(name, v));
    var y := Call(p, x, CallBindInput(name, v)).0;
    ConverseSafely(p, start, y, calls);
    ConverseSteady(p, y, calls, name);
    var z := Converse(p, y, calls).0;
    RunReadsInputs(p, start, z, InputFrame(p.code.decls, z.world.inputs, map[]).value, k, name);
  }
}
