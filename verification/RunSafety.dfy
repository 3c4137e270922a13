/** Type soundness of statements: what every step of a function body keeps. */
module RunSafety {
  import opened Wrappers
  import opened Tokens
  import opened Values
  import opened Registries
  import opened Rules
  import opened WellFormed
  import opened Scopes
  import opened Resolved
  import opened Typing
  import opened Semantics
  import opened Soundness

  /** The outputs in scope are the declared ones. */
  ghost predicate PortsKnown(p: Program, cx: Ctx)
    requires cx.frames != []
  {
    forall x | x in Top(cx.frames) && Top(cx.frames)[x].kind == KOutput ::
      OutputType(p.code.decls, x) == Some(Top(cx.frames)[x].t)
  }

  ghost predicate OutputsBound(p: Program, w: World) {
    forall x | OutputType(p.code.decls, x).Some? :: x in w.outputs
  }

  /** A state in which a statement typed in cx may run. */
  ghost predicate Poised(p: Program, cx: Ctx, st: Store) {
    && Ready(p, cx, st.frames, st.slots, st.world)
    && |cx.frames| > 1 && Layered(cx) && Homed(cx, st.frames) && PortsKnown(p, cx)
    && (cx.phase == InRun ==> OutputsBound(p, st.world))
  }

  /** What no statement ever undoes, finished or not: the top frame, filled slots, typed cells and ports, deliveries. */
  ghost predicate Kept(p: Program, st: Store, st': Store) {
    && |st'.frames| == |st.frames| > 0 && Top(st'.frames) == Top(st.frames)
    && |st'.slots| == |st.slots| && (forall i | 0 <= i < |st.slots| && st.slots[i].Some? :: st'.slots[i].Some?)
    && CellsTyped(p, st'.slots)
    && WorldOk(p, st'.world) && Advances(st.world, st'.world)
  }

  lemma KeptTransitive(p: Program, a: Store, b: Store, c: Store)
    requires Kept(p, a, b) && Kept(p, b, c)
    ensures Kept(p, a, c)
  {
  }

  ghost predicate Sound(p: Program, st: Store, r: Ran) {
    && r.out != EnginePanic
    && (AllFilled(st.slots) ==> r.out != Trap(EmptySlot))
    && Kept(p, st, r.store)
  }

  /** The lookups of a let and of an output name land where Layered says they are declared. */
  lemma LetIsInner(cx: Ctx, frames: Frames, name: string)
    requires Layered(cx) && Homed(cx, frames) && Lookup(cx.frames, name).Some?
      && Lookup(cx.frames, name).value.kind == KLet
    ensures name !in Top(frames)
  {
    var i := LookupIndex(cx.frames, name);
    assert name !in Top(cx.frames);
  }

  lemma OutputIsTop(cx: Ctx, name: string)
    requires Layered(cx) && Lookup(cx.frames, name).Some? && Lookup(cx.frames, name).value.kind == KOutput
    ensures name in Top(cx.frames) && Top(cx.frames)[name] == Lookup(cx.frames, name).value
  {
    var i := LookupIndex(cx.frames, name);
  }

  lemma LetPoised(p: Program, cx: Ctx, st: Store, name: string, v: Value, t: TypeID)
    requires Poised(p, cx, st) && Lookup(cx.frames, name).None? && HasType(p.reg, v, t)
    ensures Poised(p, cx.(frames := SetHead(cx.frames, name, LetBinding(t))),
      st.(frames := SetHead(st.frames, name, v)))
    ensures Top(SetHead(st.frames, name, v)) == Top(st.frames)
  {
    LetLayered(cx, name, t);
    LetHomed(cx, st.frames, name, v, t);
    LetValued(cx, st.frames, name, v, t);
    assert Top(SetHead(cx.frames, name, LetBinding(t))) == Top(cx.frames);
  }

  lemma LetSafe(p: Program, cx: Ctx, st: Store, s: RStmt)
    requires Poised(p, cx, st) && s.RLet? && WtStmt(cx, s)
    ensures Sound(p, st, EvalStmt(p, st, s))
    ensures EvalStmt(p, st, s).out.Done? ==> Poised(p, After(cx, s), EvalStmt(p, st, s).store)
  {
    EvalExprSafe(p, cx, st.frames, st.slots, st.world, s.value);
    var v := Evaluate(p, st, s.value);
    if v.out.Done? {
      LetPoised(p, cx, st.(world := v.world), s.name, v.out.v, s.t);
    }
  }

  lemma AssignNameSafe(p: Program, cx: Ctx, st: Store, s: RStmt)
    requires Poised(p, cx, st) && s.RAssignName? && WtStmt(cx, s)
    ensures Sound(p, st, EvalStmt(p, st, s))
    ensures EvalStmt(p, st, s).out.Done? ==> Poised(p, cx, EvalStmt(p, st, s).store)
    ensures AssignedWhereDeclared(cx, s.target, st.frames, EvalStmt(p, st, s).store.frames)
    ensures EvalStmt(p, st, s).out.Done? ==>
      Lookup(EvalStmt(p, st, s).store.frames, s.target) == EvalStmt(p, st, s).out.v
  {
    hide EvalExpr, Trusted;
    EvalExprSafe(p, cx, st.frames, st.slots, st.world, s.value);
    var v := Evaluate(p, st, s.value);
    assert ReadsWell(cx, st.frames, s.target);
    if v.out.Done? {
      LetIsInner(cx, st.frames, s.target);
      AssignHomed(cx, st.frames, s.target, v.out.v);
      AssignValued(cx, st.frames, s.target, v.out.v);
      AssignInFrame(st.frames, s.target, v.out.v, |st.frames| - 1);
      AssignDeclared(cx, st.frames, s.target, v.out.v);
      LookupAssignIn(st.frames, s.target, v.out.v, s.target);
    }
  }

  /** Only the frame whose scope declares the name may differ, and in it the name's entry alone. */
  ghost predicate AssignedWhereDeclared(cx: Ctx, name: string, before: Frames, after: Frames) {
    && |before| == |after| == |cx.frames|
    && (forall i | 0 <= i < |before| && name !in cx.frames[i] :: after[i] == before[i])
    && (forall i | 0 <= i < |before| :: after[i] - {name} == before[i] - {name} && after[i].Keys == before[i].Keys)
  }

  /** The innermost frame that binds a let is the one whose scope declares it. */
  lemma AssignDeclared(cx: Ctx, frames: Frames, name: string, v: Value)
    requires Layered(cx) && Homed(cx, frames) && Lookup(cx.frames, name).Some?
      && Lookup(cx.frames, name).value.kind == KLet
    ensures AssignedWhereDeclared(cx, name, frames, AssignIn(frames, name, v))
  {
    var after := AssignIn(frames, name, v);
    LetIsInner(cx, frames, name);
    var at := LookupIndex(cx.frames, name);
    forall i | 0 <= i < |frames|
      ensures name !in cx.frames[i] ==> after[i] == frames[i]
      ensures after[i] - {name} == frames[i] - {name} && after[i].Keys == frames[i].Keys
    {
      AssignInFrame(frames, name, v, i);
      if name in frames[i] {
        assert HomeOf(cx, i, name);
        assert name !in Top(cx.frames);
      }
    }
  }

  lemma AssignSlotSafe(p: Program, cx: Ctx, st: Store, s: RStmt)
    requires Poised(p, cx, st) && s.RAssignSlot? && WtStmt(cx, s)
    ensures Sound(p, st, EvalStmt(p, st, s))
    ensures EvalStmt(p, st, s).out.Done? ==> Poised(p, cx, EvalStmt(p, st, s).store)
  {
    EvalExprSafe(p, cx, st.frames, st.slots, st.world, s.value);
    assert Slots(p.code.decls)[s.slot.index] == s.slot;
  }

  // ---------- Emission ----------

  /** What an emit statement builds has the output's type: the argument itself, or a record with every field. */
  lemma EmittedValueTyped(p: Program, cx: Ctx, st: Store, args: seq<RArg>, t: TypeID)
    requires Ready(p, cx, st.frames, st.slots, st.world) && WtArgs(cx, p.reg.EmitRule(t).params, args)
    ensures Safe(p, st.slots, st.world, EmittedValue(p, st, args, t)) && Yields(p, EmittedValue(p, st, args, t), t)
  {
    var params := p.reg.EmitRule(t).params;
    var fields := p.reg.FieldsOf(t);
    if fields == [] {
      EvalExprSafe(p, cx, st.frames, st.slots, st.world, args[0].value);
    } else {
      assert DistinctFields(p.reg.types[t].fields);
      assert DistinctParams(params);
      assert params[0..] == params;
      EvalArgsSafe(p, cx, st.frames, st.slots, st.world, params, args, map[], 0);
      var a := EvalArgs(p, st.frames, st.slots, st.world, args, map[]);
      if a.out.Done? {
        forall f | f in fields
          ensures f.name in a.out.v && HasType(p.reg, a.out.v[f.name], f.typ)
        {
          var i :| 0 <= i < |fields| && fields[i] == f;
          assert params[i] in params;
        }
        StructuralNotCore(p, t);
      }
    }
  }

  lemma StructuralNotCore(p: Program, t: TypeID)
    requires Trusted(p) && p.reg.FieldsOf(t) != []
    ensures t !in CORE_IDS
  {
  }

  lemma EmitSafe(p: Program, cx: Ctx, st: Store, s: RStmt)
    requires Poised(p, cx, st) && s.REmit? && WtStmt(cx, s)
    ensures Sound(p, st, EvalStmt(p, st, s))
    ensures EvalStmt(p, st, s).out.Done? ==> Poised(p, cx, EvalStmt(p, st, s).store)
  {
    hide EvalExpr, Valued, Layered;
    EmittedValueTyped(p, cx, st, s.args, s.t);
    OutputIsTop(cx, s.output);
    var v := EmittedValue(p, st, s.args, s.t);
    if v.out.Done? {
      DeliverSafe(p, v.world, s.output, v.out.v);
    }
  }

  lemma DeliverSafe(p: Program, w: World, output: string, v: Value)
    requires Trusted(p) && WorldOk(p, w) && output in w.outputs && OutputType(p.code.decls, output).Some?
    requires HasType(p.reg, v, OutputType(p.code.decls, output).value)
    ensures var d := Deliver(p, w, output, v);
      && (d.out.Done? || d.out.HostPanic?)
      && WorldOk(p, d.world) && Advances(w, d.world)
      && d.world.trace == w.trace + [Emission(output, w.outputs[output], v)]
  {
    var sink := w.outputs[output];
    var sent := w.(clock := w.clock + 1, trace := w.trace + [Emission(output, sink, v)]);
    NestedCallsOk(p, sent, p.host.emit(sink, w.clock, v).nested);
  }

  // ---------- Blocks ----------

  lemma PushPoised(p: Program, cx: Ctx, st: Store)
    requires Poised(p, cx, st)
    ensures Poised(p, cx.Enter(), Push(st)) && Top(Push(st).frames) == Top(st.frames)
  {
    PushLayered(cx);
    PushHomed(cx, st.frames);
    PushValued(cx, st.frames);
    assert Top(cx.Enter().frames) == Top(cx.frames);
  }

  /** A block's own frame is dropped; everything below it is as the block left it. */
  lemma PopSound(p: Program, cx: Ctx, st: Store, inner: Ctx, r: Ran)
    requires Poised(p, cx, st) && Sound(p, Push(st), r)
    requires r.out.Done? ==>
      Poised(p, inner, r.store) && inner == cx.(frames := inner.frames) && inner.frames[1..] == cx.frames
    ensures Sound(p, st, Pop(r)) && (r.out.Done? ==> Poised(p, cx, Pop(r).store))
  {
    assert Top(Push(st).frames) == Top(st.frames);
    assert Top(Pop(r).store.frames) == Top(r.store.frames);
    if r.out.Done? {
      PopHomed(cx, inner, r.store.frames);
      PopValued(cx, inner, r.store.frames);
    }
  }

  lemma {:induction false} EvalStmtSafe(p: Program, cx: Ctx, st: Store, s: RStmt)
    requires Poised(p, cx, st) && WtStmt(cx, s)
    ensures Sound(p, st, EvalStmt(p, st, s))
    ensures EvalStmt(p, st, s).out.Done? ==> Poised(p, After(cx, s), EvalStmt(p, st, s).store)
    decreases s, 1
  {
    match s
    case RLet(_, _, _) => LetSafe(p, cx, st, s);
    case RAssignName(_, _, _) => AssignNameSafe(p, cx, st, s);
    case RAssignSlot(_, _, _) => AssignSlotSafe(p, cx, st, s);
    case REmit(_, _, _) => EmitSafe(p, cx, st, s);
    case RExprStmt(e) => EvalExprSafe(p, cx, st.frames, st.slots, st.world, e);
    case RBlock(stmts) => InnerBlockSafe(p, cx, st, stmts);
    case RIf(_, _, _) => IfSafe(p, cx, st, s);
  }

  lemma {:induction false} IfSafe(p: Program, cx: Ctx, st: Store, s: RStmt)
    requires Poised(p, cx, st) && s.RIf? && WtStmt(cx, s)
    ensures Sound(p, st, EvalStmt(p, st, s))
    ensures EvalStmt(p, st, s).out.Done? ==> Poised(p, cx, EvalStmt(p, st, s).store)
    decreases s, 0
  {
    hide EvalExpr, Valued;
    EvalExprSafe(p, cx, st.frames, st.slots, st.world, s.cond);
    var c := Evaluate(p, st, s.cond);
    if c.out.Done? {
      CoreValues(p.reg, c.out.v);
      var st' := st.(world := c.world);
      if c.out.v.b {
        InnerBlockSafe(p, cx, st', s.consequence);
      } else if s.alternative.Some? {
        EvalStmtSafe(p, cx, st', s.alternative.value);
      }
    }
  }

  lemma {:induction false} InnerBlockSafe(p: Program, cx: Ctx, st: Store, stmts: seq<RStmt>)
    requires Poised(p, cx, st) && WtBlock(cx.Enter(), stmts)
    ensures var r := Pop(EvalBlock(p, Push(st), stmts, None));
      Sound(p, st, r) && (r.out.Done? ==> Poised(p, cx, r.store))
    decreases stmts, 3
  {
    PushPoised(p, cx, st);
    var inner := EvalBlockSafe(p, cx.Enter(), Push(st), stmts, None);
    PopSound(p, cx, st, inner, EvalBlock(p, Push(st), stmts, None));
  }

  /** Statements in sequence; inner is the context the block ends in, which differs in its own frame only. */
  lemma {:induction false} EvalBlockSafe(p: Program, cx: Ctx, st: Store, stmts: seq<RStmt>, last: Option<Value>)
    returns (inner: Ctx)
    requires Poised(p, cx, st) && WtBlock(cx, stmts)
    ensures Sound(p, st, EvalBlock(p, st, stmts, last))
    ensures inner == cx.(frames := inner.frames) && |inner.frames| == |cx.frames| && inner.frames[1..] == cx.frames[1..]
    ensures EvalBlock(p, st, stmts, last).out.Done? ==> Poised(p, inner, EvalBlock(p, st, stmts, last).store)
    decreases stmts, 2
  {
    inner := cx;
    if stmts != [] {
      EvalStmtSafe(p, cx, st, stmts[0]);
      var r := EvalStmt(p, st, stmts[0]);
      if r.out.Done? {
        var next := After(cx, stmts[0]);
        assert next.frames[1..] == cx.frames[1..];
        inner := EvalBlockSafe(p, next, r.store, stmts[1..], r.out.v);
        KeptTransitive(p, st, r.store, EvalBlock(p, r.store, stmts[1..], r.out.v).store);
      }
    }
  }
}
