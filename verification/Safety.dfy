/** Safety over whole lifecycles: every conversation between a host and a well-typed program. */
module Safety {
  import opened Wrappers
  import opened Tokens
  import opened Values
  import opened Registries
  import opened Rules
  import opened WellFormed
  import opened Scopes
  import opened Resolved
  import opened Typing
  import opened Semantics
  import opened Soundness
  import opened RunSafety
  import opened Lifecycle

  // ---------- The top-level scope ----------

  /** The names in scope before any declaration denote nothing readable, and its modules are the registry's. */
  ghost predicate PreludeOk(reg: Registry, prelude: map<string, Binding>) {
    && (forall x | x in prelude :: prelude[x].Reserved())
    && (forall x | x in prelude && prelude[x].kind == KModule :: x in reg.modules && prelude[x].t == x)
    && reg.modules <= prelude.Keys
    && (forall m | m in reg.modules :: m !in CORE_IDS && reg.FieldsOf(m) == [])
  }

  ghost predicate TopOnly(cx: Ctx) {
    |cx.frames| == 1 && forall x | x in cx.frames[0] :: cx.frames[0][x].kind != KLet
  }

  lemma {:induction false} AfterDeclsShape(cx: Ctx, ds: seq<RDecl>)
    requires TopOnly(cx)
    ensures var done := AfterDecls(cx, ds);
      && TopOnly(done) && done.slots == cx.slots + Slots(ds)
      && done.reg == cx.reg && done.phase == cx.phase && done.declared == cx.declared
    decreases |ds|
  {
    if ds != [] {
      AfterDeclsShape(AfterDecl(cx, ds[0]), ds[1..]);
    }
  }

  /** Later declarations never rebind a name. */
  lemma {:induction false} AfterDeclsKeeps(cx: Ctx, ds: seq<RDecl>, x: string)
    requires TopOnly(cx) && WtDecls(cx, ds) && x in cx.frames[0]
    ensures TopOnly(AfterDecls(cx, ds)) && x in AfterDecls(cx, ds).frames[0]
      && AfterDecls(cx, ds).frames[0][x] == cx.frames[0][x]
    decreases |ds|
  {
    AfterDeclsShape(cx, ds);
    if ds != [] {
      LookupNone(cx.frames, DeclSymbol(cx.reg, ds[0]), 0);
      AfterDeclsKeeps(AfterDecl(cx, ds[0]), ds[1..], x);
    }
  }

  /** An input or output symbol of the final scope was in scope already or is declared by ds at that type. */
  lemma {:induction false} PortsDeclared(cx: Ctx, ds: seq<RDecl>, x: string)
    requires TopOnly(cx) && WtDecls(cx, ds)
    ensures var top := AfterDecls(cx, ds).frames;
      && |top| == 1
      && (x in top[0] && top[0][x].kind == KInput ==>
            (x in cx.frames[0] && cx.frames[0][x] == top[0][x])
              || (x !in cx.frames[0] && InputType(ds, x) == Some(top[0][x].t)))
      && (x in top[0] && top[0][x].kind == KOutput ==>
            (x in cx.frames[0] && cx.frames[0][x] == top[0][x])
              || (x !in cx.frames[0] && OutputType(ds, x) == Some(top[0][x].t)))
    decreases |ds|
  {
    AfterDeclsShape(cx, ds);
    if ds != [] {
      var next := AfterDecl(cx, ds[0]);
      var sym := DeclSymbol(cx.reg, ds[0]);
      LookupNone(cx.frames, sym, 0);
      if x == sym {
        AfterDeclsKeeps(next, ds[1..], x);
      } else {
        PortsDeclared(next, ds[1..], x);
      }
    }
  }

  /** Conversely, every declared input is in the final scope under its name. */
  lemma {:induction false} InputsInScope(cx: Ctx, ds: seq<RDecl>, x: string)
    requires TopOnly(cx) && WtDecls(cx, ds) && InputType(ds, x).Some?
    ensures var top := AfterDecls(cx, ds).frames;
      |top| == 1 && x in top[0] && top[0][x] == PlainBinding(InputType(ds, x).value, KInput)
    decreases |ds|
  {
    var next := AfterDecl(cx, ds[0]);
    if ds[0].RInput? && ds[0].name == x {
      AfterDeclsKeeps(next, ds[1..], x);
    } else {
      InputsInScope(next, ds[1..], x);
    }
  }

  // ---------- The load phase ----------

  ghost predicate LoadReady(p: Program, cx: Ctx, st: Store) {
    Ready(p, cx, st.frames, st.slots, st.world) && TopOnly(cx) && Homed(cx, st.frames) && cx.phase == Loading
  }

  /** The load phase delivers nothing, fills cells at their types, and never empties one or unbinds a port. */
  ghost predicate Loaded(p: Program, st: Store, r: Ran) {
    && r.out != EnginePanic
    && |r.store.frames| == 1
    && |r.store.slots| == |st.slots|
      && (forall i | 0 <= i < |st.slots| && st.slots[i].Some? :: r.store.slots[i] == st.slots[i])
    && CellsTyped(p, r.store.slots)
    && WorldOk(p, r.store.world) && Advances(st.world, r.store.world) && r.store.world.trace == st.world.trace
  }

  /** Declaring a name at the top: a constant's value joins the frame, anything else only the static scope. */
  lemma DeclareValued(cx: Ctx, frames: Frames, sym: string, b: Binding, value: Option<Value>)
    requires TopOnly(cx) && cx.phase == Loading && |frames| == 1 && Valued(cx, frames) && Lookup(cx.frames, sym).None?
    requires b.kind == KConst <==> value.Some?
    requires value.Some? ==> HasType(cx.reg, value.value, b.t)
    requires b.kind in {KConst, KInput, KOutput, KSlot}
    ensures Valued(cx.(frames := SetHead(cx.frames, sym, b)), if value.Some? then SetHead(frames, sym, value.value)
      else frames)
  {
    var cx' := cx.(frames := SetHead(cx.frames, sym, b));
    var frames' := if value.Some? then SetHead(frames, sym, value.value) else frames;
    forall x ensures ReadsWell(cx', frames', x) {
      LookupSetHead(cx.frames, sym, b, x);
      if value.Some? {
        LookupSetHead(frames, sym, value.value, x);
      }
      assert ReadsWell(cx, frames, x);
    }
  }

  lemma DeclareHomed(cx: Ctx, frames: Frames, sym: string, b: Binding, value: Option<Value>)
    requires TopOnly(cx) && Homed(cx, frames)
    ensures Homed(cx.(frames := SetHead(cx.frames, sym, b)), if value.Some? then SetHead(frames, sym, value.value)
      else frames)
  {
    var cx' := cx.(frames := SetHead(cx.frames, sym, b));
    var frames' := if value.Some? then SetHead(frames, sym, value.value) else frames;
    forall i, x | 0 <= i < |frames'| && x in frames'[i] ensures HomeOf(cx', i, x) {
      assert x in frames[0] ==> HomeOf(cx, 0, x);
    }
  }

  /** Agreement depends on the frames and the phase alone. */
  lemma SameScope(cx: Ctx, cx': Ctx, frames: Frames)
    requires cx'.frames == cx.frames && cx'.phase == cx.phase && cx'.reg == cx.reg && Homed(cx, frames)
      && Valued(cx, frames)
    ensures Homed(cx', frames) && Valued(cx', frames)
  {
    forall i, x | 0 <= i < |frames| && x in frames[i] ensures HomeOf(cx', i, x) {
      assert HomeOf(cx, i, x);
    }
    forall x ensures ReadsWell(cx', frames, x) {
      assert ReadsWell(cx, frames, x);
    }
  }

  lemma LoadConstSafe(p: Program, cx: Ctx, st: Store, d: RDecl)
    requires LoadReady(p, cx, st) && d.RConst? && WtDecl(cx, d) && Lookup(cx.frames, d.name).None?
    ensures Loaded(p, st, LoadDecl(p, st, d))
    ensures LoadDecl(p, st, d).out.Done? ==> LoadReady(p, AfterDecl(cx, d), LoadDecl(p, st, d).store)
  {
    EvalExprSafe(p, cx, st.frames, st.slots, st.world, d.value);
    var v := Evaluate(p, st, d.value);
    if v.out.Done? {
      DeclareValued(cx, st.frames, d.name, DeclBinding(cx.reg, d), Some(v.out.v));
      DeclareHomed(cx, st.frames, d.name, DeclBinding(cx.reg, d), Some(v.out.v));
    }
  }

  lemma LoadSlotSafe(p: Program, cx: Ctx, st: Store, d: RDecl)
    requires LoadReady(p, cx, st) && d.RSlotDecl? && WtDecl(cx, d) && Lookup(cx.frames, DeclSymbol(cx.reg, d)).None?
    requires cx.slots + [d.slot] <= Slots(p.code.decls)
    ensures Loaded(p, st, LoadDecl(p, st, d))
    ensures LoadDecl(p, st, d).out.Done? ==> LoadReady(p, AfterDecl(cx, d), LoadDecl(p, st, d).store)
  {
    hide EvalExpr, Trusted, WorldOk;
    assert Slots(p.code.decls)[d.slot.index] == (cx.slots + [d.slot])[d.slot.index] == d.slot;
    if d.init.Some? {
      EvalExprSafe(p, cx, st.frames, st.slots, st.world, d.init.value);
    }
    DeclareValued(cx, st.frames, DeclSymbol(cx.reg, d), DeclBinding(cx.reg, d), None);
    DeclareHomed(cx, st.frames, DeclSymbol(cx.reg, d), DeclBinding(cx.reg, d), None);
    SameScope(cx.(frames := SetHead(cx.frames, DeclSymbol(cx.reg, d), DeclBinding(cx.reg, d))), AfterDecl(cx, d),
      st.frames);
  }

  lemma LoadPortSafe(p: Program, cx: Ctx, st: Store, d: RDecl)
    requires LoadReady(p, cx, st) && (d.RInput? || d.ROutput?) && Lookup(cx.frames, d.name).None?
    ensures Loaded(p, st, LoadDecl(p, st, d)) && LoadReady(p, AfterDecl(cx, d), LoadDecl(p, st, d).store)
  {
    DeclareValued(cx, st.frames, d.name, DeclBinding(cx.reg, d), None);
    DeclareHomed(cx, st.frames, d.name, DeclBinding(cx.reg, d), None);
  }

  lemma LoadDeclSafe(p: Program, cx: Ctx, st: Store, d: RDecl)
    requires LoadReady(p, cx, st) && WtDecl(cx, d) && Lookup(cx.frames, DeclSymbol(cx.reg, d)).None?
    requires d.RSlotDecl? ==> cx.slots + [d.slot] <= Slots(p.code.decls)
    ensures Loaded(p, st, LoadDecl(p, st, d))
    ensures LoadDecl(p, st, d).out.Done? ==> LoadReady(p, AfterDecl(cx, d), LoadDecl(p, st, d).store)
  {
    match d
    case RConst(_, _, _) => LoadConstSafe(p, cx, st, d);
    case RSlotDecl(_, _) => LoadSlotSafe(p, cx, st, d);
    case _ => LoadPortSafe(p, cx, st, d);
  }

  /** The load phase is safe, and ends with every constant bound when it finishes. */
  lemma {:induction false} LoadDeclsSafe(p: Program, cx: Ctx, st: Store, ds: seq<RDecl>)
    requires LoadReady(p, cx, st) && WtDecls(cx, ds) && cx.slots + Slots(ds) == Slots(p.code.decls)
    ensures Loaded(p, st, LoadDecls(p, st, ds))
    ensures LoadDecls(p, st, ds).out.Done? ==> LoadReady(p, AfterDecls(cx, ds), LoadDecls(p, st, ds).store)
    decreases |ds|
  {
    if ds != [] {
      var d := ds[0];
      assert d.RSlotDecl? ==> Slots(p.code.decls) == (cx.slots + [d.slot]) + Slots(ds[1..]);
      LoadDeclSafe(p, cx, st, d);
      var r := LoadDecl(p, st, d);
      if r.out.Done? {
        LoadDeclsSafe(p, AfterDecl(cx, d), r.store, ds[1..]);
      }
    }
  }

  // ---------- The life of a program ----------

  /** A program the type system accepts, in an environment that keeps its word. */
  ghost predicate ProgramOk(p: Program, start: Ctx) {
    && Trusted(p)
    && start.reg == p.reg && start.phase == Loading && start.slots == []
    && |start.frames| == 1 && PreludeOk(p.reg, start.frames[0])
    && WtProgram(start, p.code)
  }

  ghost function Scope(p: Program, start: Ctx): Ctx {
    AfterDecls(start, p.code.decls)
  }

  /** What holds whenever no activation is in progress. */
  ghost predicate ExecOk(p: Program, start: Ctx, x: Exec) {
    && !x.inTick && CellsTyped(p, x.slots) && WorldOk(p, x.world)
    && (x.world.stage == Created ==> x.top == Fresh(p).top)
    && (x.world.stage == Initialized ==>
          OutputsBound(p, x.world) && AllFilled(x.slots) && Homed(Scope(p, start), [x.top])
            && Valued(Scope(p, start), [x.top]))
  }

  lemma StartReady(p: Program, start: Ctx, x: Exec)
    requires ProgramOk(p, start) && CellsTyped(p, x.slots) && WorldOk(p, x.world) && x.top == Fresh(p).top
    ensures LoadReady(p, start, Store([x.top], x.slots, x.world))
  {
    forall i, y | 0 <= i < 1 && y in [x.top][i] ensures HomeOf(start, i, y) {}
    forall y ensures ReadsWell(start, [x.top], y) {}
  }

  /** The function scope of Init sees what the load phase established. */
  lemma InitPoised(p: Program, start: Ctx, st: Store)
    requires ProgramOk(p, start) && LoadReady(p, Scope(p, start), st)
    ensures Poised(p, Scope(p, start).(phase := InInit).Enter(), Push(st))
  {
    var cx := Scope(p, start);
    var inInit := cx.(phase := InInit);
    forall i, x | 0 <= i < |st.frames| && x in st.frames[i] ensures HomeOf(inInit, i, x) { assert HomeOf(cx, i, x); }
    forall x ensures ReadsWell(inInit, st.frames, x) { assert ReadsWell(cx, st.frames, x); }
    assert Layered(inInit);
    PushLayered(inInit);
    PushHomed(inInit, st.frames);
    PushValued(inInit, st.frames);
    ScopePorts(p, start);
    assert Top(inInit.Enter().frames) == Top(cx.frames);
  }

  lemma ScopePorts(p: Program, start: Ctx)
    requires ProgramOk(p, start)
    ensures TopOnly(Scope(p, start)) && PortsKnown(p, Scope(p, start))
    ensures forall x | x in Scope(p, start).frames[0] && Scope(p, start).frames[0][x].kind == KInput ::
      InputType(p.code.decls, x) == Some(Scope(p, start).frames[0][x].t)
  {
    AfterDeclsShape(start, p.code.decls);
    forall x | x in Scope(p, start).frames[0]
      ensures Scope(p, start).frames[0][x].kind == KInput ==>
        InputType(p.code.decls, x) == Some(Scope(p, start).frames[0][x].t)
      ensures Scope(p, start).frames[0][x].kind == KOutput ==>
        OutputType(p.code.decls, x) == Some(Scope(p, start).frames[0][x].t)
    {
      PortsDeclared(start, p.code.decls, x);
    }
  }

  lemma {:induction false} NoMissingOutput(decls: seq<RDecl>, outputs: map<string, Sink>)
    ensures MissingOutput(decls, outputs).None? <==> forall x | OutputType(decls, x).Some? :: x in outputs
  {
    if decls != [] {
      NoMissingOutput(decls[1..], outputs);
      if decls[0].ROutput? {
        assert OutputType(decls, decls[0].name).Some?;
      }
      forall x | OutputType(decls[1..], x).Some? ensures OutputType(decls, x).Some? {}
    }
  }

  lemma {:induction false} NoneEmpty(slots: seq<Slot>, cells: Cells)
    requires FirstEmpty(slots, cells).None?
    ensures forall i | 0 <= i < |slots| :: slots[i].index < |cells| && cells[slots[i].index].Some?
  {
    if slots != [] {
      NoneEmpty(slots[1..], cells);
      assert forall i | 0 < i < |slots| :: slots[i] == slots[1..][i - 1];
    }
  }

  /** Slots are numbered from zero in source order. */
  lemma {:induction false} SlotsNumbered(cx: Ctx, ds: seq<RDecl>)
    requires WtDecls(cx, ds)
    ensures forall i | 0 <= i < |Slots(ds)| :: Slots(ds)[i].index == |cx.slots| + i
    decreases |ds|
  {
    if ds != [] {
      SlotsNumbered(AfterDecl(cx, ds[0]), ds[1..]);
    }
  }

  ghost predicate AnswerOk(r: ApiResult) {
    r != Crashed(true)
  }

  lemma InitBodySafe(p: Program, start: Ctx, x: Exec)
    requires ProgramOk(p, start) && ExecOk(p, start, x) && x.world.stage == Created && OutputsBound(p, x.world)
    ensures var r := InitBody(p, Store([x.top], x.slots, x.world));
      && r.out != EnginePanic
      && |r.store.frames| == 1 && CellsTyped(p, r.store.slots) && WorldOk(p, r.store.world)
        && Advances(x.world, r.store.world)
      && (r.out.Done? ==> Homed(Scope(p, start), r.store.frames) && Valued(Scope(p, start), r.store.frames))
  {
    hide LoadDecls, EvalBlock, WtDecls, WtBlock, Trusted, RulesKeep, Valued, Homed, CellsTyped, WorldOk;
    var st := Store([x.top], x.slots, x.world);
    StartReady(p, start, x);
    AfterDeclsShape(start, p.code.decls);
    assert start.slots + Slots(p.code.decls) == Slots(p.code.decls);
    LoadDeclsSafe(p, start, st, p.code.decls);
    var r := LoadDecls(p, st, p.code.decls);
    if r.out.Done? && p.code.initFn.Some? {
      var cx := Scope(p, start).(phase := InInit);
      InitPoised(p, start, r.store);
      var inner := EvalBlockSafe(p, cx.Enter(), Push(r.store), p.code.initFn.value, None);
      var b := EvalBlock(p, Push(r.store), p.code.initFn.value, None);
      assert Top(Pop(b).store.frames) == Top(b.store.frames) == Top(Push(r.store).frames) == Top(r.store.frames);
      assert Pop(b).store.frames == r.store.frames;
    }
  }

  lemma InitSafe(p: Program, start: Ctx, x: Exec)
    requires ProgramOk(p, start) && ExecOk(p, start, x)
    ensures ExecOk(p, start, Init(p, x).0) && AnswerOk(Init(p, x).1)
    ensures x.world.trace <= Init(p, x).0.world.trace
  {
    NoMissingOutput(p.code.decls, x.world.outputs);
    if x.world.stage == Created && MissingOutput(p.code.decls, x.world.outputs).None? {
      InitBodySafe(p, start, x);
      var r := InitBody(p, Store([x.top], x.slots, x.world));
      if FirstEmpty(Slots(p.code.decls), r.store.slots).None? {
        NoneEmpty(Slots(p.code.decls), r.store.slots);
        SlotsNumbered(start, p.code.decls);
        forall i | 0 <= i < |r.store.slots| ensures r.store.slots[i].Some? {
          assert Slots(p.code.decls)[i].index == i;
        }
      }
      assert [Top(r.store.frames)] == r.store.frames;
    }
  }

  lemma {:induction false} InputFrameIs(decls: seq<RDecl>, inputs: map<string, Value>, frame: map<string, Value>)
    requires InputFrame(decls, inputs, frame).Success?
    ensures var f := InputFrame(decls, inputs, frame).value;
      forall y :: if InputType(decls, y).Some? then y in inputs && y in f && f[y] == inputs[y]
                  else y in f <==> y in frame
    ensures var f := InputFrame(decls, inputs, frame).value;
      forall y | y in frame :: y in f && (f[y] == frame[y] || (y in inputs && f[y] == inputs[y]))
    decreases |decls|
  {
    if decls != [] {
      if decls[0].RInput? {
        var name := decls[0].name;
        InputFrameIs(decls[1..], inputs, frame[name := inputs[name]]);
      } else {
        InputFrameIs(decls[1..], inputs, frame);
      }
    }
  }

  /** A tick starts with the inputs in the function's frame, each at its declared type. */
  lemma RunPoised(p: Program, start: Ctx, x: Exec, frame: map<string, Value>)
    requires ProgramOk(p, start) && ExecOk(p, start, x) && x.world.stage == Initialized
    requires InputFrame(p.code.decls, x.world.inputs, map[]) == Success(frame)
    ensures Poised(p, Scope(p, start).(phase := InRun).Enter(), Store([frame, x.top], x.slots, x.world))
  {
    hide Trusted, CellsTyped, WtBlock, WtDecls, AllFilled, OutputsBound;
    var cx := Scope(p, start);
    var inRun := cx.(phase := InRun).Enter();
    var frames := [frame, x.top];
    AfterDeclsShape(start, p.code.decls);
    ScopePorts(p, start);
    InputFrameIs(p.code.decls, x.world.inputs, map[]);
    assert inRun.frames == [map[], cx.frames[0]];
    PushLayered(cx.(phase := InRun));
    forall i, y | 0 <= i < 2 && y in frames[i] ensures HomeOf(inRun, i, y) {
      if i == 0 {
        InputsInScope(start, p.code.decls, y);
      } else {
        assert HomeOf(cx, 0, y) by { assert y in [x.top][0]; }
      }
    }
    forall y ensures ReadsWell(inRun, frames, y) {
      RunReads(p, start, x, frame, y);
    }
  }

  lemma RunReads(p: Program, start: Ctx, x: Exec, frame: map<string, Value>, y: string)
    requires ProgramOk(p, start) && ExecOk(p, start, x) && x.world.stage == Initialized
    requires InputFrame(p.code.decls, x.world.inputs, map[]) == Success(frame)
    ensures ReadsWell(Scope(p, start).(phase := InRun).Enter(), [frame, x.top], y)
  {
    var cx := Scope(p, start);
    AfterDeclsShape(start, p.code.decls);
    ScopePorts(p, start);
    InputFrameIs(p.code.decls, x.world.inputs, map[]);
    LookupPush(cx.frames, y);
    assert [frame, x.top][1..] == [x.top];
    assert ReadsWell(cx, [x.top], y);
    if InputType(p.code.decls, y).Some? {
      InputsInScope(start, p.code.decls, y);
    }
  }

  /** A tick, finished or trapped, leaves the constants, the bindings and every filled slot in place. */
  lemma RunSafe(p: Program, start: Ctx, x: Exec)
    requires ProgramOk(p, start) && ExecOk(p, start, x)
    ensures ExecOk(p, start, Run(p, x).0) && AnswerOk(Run(p, x).1) && Run(p, x).1 != Trapped(EmptySlot)
    ensures x.world.trace <= Run(p, x).0.world.trace
    ensures Run(p, x).0.top == x.top
    ensures var w := Run(p, x).0.world;
      w.inputs == x.world.inputs && w.outputs == x.world.outputs && w.stage == x.world.stage
  {
    var f := InputFrame(p.code.decls, x.world.inputs, map[]);
    if x.world.stage == Initialized && f.Success? {
      var cx := Scope(p, start).(phase := InRun).Enter();
      var st := Store([f.value, x.top], x.slots, x.world);
      RunPoised(p, start, x, f.value);
      var inner := EvalBlockSafe(p, cx, st, p.code.runFn, None);
    }
  }

  /** Every call, in every reachable state, keeps the invariant and is answered without an engine panic. */
  lemma CallSafely(p: Program, start: Ctx, x: Exec, c: ApiCall)
    requires ProgramOk(p, start) && ExecOk(p, start, x) && ProperCall(p.reg, c)
    ensures ExecOk(p, start, Call(p, x, c).0) && AnswerOk(Call(p, x, c).1)
    ensures x.world.trace <= Call(p, x, c).0.world.trace
  {
    hide Init, Run, Trusted, Homed, Valued, WtProgram, PreludeOk;
    match c
    case CallInit => InitSafe(p, start, x);
    case CallRun => RunSafe(p, start, x);
    case CallBindInput(name, v) =>
      if InputType(p.code.decls, name).Some? { FitToTyped(p, v, InputType(p.code.decls, name).value); }
    case CallBindOutput(_, _) =>
    case CallSlotGet(kind, name) => FindSlotIs(Slots(p.code.decls), kind, name);
    case CallSlotSet(kind, name, v) =>
      FindSlotIs(Slots(p.code.decls), kind, name);
      var i := FindSlot(Slots(p.code.decls), kind, name);
      if i.Some? { FitToTyped(p, v, Slots(p.code.decls)[i.value].t); }
  }

  lemma {:induction false} FindSlotIs(slots: seq<Slot>, kind: string, name: string)
    ensures match FindSlot(slots, kind, name)
      case Some(i) => i < |slots| && slots[i].kind == kind && slots[i].name == name
      case None => forall s | s in slots :: !(s.kind == kind && s.name == name)
  {
    if slots != [] {
      FindSlotIs(slots[1..], kind, name);
    }
  }

  /**
   The main theorem. Whatever sequence of calls the host makes, with whatever callbacks in between: no panic
   site of the engine is reached, and everything delivered has the type its sink accepts.
   */
  lemma {:induction false} ConverseSafely(p: Program, start: Ctx, x: Exec, calls: seq<ApiCall>)
    requires ProgramOk(p, start) && ExecOk(p, start, x) && ProperCalls(p.reg, calls)
    ensures var (x', answers) := Converse(p, x, calls);
      && ExecOk(p, start, x')
      && (forall a | a in answers :: AnswerOk(a))
      && x.world.trace <= x'.world.trace
      && (forall m | m in x'.world.trace ::
        HasType(p.reg, m.value, m.sink.t) && OutputType(p.code.decls, m.output) == Some(m.sink.t))
    decreases |calls|
  {
    if calls != [] {
      CallSafely(p, start, x, calls[0]);
      ConverseSafely(p, start, Call(p, x, calls[0]).0, calls[1..]);
    }
  }

  lemma FreshOk(p: Program, start: Ctx)
    ensures ExecOk(p, start, Fresh(p))
  {
  }
}
