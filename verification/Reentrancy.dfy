/**
 Calls made while an activation is in progress (executable.go:83-132, evaluator/evaluator.go:67-98): the effect
 the semantics gives a nested call is the effect of the public call itself with the guard up.
 */
module Reentrancy {
  import opened Wrappers
  import opened Tokens
  import opened Values
  import opened Registries
  import opened Rules
  import opened WellFormed
  import opened Scopes
  import opened Resolved
  import opened Semantics
  import opened Typing
  import opened Soundness
  import opened Lifecycle
  import opened Safety

  /** The public calls that start an activation or touch a slot. */
  predicate Guarded(c: ApiCall) {
    c.CallInit? || c.CallRun? || c.CallSlotGet? || c.CallSlotSet?
  }

  /**
   Under the guard a call changes the world as NestedCall says and nothing else: not the slots, not the top
   frame, not the guard. Those that would start an activation or touch a slot are refused.
   */
  lemma NestedIsCall(p: Program, x: Exec, c: ApiCall)
    requires x.inTick
    ensures Call(p, x, c).0 == x.(world := NestedCall(p, x.world, c))
    ensures Guarded(c) ==> Call(p, x, c).1.Rejected?
  {
    match c
    case CallSlotGet(kind, name) => var i := FindSlot(Slots(p.code.decls), kind, name);
    case CallSlotSet(kind, name, v) => var i := FindSlot(Slots(p.code.decls), kind, name);
    case _ =>
  }

  /** A whole nested conversation. */
  lemma {:induction false} NestedAreCalls(p: Program, x: Exec, cs: seq<ApiCall>)
    requires x.inTick
    ensures Converse(p, x, cs).0 == x.(world := NestedCalls(p, x.world, cs))
    ensures forall i | 0 <= i < |cs| && Guarded(cs[i]) ::
      |Converse(p, x, cs).1| == |cs| && Converse(p, x, cs).1[i].Rejected?
    decreases |cs|
  {
    if cs != [] {
      NestedIsCall(p, x, cs[0]);
      var next := Call(p, x, cs[0]).0;
      NestedAreCalls(p, next, cs[1..]);
      Answers(p, x, cs);
    }
  }

  lemma {:induction false} Answers(p: Program, x: Exec, cs: seq<ApiCall>)
    ensures |Converse(p, x, cs).1| == |cs|
    decreases |cs|
  {
    if cs != [] {
      Answers(p, Call(p, x, cs[0]).0, cs[1..]);
    }
  }

  /** Whatever a call comes to, success, trap, refusal or panic, the guard is afterwards as it was before. */
  lemma GuardRestored(p: Program, x: Exec, c: ApiCall)
    ensures Call(p, x, c).0.inTick == x.inTick
  {
    match c
    case CallSlotSet(kind, name, v) => var i := FindSlot(Slots(p.code.decls), kind, name);
    case _ =>
  }

  /** So between the calls of any conversation it is down. */
  lemma {:induction false} GuardDown(p: Program, x: Exec, calls: seq<ApiCall>)
    requires !x.inTick
    ensures !Converse(p, x, calls).0.inTick
    decreases |calls|
  {
    if calls != [] {
      GuardRestored(p, x, calls[0]);
      GuardDown(p, Call(p, x, calls[0]).0, calls[1..]);
    }
  }

  /** Between activations a stage other than Created is final. */
  lemma StageIsFinal(p: Program, start: Ctx, x: Exec, c: ApiCall)
    requires ProgramOk(p, start) && ExecOk(p, start, x) && x.world.stage != Created
    ensures Call(p, x, c).0.world.stage == x.world.stage
  {
    hide ProgramOk, ExecOk, EvalRun, EvalInit;
    match c
    case CallRun => RunSafe(p, start, x);
    case CallSlotSet(kind, name, v) => var i := FindSlot(Slots(p.code.decls), kind, name);
    case _ =>
  }

  /** Within one, exactly a nested Init of a program still being initialized moves it: the program is marked failed. */
  lemma NestedInitMarksFailed(p: Program, w: World, c: ApiCall)
    ensures NestedCall(p, w, c).stage != w.stage <==> w.stage == Created && c.CallInit?
    ensures NestedCall(p, w, c).stage != w.stage ==> NestedCall(p, w, c).stage == FailedStage
  {
    if c.CallBindInput? {
      var t := InputType(p.code.decls, c.name);
    }
  }

  /** The same of any number of nested calls. */
  lemma {:induction false} NestedCallsStage(p: Program, w: World, cs: seq<ApiCall>)
    ensures NestedCalls(p, w, cs).stage == if w.stage == Created && CallInit in cs then FailedStage else w.stage
    decreases |cs|
  {
    if cs != [] {
      NestedInitMarksFailed(p, w, cs[0]);
      NestedCallsStage(p, NestedCall(p, w, cs[0]), cs[1..]);
      assert cs == [cs[0]] + cs[1..];
    }
  }

  // ---------- A mark that does not last ----------

  function MeddlingReply(v: Value): Reply {
    Reply(Returned(v), [CallInit])
  }

  const IDLE := Reply(Failed(OutOfRange), [])

  /** A host whose one rule, a `!` on booleans, calls Init back before it answers with its operand. */
  const MEDDLING_HOST := Host(
    (_, _, _, _) => IDLE,
    (_, _, v) => MeddlingReply(v),
    (_, _, _) => IDLE,
    (_, _, _, _) => IDLE,
    (_, _) => None,
    (_, _, _) => IDLE,
    FloatOps(_ => F64(0), (_, _, _) => F64(0), _ => false, (_, _, _) => false, f => f))

  const MEDDLING_REGISTRY := Registry(
    map[], map[UnaryKey(BANG, BOOL_ID) := UnaryRule(HostUnary(0), BOOL_ID)], map[], map[],
    {}, map[BOOL_ID := TypeDef(ScalarShape, [])], map[], map[], false)

  /** `const c = !true`, under that rule. */
  const MEDDLED := Program(MEDDLING_REGISTRY, MEDDLING_HOST,
    RProgram([RConst("c", RPrefix(BANG, RBool(true), BOOL_ID, HostUnary(0)), BOOL_ID)], None, []))

  lemma MeddlingIsWellFormed()
    ensures WfRegistry(MEDDLING_REGISTRY)
  {
  }

  lemma MeddlingHonours()
    ensures HostHonours(MEDDLING_HOST, MEDDLING_REGISTRY)
  {
    hide Canonical, BinaryKeeps, MemberKeeps, CallKeeps, CoerceKeeps;
    var k := UnaryKey(BANG, BOOL_ID);
    assert UnaryKeeps(MEDDLING_HOST, MEDDLING_REGISTRY, k, MEDDLING_REGISTRY.unary[k]);
  }

  lemma MeddledIsTyped(start: Ctx)
    requires start == Opening(MEDDLING_REGISTRY, {})
    ensures WtProgram(start, MEDDLED.code)
  {
    var d := MEDDLED.code.decls[0];
    assert WtDecl(start, d) && Lookup(start.frames, DeclSymbol(start.reg, d)).None?;
    hide WtDecl, WtExpr, Lookup;
    assert MEDDLED.code.decls == [d] && [d][1..] == [];
    assert WtDecls(AfterDecl(start, d), []);
  }

  lemma MeddledIsOk()
    ensures ProgramOk(MEDDLED, Opening(MEDDLING_REGISTRY, {}))
  {
    hide WfRegistry, HostHonours, Trusted, WtProgram;
    MeddlingIsWellFormed();
    MeddlingHonours();
    WellFormedIsTrusted(MEDDLED);
    MeddledIsTyped(Opening(MEDDLING_REGISTRY, {}));
  }

  /** Init of a program that is one constant: it succeeds with the initializer, whatever that did to the stage. */
  lemma OneConstantInit(p: Program, x: Exec, d: RDecl)
    requires !x.inTick && x.world.stage == Created && d.RConst? && p.code.decls == [d] && p.code.initFn.None?
    requires Evaluate(p, Store([x.top], x.slots, x.world), d.value).out.Done?
    ensures InitBody(p, Store([x.top], x.slots, x.world)).store.world
      == Evaluate(p, Store([x.top], x.slots, x.world), d.value).world
    ensures Init(p, x).1 == Accepted && Init(p, x).0.world.stage == Initialized
  {
    hide EvalExpr;
    assert [d][1..] == [];
    var r := LoadDecl(p, Store([x.top], x.slots, x.world), d);
    assert LoadDecls(p, r.store, []).out.Done?;
    assert Slots([]) == [] && Slots([d]) == [];
    assert MissingOutput([], x.world.outputs).None? && MissingOutput([d], x.world.outputs).None?;
  }

  /**
   So between activations stages are final, but a mark set within one is not: in this well-typed program, under a host
   that keeps its types, a nested Init marks the program failed, and the outer Init, which succeeds, overwrites that.
   */
  lemma OuterInitOverwrites()
    ensures var x := Fresh(MEDDLED);
      && ProgramOk(MEDDLED, Opening(MEDDLING_REGISTRY, {})) && ExecOk(MEDDLED, Opening(MEDDLING_REGISTRY, {}), x)
      && InitBody(MEDDLED, Store([x.top], x.slots, x.world)).store.world.stage == FailedStage
      && Init(MEDDLED, x).1 == Accepted && Init(MEDDLED, x).0.world.stage == Initialized
  {
    MeddledIsOk();
    FreshOk(MEDDLED, Opening(MEDDLING_REGISTRY, {}));
    hide ProgramOk, ExecOk, Init, InitBody;
    var x := Fresh(MEDDLED);
    var st := Store([x.top], x.slots, x.world);
    var v := Evaluate(MEDDLED, st, MEDDLED.code.decls[0].value);
    assert v == Settle(MEDDLED, st.world, Applied(Done(BoolV(true)), [CallInit]));
    hide EvalExpr;
    NestedCallsStage(MEDDLED, st.world.(clock := st.world.clock + 1), [CallInit]);
    OneConstantInit(MEDDLED, x, MEDDLED.code.decls[0]);
  }
}
