/**
 The engine as the source has it: one object whose fields change as a script runs, scope frames linked by
 parent pointers, an array of slot cells, and a host that may call back in at any rule or sink
 (executable.go, evaluator/evaluator.go). Each method is proved to do what the pure semantics says.

 An Executable owns its evaluator alone, so the two are one class here. The source's filtered lists of input
 and output declarations are read off the program's declarations.
 */
module Executables {
  import opened Wrappers
  import opened Tokens
  import opened Values
  import opened Registries
  import opened Rules
  import opened Scopes
  import opened Resolved
  import S = Semantics
  import L = Lifecycle

  class Executable {
    const prog: S.Program
    const env: Env<Value>
    const slots: array<Option<Value>>
    const slotDecls: seq<Slot>
    var stage: S.Stage
    var inTick: bool
    var inputs: map<string, Value>
    var outputs: map<string, Sink>
    // The host's side: how often it was called, and what its sinks received.
    var clock: nat
    var trace: seq<S.Emission>

    ghost predicate Valid()
    {
      env.Valid() && env.chain == [env] && slotDecls == Slots(prog.code.decls) && slots.Length == |slotDecls|
    }

    ghost function World(): S.World
      reads this
    {
      S.World(stage, inputs, outputs, clock, trace)
    }

    ghost function State(): L.Exec
      reads this, env, slots
    {
      L.Exec(inTick, env.values, slots[..], World())
    }

    /** The store a statement running in the given frame sees. */
    ghost function StoreAt(frame: Env<Value>): S.Store
      reads this, slots, frame.chain
    {
      S.Store(frame.Frames(), slots[..], World())
    }

    /** A frame of this engine's own chain. */
    ghost predicate Rooted(frame: Env<Value>) {
      frame.Valid() && Top0(frame.chain) == env
    }

    static ghost function Top0(chain: seq<Env<Value>>): Env?<Value> {
      if chain == [] then null else chain[|chain| - 1]
    }

    /** Compiles to a fresh object: modules in scope, every cell empty, nothing bound. */
    constructor (prog: S.Program)
      ensures Valid() && this.prog == prog && State() == L.Fresh(prog)
    {
      this.prog := prog;
      this.env := new Env<Value>.TopLevel(map m | m in prog.reg.modules :: ModuleV(m));
      this.slotDecls := Slots(prog.code.decls);
      this.slots := new Option<Value>[|Slots(prog.code.decls)|](_ => None);
      this.stage, this.inTick := S.Created, false;
      this.inputs, this.outputs := map[], map[];
      this.clock, this.trace := 0, [];
      new;
      assert slots[..] == seq(|Slots(prog.code.decls)|, _ => None);
    }

    // ---------- Host calls ----------

    /** Carries out the calls a host function makes before it returns. */
    method CallBacks(calls: seq<ApiCall>)
      requires Valid() && inTick
      modifies this
      ensures inTick && World() == S.NestedCalls(prog, old(World()), calls)
      decreases 0, 5
    {
      var i := 0;
      while i < |calls|
        invariant 0 <= i <= |calls| && inTick
        invariant S.NestedCalls(prog, old(World()), calls) == S.NestedCalls(prog, World(), calls[i..])
      {
        var _ := Dispatch(calls[i]);
        i := i + 1;
      }
    }

    /** One call of the public API, from the host's turn or from inside an activation. */
    method Dispatch(c: ApiCall) returns (r: L.ApiResult)
      requires Valid()
      modifies this, if inTick then {} else {slots, env}
      ensures (State(), r) == L.Call(prog, old(State()), c)
      ensures old(inTick) ==> inTick && World() == S.NestedCall(prog, old(World()), c)
      decreases if inTick then 0 else 1, 4
    {
      match c
      case CallInit => r := Init();
      case CallRun => r := Run();
      case CallBindInput(name, v) => r := BindInput(name, v);
      case CallBindOutput(name, sink) => r := BindOutput(name, sink);
      case CallSlotGet(kind, name) =>
        var i := FindSlot(kind, name);
        r := match i case Some(k) => SlotGet(k) case None => L.Rejected(L.NoSuchSlot);
      case CallSlotSet(kind, name, v) =>
        var i := FindSlot(kind, name);
        if i.None? { return L.Rejected(L.NoSuchSlot); }
        r := SlotSet(i.value, v);
    }

    method FindSlot(kind: string, name: string) returns (r: Option<nat>)
      requires Valid()
      ensures r == L.FindSlot(slotDecls, kind, name)
      ensures r.Some? ==> r.value < |slotDecls|
    {
      hide Slots;
      var i := 0;
      while i < |slotDecls|
        invariant 0 <= i <= |slotDecls|
        invariant L.FindSlot(slotDecls, kind, name)
               == match L.FindSlot(slotDecls[i..], kind, name) case Some(k) => Some(k + i) case None => None
      {
        if slotDecls[i].kind == kind && slotDecls[i].name == name {
          return Some(i);
        }
        i := i + 1;
      }
      return None;
    }

    function SlotGet(i: nat): (r: L.ApiResult)
      requires Valid() && i < slots.Length
      reads this, slots, env
      ensures r == L.SlotGet(prog, State(), i)
    {
      if inTick then L.Rejected(L.MidActivation)
      else if slots[i].None? then L.Rejected(L.SlotIsEmpty)
      else L.Got(slots[i].value)
    }

    method SlotSet(i: nat, v: Value) returns (r: L.ApiResult)
      requires Valid() && i < slots.Length
      modifies if inTick then {} else {slots}
      ensures (State(), r) == L.SlotSet(prog, old(State()), i, v)
    {
      if stage == S.FailedStage { return L.Rejected(L.SetTooLate); }
      if inTick { return L.Rejected(L.MidActivation); }
      var fit := S.FitTo(prog, v, slotDecls[i].t);
      match fit
      case Mismatch => r := L.Rejected(L.SlotTypeMismatch);
      case CoercePanics(engine) => r := L.Crashed(engine);
      case Fits(u) =>
        slots[i] := Some(u);
        r := L.Accepted;
    }

    method BindInput(name: string, v: Value) returns (r: L.ApiResult)
      requires Valid()
      modifies this
      ensures (State(), r) == L.BindInput(prog, old(State()), name, v)
      ensures World() == if old(stage) == S.Created then S.BindInputIn(prog, old(World()), name, v) else old(World())
    {
      if stage != S.Created { return L.Rejected(L.BindTooLate); }
      var decls := prog.code.decls;
      var i := 0;
      while i < |decls|
        invariant 0 <= i <= |decls| && S.InputType(decls, name) == S.InputType(decls[i..], name)
        invariant State() == old(State())
      {
        if decls[i].RInput? && decls[i].name == name {
          var fit := S.FitTo(prog, v, decls[i].t);
          match fit {
            case Mismatch => return L.Rejected(L.InputTypeMismatch);
            case CoercePanics(engine) => return L.Crashed(engine);
            case Fits(u) =>
              inputs := inputs[name := u];
              return L.Accepted;
          }
        }
        i := i + 1;
      }
      return L.Rejected(L.InputUnknown);
    }

    method BindOutput(name: string, sink: Sink) returns (r: L.ApiResult)
      requires Valid()
      modifies this
      ensures (State(), r) == L.BindOutput(prog, old(State()), name, sink)
      ensures World() == if old(stage) == S.Created then S.BindOutputIn(prog, old(World()), name, sink)
        else old(World())
    {
      if stage != S.Created { return L.Rejected(L.BindTooLate); }
      var decls := prog.code.decls;
      var i := 0;
      while i < |decls|
        invariant 0 <= i <= |decls| && S.OutputType(decls, name) == S.OutputType(decls[i..], name)
        invariant State() == old(State())
      {
        if decls[i].ROutput? && decls[i].name == name {
          if sink.t != decls[i].t { return L.Rejected(L.OutputTypeMismatch); }
          outputs := outputs[name := sink];
          return L.Accepted;
        }
        i := i + 1;
      }
      return L.Rejected(L.OutputUnknown);
    }

    method Init() returns (r: L.ApiResult)
      requires Valid()
      modifies this, if inTick then {} else {slots, env}
      ensures (State(), r) == L.Init(prog, old(State()))
      ensures old(inTick) ==> inTick && World() == S.NestedCall(prog, old(World()), CallInit)
      decreases if inTick then 0 else 1, 3
    {
      if stage != S.Created { return L.Rejected(L.InitRepeated); }
      r := EvalInit();
      stage := if r.Accepted? then S.Initialized else S.FailedStage;
    }

    method Run() returns (r: L.ApiResult)
      requires Valid()
      modifies this, if inTick then {} else {slots, env}
      ensures (State(), r) == L.Run(prog, old(State()))
      ensures old(inTick) ==> inTick && World() == old(World())
      decreases if inTick then 0 else 1, 3
    {
      if stage != S.Initialized { return L.Rejected(L.NotInitialized); }
      r := EvalRun();
    }

    // ---------- Activations ----------

    method EvalInit() returns (r: L.ApiResult)
      requires Valid()
      modifies this, if inTick then {} else {slots, env}
      ensures (State(), r) == L.EvalInit(prog, old(State()))
      ensures old(inTick) ==> inTick && World() == old(World())
      decreases if inTick then 0 else 1, 2
    {
      if inTick { return L.Rejected(L.MidActivation); }
      inTick := true;
      r := LoadPhase();
      inTick := false;
    }

    /** Init with the guard up: outputs bound, declarations loaded, the Init body run, no cell left empty. */
    method LoadPhase() returns (r: L.ApiResult)
      requires Valid() && inTick
      modifies this, slots, env
      ensures inTick && (State().(inTick := false), r) == L.EvalInit(prog, old(State()).(inTick := false))
      decreases 0, 30
    {
      var decls := prog.code.decls;
      var i := 0;
      while i < |decls|
        invariant 0 <= i <= |decls| && L.MissingOutput(decls, outputs) == L.MissingOutput(decls[i..], outputs)
        invariant inTick && State() == old(State())
      {
        if decls[i].ROutput? && decls[i].name !in outputs {
          return L.Rejected(L.OutputMissing(decls[i].name));
        }
        i := i + 1;
      }
      assert env.Frames() == [env.values];
      var out := InitBody();
      assert env.Frames() == [env.values];
      if !out.Done? { return L.Conclude(out); }
      var empty := FirstEmpty();
      r := if empty.Some? then L.Rejected(L.LeftUninitialized(empty.value)) else L.Accepted;
    }

    method InitBody() returns (out: Outcome<Option<Value>>)
      requires Valid() && inTick
      modifies this, slots, env
      ensures inTick && S.Ran(out, StoreAt(env)) == L.InitBody(prog, old(StoreAt(env)))
      decreases 0, 29
    {
      out := LoadDecls();
      if out.Done? && prog.code.initFn.Some? {
        out := EvalInner(prog.code.initFn.value, env);
      }
    }

    method FirstEmpty() returns (empty: Option<Slot>)
      requires Valid()
      ensures empty == L.FirstEmpty(slotDecls, slots[..])
    {
      var i := 0;
      while i < |slotDecls|
        invariant 0 <= i <= |slotDecls| && L.FirstEmpty(slotDecls, slots[..]) == L.FirstEmpty(slotDecls[i..], slots[..])
      {
        if slotDecls[i].index >= slots.Length || slots[slotDecls[i].index].None? { return Some(slotDecls[i]); }
        i := i + 1;
      }
      empty := None;
    }

    method LoadDecls() returns (out: Outcome<Option<Value>>)
      requires Valid() && inTick
      modifies this, slots, env
      ensures inTick && S.Ran(out, StoreAt(env)) == L.LoadDecls(prog, old(StoreAt(env)), prog.code.decls)
      decreases 0, 28
    {
      var decls := prog.code.decls;
      var i := 0;
      out := Done(None);
      while i < |decls|
        invariant 0 <= i <= |decls| && inTick && out == Done(None)
        invariant L.LoadDecls(prog, old(StoreAt(env)), decls) == L.LoadDecls(prog, StoreAt(env), decls[i..])
      {
        var d := LoadDecl(decls[i]);
        if !d.Done? { return d; }
        i := i + 1;
      }
    }

    method LoadDecl(d: RDecl) returns (out: Outcome<Option<Value>>)
      requires Valid() && inTick
      modifies this, slots, env
      ensures inTick && S.Ran(out, StoreAt(env)) == L.LoadDecl(prog, old(StoreAt(env)), d)
      decreases 0, 27
    {
      match d
      case RConst(name, e, _) =>
        var v := EvalExpr(e, env);
        if v.Done? { env.Set(name, v.v); }
        out := S.Lift(v);
      case RSlotDecl(slot, init) =>
        if slot.index >= slots.Length { return EnginePanic; }
        if slots[slot.index].Some? || init.None? { return Done(None); }
        var v := EvalExpr(init.value, env);
        if v.Done? { slots[slot.index] := Some(v.v); }
        out := S.Lift(v);
      case _ => out := Done(None);
    }

    method EvalRun() returns (r: L.ApiResult)
      requires Valid()
      modifies this, if inTick then {} else {slots, env}
      ensures (State(), r) == L.EvalRun(prog, old(State()))
      ensures old(inTick) ==> inTick && World() == old(World())
      decreases if inTick then 0 else 1, 2
    {
      if inTick { return L.Rejected(L.MidActivation); }
      inTick := true;
      r := Tick();
      inTick := false;
    }

    /** Run with the guard up: every input into the function's frame, then the body. */
    method Tick() returns (r: L.ApiResult)
      requires Valid() && inTick
      modifies this, slots, env
      ensures inTick && (State().(inTick := false), r) == L.EvalRun(prog, old(State()).(inTick := false))
      decreases 0, 30
    {
      var runEnv := new Env<Value>.Enclosed(env);
      var decls := prog.code.decls;
      var i := 0;
      while i < |decls|
        invariant 0 <= i <= |decls| && inTick && State() == old(State())
        invariant L.InputFrame(decls, inputs, map[]) == L.InputFrame(decls[i..], inputs, runEnv.values)
      {
        if decls[i].RInput? {
          if decls[i].name !in inputs { return L.Rejected(L.InputMissing(decls[i].name)); }
          runEnv.Set(decls[i].name, inputs[decls[i].name]);
        }
        i := i + 1;
      }
      assert runEnv.Frames() == [runEnv.values, env.values];
      var out := EvalBlock(prog.code.runFn, runEnv);
      r := L.Conclude(out);
    }

    // ---------- Expressions ----------

    method EvalExpr(e: RExpr, frame: Env<Value>) returns (out: Outcome<Value>)
      requires Valid() && Rooted(frame) && inTick
      modifies this
      ensures inTick && S.Evaluated(out, World()) == S.EvalExpr(prog, frame.Frames(), slots[..], old(World()), e)
      decreases 0, 9, e, 1
    {
      match e
      case RBad => out := EnginePanic;
      case RInt(n) => out := Done(IntV(n));
      case RFloat(f) => out := Done(FloatV(f));
      case RStr(s) => out := Done(StrV(s));
      case RBool(b) => out := Done(BoolV(b));
      case RIdent(name, _) =>
        var v := frame.Get(name);
        out := match v case Some(u) => Done(u) case None => EnginePanic;
      case RSlot(slot) =>
        if slot.index >= slots.Length { return EnginePanic; }
        var cell := slots[slot.index];
        out := match cell case Some(v) => Done(v) case None => Trap(EmptySlot);
      case RInfix(_, left, right, _, fn) =>
        out := EvalExpr(left, frame);
        if !out.Done? { return; }
        var l := out.v;
        out := EvalExpr(right, frame);
        if !out.Done? { return; }
        out := Settle(ApplyBinary(prog.host, fn, clock, l, out.v));
      case RLogical(_, _, _) => out := EvalLogical(e, frame);
      case RPrefix(_, right, _, fn) =>
        out := EvalExpr(right, frame);
        if !out.Done? { return; }
        out := Settle(ApplyUnary(prog.host, fn, clock, out.v));
      case RCoerce(inner, _, fn) =>
        out := EvalExpr(inner, frame);
        if !out.Done? { return; }
        out := ApplyCoerce(prog.host, fn, out.v);
      case RMember(receiver, _, _, fn) =>
        out := EvalExpr(receiver, frame);
        if !out.Done? { return; }
        out := Settle(ApplyMember(prog.host, fn, clock, out.v));
      case RCall(_, _, _, _, _) => out := EvalMethodCall(e, frame);
    }

    /** The end of a host call: it is counted, and the calls it made back are carried out. */
    method Settle(a: Applied) returns (out: Outcome<Value>)
      requires Valid() && inTick
      modifies this
      ensures inTick && S.Evaluated(out, World()) == S.Settle(prog, old(World()), a)
      decreases 0, 6
    {
      clock := clock + 1;
      CallBacks(a.nested);
      out := a.out;
    }

    method EvalLogical(e: RExpr, frame: Env<Value>) returns (out: Outcome<Value>)
      requires Valid() && Rooted(frame) && inTick && e.RLogical?
      modifies this
      ensures inTick && S.Evaluated(out, World()) == S.EvalExpr(prog, frame.Frames(), slots[..], old(World()), e)
      decreases 0, 9, e, 0
    {
      out := EvalExpr(e.left, frame);
      if !out.Done? { return; }
      if !out.v.BoolV? { return EnginePanic; }
      if e.op == AND && !out.v.b { return; }
      if e.op == OR && out.v.b { return; }
      out := EvalExpr(e.right, frame);
      if out.Done? && !out.v.BoolV? { return EnginePanic; }
    }

    method EvalMethodCall(e: RExpr, frame: Env<Value>) returns (out: Outcome<Value>)
      requires Valid() && Rooted(frame) && inTick && e.RCall?
      modifies this
      ensures inTick && S.Evaluated(out, World()) == S.EvalExpr(prog, frame.Frames(), slots[..], old(World()), e)
      decreases 0, 9, e, 0
    {
      out := EvalExpr(e.receiver, frame);
      if !out.Done? { return; }
      var args := EvalArgs(e.args, frame);
      match args
      case Done(named) => out := Settle(ApplyCall(prog.host, e.callFn, clock, out.v, named));
      case Trap(why) => out := Trap(why);
      case HostPanic => out := HostPanic;
      case EnginePanic => out := EnginePanic;
    }

    method EvalArgs(args: seq<RArg>, frame: Env<Value>) returns (out: Outcome<map<string, Value>>)
      requires Valid() && Rooted(frame) && inTick
      modifies this
      ensures inTick && S.Evaluated(out, World())
        == S.EvalArgs(prog, frame.Frames(), slots[..], old(World()), args, map[])
      decreases 0, 9, args, 2
    {
      var named: map<string, Value> := map[];
      var i := 0;
      while i < |args|
        invariant 0 <= i <= |args| && inTick
        invariant S.EvalArgs(prog, frame.Frames(), slots[..], old(World()), args, map[])
               == S.EvalArgs(prog, frame.Frames(), slots[..], World(), args[i..], named)
      {
        var v := EvalExpr(args[i].value, frame);
        match v {
          case Done(u) => named := named[args[i].name := u];
          case Trap(why) => return Trap(why);
          case HostPanic => return HostPanic;
          case EnginePanic => return EnginePanic;
        }
        i := i + 1;
      }
      out := Done(named);
    }
  
    // ---------- Statements ----------

    method EvalBlock(stmts: seq<RStmt>, frame: Env<Value>) returns (out: Outcome<Option<Value>>)
      requires Valid() && Rooted(frame) && inTick
      modifies this, slots, frame.chain
      ensures inTick && S.Ran(out, StoreAt(frame)) == S.EvalBlock(prog, old(StoreAt(frame)), stmts, None)
      decreases 0, 20, stmts, 2
    {
      var last: Option<Value> := None;
      var i := 0;
      while i < |stmts|
        invariant 0 <= i <= |stmts| && inTick
        invariant S.EvalBlock(prog, old(StoreAt(frame)), stmts, None)
          == S.EvalBlock(prog, StoreAt(frame), stmts[i..], last)
      {
        out := EvalStmt(stmts[i], frame);
        if !out.Done? { return; }
        last := out.v;
        i := i + 1;
      }
      out := Done(last);
    }

    method EvalStmt(s: RStmt, frame: Env<Value>) returns (out: Outcome<Option<Value>>)
      requires Valid() && Rooted(frame) && inTick
      modifies this, slots, frame.chain
      ensures inTick && S.Ran(out, StoreAt(frame)) == S.EvalStmt(prog, old(StoreAt(frame)), s)
      decreases 0, 20, s, 1
    {
      hide S.EvalExpr, S.EvalBlock;
      match s
      case RBadStmt => out := EnginePanic;
      case RExprStmt(e) =>
        var v := EvalExpr(e, frame);
        out := S.Lift(v);
      case RLet(_, _, _) => out := EvalLet(s, frame);
      case RAssignName(_, _, _) => out := EvalAssignName(s, frame);
      case RAssignSlot(_, _, _) => out := EvalAssignSlot(s, frame);
      case RBlock(stmts) => out := EvalInner(stmts, frame);
      case RIf(_, _, _) => out := EvalIf(s, frame);
      case REmit(_, _, _) => out := EvalEmit(s, frame);
    }

    method EvalLet(s: RStmt, frame: Env<Value>) returns (out: Outcome<Option<Value>>)
      requires Valid() && Rooted(frame) && inTick && s.RLet?
      modifies this, slots, frame.chain
      ensures inTick && S.Ran(out, StoreAt(frame)) == S.EvalStmt(prog, old(StoreAt(frame)), s)
      decreases 0, 19
    {
      hide S.EvalExpr;
      var v := EvalExpr(s.value, frame);
      if v.Done? {
        frame.Set(s.name, v.v);
      }
      out := S.Lift(v);
    }

    method EvalAssignName(s: RStmt, frame: Env<Value>) returns (out: Outcome<Option<Value>>)
      requires Valid() && Rooted(frame) && inTick && s.RAssignName?
      modifies this, slots, frame.chain
      ensures inTick && S.Ran(out, StoreAt(frame)) == S.EvalStmt(prog, old(StoreAt(frame)), s)
      decreases 0, 19
    {
      hide S.EvalExpr;
      var v := EvalExpr(s.value, frame);
      out := S.Lift(v);
      if v.Done? {
        var found := frame.Assign(s.target, v.v);
        if !found {
          AssignNothing(old(frame.Frames()), s.target, v.v);
          out := EnginePanic;
        }
      }
    }

    method EvalAssignSlot(s: RStmt, frame: Env<Value>) returns (out: Outcome<Option<Value>>)
      requires Valid() && Rooted(frame) && inTick && s.RAssignSlot?
      modifies this, slots, frame.chain
      ensures inTick && S.Ran(out, StoreAt(frame)) == S.EvalStmt(prog, old(StoreAt(frame)), s)
      decreases 0, 19
    {
      hide S.EvalExpr;
      var v := EvalExpr(s.value, frame);
      if v.Done? {
        if s.slot.index >= slots.Length {
          return EnginePanic;
        }
        slots[s.slot.index] := Some(v.v);
      }
      out := S.Lift(v);
    }

    /** A block in a frame of its own, dropped afterwards. */
    method EvalInner(stmts: seq<RStmt>, frame: Env<Value>) returns (out: Outcome<Option<Value>>)
      requires Valid() && Rooted(frame) && inTick
      modifies this, slots, frame.chain
      ensures inTick && S.Ran(out, StoreAt(frame)) == S.Pop(S.EvalBlock(prog, S.Push(old(StoreAt(frame))), stmts, None))
      decreases 0, 20, stmts, 3
    {
      var inner := new Env<Value>.Enclosed(frame);
      out := EvalBlock(stmts, inner);
      inner.ParentFrames();
    }

    method EvalIf(s: RStmt, frame: Env<Value>) returns (out: Outcome<Option<Value>>)
      requires Valid() && Rooted(frame) && inTick && s.RIf?
      modifies this, slots, frame.chain
      ensures inTick && S.Ran(out, StoreAt(frame)) == S.EvalStmt(prog, old(StoreAt(frame)), s)
      decreases 0, 20, s, 0
    {
      var c := EvalExpr(s.cond, frame);
      if !c.Done? { return S.Lift(c); }
      if !c.v.BoolV? { return EnginePanic; }
      if c.v.b {
        out := EvalInner(s.consequence, frame);
      } else if s.alternative.Some? {
        out := EvalStmt(s.alternative.value, frame);
      } else {
        out := Done(None);
      }
    }

    method EvalEmit(s: RStmt, frame: Env<Value>) returns (out: Outcome<Option<Value>>)
      requires Valid() && Rooted(frame) && inTick && s.REmit?
      modifies this
      ensures inTick && S.Ran(out, StoreAt(frame)) == S.EvalStmt(prog, old(StoreAt(frame)), s)
      decreases 0, 19
    {
      var value: Value;
      if prog.reg.FieldsOf(s.t) == [] {
        if s.args == [] { return EnginePanic; }
        var v := EvalExpr(s.args[0].value, frame);
        if !v.Done? { return S.Lift(v); }
        value := v.v;
      } else {
        var v := EvalArgs(s.args, frame);
        match v {
          case Done(named) => value := RecordV(s.t, named);
          case Trap(why) => return Trap(why);
          case HostPanic => return HostPanic;
          case EnginePanic => return EnginePanic;
        }
      }
      out := Deliver(s.output, value);
    }

    method Deliver(output: string, v: Value) returns (out: Outcome<Option<Value>>)
      requires Valid() && inTick
      modifies this
      ensures inTick && S.Evaluated(out, World()) == S.Deliver(prog, old(World()), output, v)
      decreases 0, 6
    {
      if output !in outputs { return EnginePanic; }
      var sink := outputs[output];
      var reply := prog.host.emit(sink, clock, v);
      clock := clock + 1;
      trace := trace + [S.Emission(output, sink, v)];
      CallBacks(reply.nested);
      out := if reply.out.Panicked? then HostPanic else Done(None);
    }
  }

  /** Assigning to a name bound nowhere changes nothing. */
  lemma {:induction false} AssignNothing(frames: seq<map<string, Value>>, name: string, v: Value)
    requires Lookup(frames, name).None?
    ensures AssignIn(frames, name, v) == frames
  {
    if frames != [] {
      AssignNothing(frames[1..], name, v);
    }
  }
}
