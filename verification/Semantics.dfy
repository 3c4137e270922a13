/**
 The evaluator (evaluator/evaluator.go) as a store-passing semantics: every construct maps a store to an
 outcome and a store. Nothing here is mutable; Executables.dfy is the mutable engine proved equal to it.
 */
module Semantics {
  import opened Wrappers
  import opened Tokens
  import opened Values
  import opened Registries
  import opened Rules
  import opened Scopes
  import opened Resolved

  datatype Stage = Created | Initialized | FailedStage

  /** One delivery: which sink received which value, through which declared output. */
  datatype Emission = Emission(output: string, sink: Sink, value: Value)

  /** What a callback may see or change, and what the outside has seen. */
  datatype World = World(stage: Stage, inputs: map<string, Value>, outputs: map<string, Sink>, clock: nat,
    trace: seq<Emission>)

  /** A compiled program, the registry it was compiled against, and the host it runs under. */
  datatype Program = Program(reg: Registry, host: Host, code: RProgram)

  type Frames = seq<map<string, Value>>
  type Cells = seq<Option<Value>>

  datatype Store = Store(frames: Frames, slots: Cells, world: World)

  // ---------- Calls back into the engine ----------

  function InputType(decls: seq<RDecl>, name: string): Option<TypeID> {
    if decls == [] then None
    else if decls[0].RInput? && decls[0].name == name then Some(decls[0].t)
    else InputType(decls[1..], name)
  }

  function OutputType(decls: seq<RDecl>, name: string): Option<TypeID> {
    if decls == [] then None
    else if decls[0].ROutput? && decls[0].name == name then Some(decls[0].t)
    else OutputType(decls[1..], name)
  }

  datatype Fit = Fits(v: Value) | Mismatch | CoercePanics(engine: bool)

  /** A value as a cell of type t accepts it: unchanged, or through the registered coercion. */
  function FitTo(p: Program, v: Value, t: TypeID): Fit {
    if TypeOf(v) == t then Fits(v)
    else match p.reg.LookupCoerce(TypeOf(v), t)
      case None => Mismatch
      case Some(rule) =>
        match ApplyCoerce(p.host, rule.fn, v)
        case Done(u) => Fits(u)
        case EnginePanic => CoercePanics(true)
        case _ => CoercePanics(false)
  }

  function BindInputIn(p: Program, w: World, name: string, v: Value): World {
    match InputType(p.code.decls, name)
    case None => w
    case Some(t) => match FitTo(p, v, t) case Fits(u) => w.(inputs := w.inputs[name := u]) case _ => w
  }

  function BindOutputIn(p: Program, w: World, name: string, sink: Sink): World {
    if OutputType(p.code.decls, name) == Some(sink.t) then w.(outputs := w.outputs[name := sink]) else w
  }

  /**
   The effect of a call made while an activation is in progress. Init and Run never start, slots are never
   touched; a rejected Init still marks the program failed, and the ports stay open until the stage leaves
   Created.
   */
  function NestedCall(p: Program, w: World, c: ApiCall): World {
    if w.stage != Created then w
    else match c
      case CallInit => w.(stage := FailedStage)
      case CallBindInput(name, v) => BindInputIn(p, w, name, v)
      case CallBindOutput(name, sink) => BindOutputIn(p, w, name, sink)
      case _ => w
  }

  function NestedCalls(p: Program, w: World, cs: seq<ApiCall>): World
    decreases |cs|
  {
    if cs == [] then w else NestedCalls(p, NestedCall(p, w, cs[0]), cs[1..])
  }

  // ---------- Expressions ----------

  datatype Evaluated<+T> = Evaluated(out: Outcome<T>, world: World)

  /** The state a host function leaves behind: one more call counted, and its own calls carried out. */
  function Settle(p: Program, w: World, a: Applied): Evaluated<Value> {
    Evaluated(a.out, NestedCalls(p, w.(clock := w.clock + 1), a.nested))
  }

  function EvalExpr(p: Program, frames: Frames, slots: Cells, w: World, e: RExpr): Evaluated<Value>
    decreases e, 0
  {
    match e
    case RBad => Evaluated(EnginePanic, w)
    case RInt(n) => Evaluated(Done(IntV(n)), w)
    case RFloat(f) => Evaluated(Done(FloatV(f)), w)
    case RStr(s) => Evaluated(Done(StrV(s)), w)
    case RBool(b) => Evaluated(Done(BoolV(b)), w)
    case RIdent(name, _) => Evaluated(match Lookup(frames, name) case Some(v) => Done(v) case None => EnginePanic, w)
    case RSlot(slot) =>
      Evaluated(
        if slot.index >= |slots| then EnginePanic
        else if slots[slot.index].None? then Trap(EmptySlot)
        else Done(slots[slot.index].value), w)
    case RInfix(_, left, right, _, fn) =>
      var l := EvalExpr(p, frames, slots, w, left);
      if !l.out.Done? then l else
      var r := EvalExpr(p, frames, slots, l.world, right);
      if !r.out.Done? then r else
      Settle(p, r.world, ApplyBinary(p.host, fn, r.world.clock, l.out.v, r.out.v))
    case RLogical(op, left, right) =>
      var l := EvalExpr(p, frames, slots, w, left);
      if !l.out.Done? then l
      else if !l.out.v.BoolV? then l.(out := EnginePanic)
      else if op == AND && !l.out.v.b then l
      else if op == OR && l.out.v.b then l
      else
        var r := EvalExpr(p, frames, slots, l.world, right);
        if r.out.Done? && !r.out.v.BoolV? then r.(out := EnginePanic) else r
    case RPrefix(_, right, _, fn) =>
      var r := EvalExpr(p, frames, slots, w, right);
      if !r.out.Done? then r else
      Settle(p, r.world, ApplyUnary(p.host, fn, r.world.clock, r.out.v))
    case RCoerce(inner, _, fn) =>
      var i := EvalExpr(p, frames, slots, w, inner);
      if !i.out.Done? then i else i.(out := ApplyCoerce(p.host, fn, i.out.v))
    case RMember(receiver, _, _, fn) =>
      var o := EvalExpr(p, frames, slots, w, receiver);
      if !o.out.Done? then o else
      Settle(p, o.world, ApplyMember(p.host, fn, o.world.clock, o.out.v))
    case RCall(receiver, _, args, _, fn) =>
      var o := EvalExpr(p, frames, slots, w, receiver);
      if !o.out.Done? then o else
      var a := EvalArgs(p, frames, slots, o.world, args, map[]);
      match a.out
      case Done(named) => Settle(p, a.world, ApplyCall(p.host, fn, a.world.clock, o.out.v, named))
      case Trap(why) => Evaluated(Trap(why), a.world)
      case HostPanic => Evaluated(HostPanic, a.world)
      case EnginePanic => Evaluated(EnginePanic, a.world)
  }

  /** Arguments left to right, collected by parameter name. */
  function EvalArgs(p: Program, frames: Frames, slots: Cells, w: World, args: seq<RArg>,
      named: map<string, Value>): Evaluated<map<string, Value>>
    decreases args, 1
  {
    if args == [] then Evaluated(Done(named), w) else
    var a := EvalExpr(p, frames, slots, w, args[0].value);
    match a.out
    case Done(v) => EvalArgs(p, frames, slots, a.world, args[1..], named[args[0].name := v])
    case Trap(why) => Evaluated(Trap(why), a.world)
    case HostPanic => Evaluated(HostPanic, a.world)
    case EnginePanic => Evaluated(EnginePanic, a.world)
  }

  // ---------- Statements ----------

  /** A statement's value is None where the source returns nil. */
  datatype Ran = Ran(out: Outcome<Option<Value>>, store: Store)

  /** An expression's outcome as a statement's. */
  function Lift(o: Outcome<Value>): Outcome<Option<Value>> {
    match o
    case Done(v) => Done(Some(v))
    case Trap(why) => Trap(why)
    case HostPanic => HostPanic
    case EnginePanic => EnginePanic
  }

  function Evaluate(p: Program, st: Store, e: RExpr): Evaluated<Value> {
    EvalExpr(p, st.frames, st.slots, st.world, e)
  }

  /** Delivers a value to the sink bound to the output; an unbound output is a nil dereference. */
  function Deliver(p: Program, w: World, output: string, v: Value): Evaluated<Option<Value>> {
    if output !in w.outputs then Evaluated(EnginePanic, w) else
    var sink := w.outputs[output];
    var reply := p.host.emit(sink, w.clock, v);
    var sent := w.(clock := w.clock + 1, trace := w.trace + [Emission(output, sink, v)]);
    Evaluated(if reply.out.Panicked? then HostPanic else Done(None), NestedCalls(p, sent, reply.nested))
  }

  /** The value an emit statement sends: its one argument, or a record of all of them. */
  function EmittedValue(p: Program, st: Store, args: seq<RArg>, t: TypeID): Evaluated<Value> {
    if p.reg.FieldsOf(t) == [] then
      if args == [] then Evaluated(EnginePanic, st.world) else Evaluate(p, st, args[0].value)
    else
      var a := EvalArgs(p, st.frames, st.slots, st.world, args, map[]);
      Evaluated(
        match a.out
          case Done(named) => Done(RecordV(t, named))
          case Trap(why) => Trap(why)
          case HostPanic => HostPanic
          case EnginePanic => EnginePanic,
        a.world)
  }

  function Push(st: Store): Store {
    st.(frames := [map[]] + st.frames)
  }

  function Pop(r: Ran): Ran {
    if r.store.frames == [] then r else r.(store := r.store.(frames := r.store.frames[1..]))
  }

  function EvalStmt(p: Program, st: Store, s: RStmt): Ran
    decreases s, 0
  {
    match s
    case RBadStmt => Ran(EnginePanic, st)
    case RExprStmt(e) =>
      var v := Evaluate(p, st, e);
      Ran(Lift(v.out), st.(world := v.world))
    case RLet(name, e, _) =>
      var v := Evaluate(p, st, e);
      Ran(Lift(v.out), st.(world := v.world, frames := if v.out.Done? && st.frames != []
        then SetHead(st.frames, name, v.out.v) else st.frames))
    case RAssignName(name, e, _) =>
      var v := Evaluate(p, st, e);
      if !v.out.Done? then Ran(Lift(v.out), st.(world := v.world))
      else if Lookup(st.frames, name).None? then Ran(EnginePanic, st.(world := v.world))
      else Ran(Lift(v.out), st.(world := v.world, frames := AssignIn(st.frames, name, v.out.v)))
    case RAssignSlot(slot, e, _) =>
      var v := Evaluate(p, st, e);
      if !v.out.Done? then Ran(Lift(v.out), st.(world := v.world))
      else if slot.index >= |st.slots| then Ran(EnginePanic, st.(world := v.world))
      else Ran(Lift(v.out), st.(world := v.world, slots := st.slots[slot.index := Some(v.out.v)]))
    case RBlock(stmts) => Pop(EvalBlock(p, Push(st), stmts, None))
    case RIf(cond, consequence, alternative) =>
      var c := Evaluate(p, st, cond);
      var st' := st.(world := c.world);
      if !c.out.Done? then Ran(Lift(c.out), st')
      else if !c.out.v.BoolV? then Ran(EnginePanic, st')
      else if c.out.v.b then Pop(EvalBlock(p, Push(st'), consequence, None))
      else if alternative.Some? then EvalStmt(p, st', alternative.value)
      else Ran(Done(None), st')
    case REmit(output, args, t) =>
      var v := EmittedValue(p, st, args, t);
      if !v.out.Done? then Ran(Lift(v.out), st.(world := v.world)) else
      var d := Deliver(p, v.world, output, v.out.v);
      Ran(d.out, st.(world := d.world))
  }

  /** Statements in order until one does not finish; the value is the last statement's. */
  function EvalBlock(p: Program, st: Store, stmts: seq<RStmt>, last: Option<Value>): Ran
    decreases stmts, 1
  {
    if stmts == [] then Ran(Done(last), st) else
    var r := EvalStmt(p, st, stmts[0]);
    if r.out.Done? then EvalBlock(p, r.store, stmts[1..], r.out.v) else r
  }
}
