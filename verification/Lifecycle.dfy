/**
 The public surface of a compiled program (executable.go, evaluator/evaluator.go): a state machine whose
 steps are the host's calls. A call made from inside a rule or a sink is the same step, taken while the
 guard is up.
 */
module Lifecycle {
  import opened Wrappers
  import opened Values
  import opened Registries
  import opened Rules
  import opened Scopes
  import opened Resolved
  import opened Semantics

  datatype Exec = Exec(inTick: bool, top: map<string, Value>, slots: Cells, world: World)

  datatype Reason =
    | InitRepeated | NotInitialized | BindTooLate | SetTooLate | MidActivation | SlotIsEmpty | NoSuchSlot
    | SlotTypeMismatch | InputUnknown | InputTypeMismatch | OutputUnknown | OutputTypeMismatch
    | OutputMissing(port: string) | InputMissing(port: string) | LeftUninitialized(slot: Slot)

  /** Crashed: a panic recovered by the engine, or for a coercion outside an activation, one the host sees. */
  datatype ApiResult = Accepted | Got(v: Value) | Rejected(why: Reason) | Trapped(fault: Fault) | Crashed(engine: bool)

  function Conclude<T>(o: Outcome<T>): ApiResult {
    match o
    case Done(_) => Accepted
    case Trap(why) => Trapped(why)
    case HostPanic => Crashed(false)
    case EnginePanic => Crashed(true)
  }

  // ---------- Init ----------

  function MissingOutput(decls: seq<RDecl>, outputs: map<string, Sink>): Option<string> {
    if decls == [] then None
    else if decls[0].ROutput? && decls[0].name !in outputs then Some(decls[0].name)
    else MissingOutput(decls[1..], outputs)
  }

  /** One declaration of the load phase: a constant is bound, an empty cell with an initializer is filled. */
  function LoadDecl(p: Program, st: Store, d: RDecl): Ran {
    match d
    case RConst(name, e, _) =>
      var v := Evaluate(p, st, e);
      Ran(Lift(v.out), st.(world := v.world, frames := if v.out.Done? && st.frames != []
        then SetHead(st.frames, name, v.out.v) else st.frames))
    case RSlotDecl(slot, init) =>
      if slot.index >= |st.slots| then Ran(EnginePanic, st)
      else if st.slots[slot.index].Some? || init.None? then Ran(Done(None), st)
      else
        var v := Evaluate(p, st, init.value);
        Ran(Lift(v.out), st.(world := v.world, slots := if v.out.Done? then st.slots[slot.index := Some(v.out.v)]
          else st.slots))
    case _ => Ran(Done(None), st)
  }

  /** The load phase: declarations in source order until one does not finish. */
  function LoadDecls(p: Program, st: Store, decls: seq<RDecl>): Ran
    decreases |decls|
  {
    if decls == [] then Ran(Done(None), st) else
    var r := LoadDecl(p, st, decls[0]);
    if r.out.Done? then LoadDecls(p, r.store, decls[1..]) else r
  }

  function FirstEmpty(slots: seq<Slot>, cells: Cells): Option<Slot> {
    if slots == [] then None
    else if slots[0].index < |cells| && cells[slots[0].index].Some? then FirstEmpty(slots[1..], cells)
    else Some(slots[0])
  }

  function InitBody(p: Program, st: Store): Ran {
    var r := LoadDecls(p, st, p.code.decls);
    if r.out.Done? && p.code.initFn.Some? then Pop(EvalBlock(p, Push(r.store), p.code.initFn.value, None)) else r
  }

  /** The engine's own state after an activation: the guard down, the top frame and cells as they were left. */
  function Leave(x: Exec, st: Store): Exec {
    Exec(false, if st.frames == [] then x.top else Top(st.frames), st.slots, st.world)
  }

  function EvalInit(p: Program, x: Exec): (Exec, ApiResult) {
    if x.inTick then (x, Rejected(MidActivation)) else
    var missing := MissingOutput(p.code.decls, x.world.outputs);
    if missing.Some? then (x, Rejected(OutputMissing(missing.value))) else
    var r := InitBody(p, Store([x.top], x.slots, x.world));
    var empty := FirstEmpty(Slots(p.code.decls), r.store.slots);
    (Leave(x, r.store), if r.out.Done? && empty.Some? then Rejected(LeftUninitialized(empty.value))
      else Conclude(r.out))
  }

  // ---------- Run ----------

  /** The function frame of an activation: every declared input at its bound value, or the first one unbound. */
  function InputFrame(decls: seq<RDecl>, inputs: map<string, Value>,
      frame: map<string, Value>): Result<map<string, Value>, string> {
    if decls == [] then Success(frame)
    else if !decls[0].RInput? then InputFrame(decls[1..], inputs, frame)
    else if decls[0].name !in inputs then Failure(decls[0].name)
    else InputFrame(decls[1..], inputs, frame[decls[0].name := inputs[decls[0].name]])
  }

  function EvalRun(p: Program, x: Exec): (Exec, ApiResult) {
    if x.inTick then (x, Rejected(MidActivation)) else
    match InputFrame(p.code.decls, x.world.inputs, map[])
    case Failure(name) => (x, Rejected(InputMissing(name)))
    case Success(frame) =>
      var r := EvalBlock(p, Store([frame, x.top], x.slots, x.world), p.code.runFn, None);
      (Leave(x, r.store), Conclude(r.out))
  }

  // ---------- Calls ----------

  /** The first declaration of that kind and name: what a slot handle refers to. */
  function FindSlot(slots: seq<Slot>, kind: string, name: string): Option<nat> {
    if slots == [] then None
    else if slots[0].kind == kind && slots[0].name == name then Some(0)
    else match FindSlot(slots[1..], kind, name) case Some(i) => Some(i + 1) case None => None
  }

  function SlotGet(p: Program, x: Exec, i: nat): ApiResult {
    if x.inTick then Rejected(MidActivation)
    else if i >= |x.slots| then Crashed(true)
    else match x.slots[i] case Some(v) => Got(v) case None => Rejected(SlotIsEmpty)
  }

  function SlotSet(p: Program, x: Exec, i: nat, v: Value): (Exec, ApiResult) {
    if x.world.stage == FailedStage then (x, Rejected(SetTooLate))
    else if x.inTick then (x, Rejected(MidActivation))
    else if i >= |x.slots| || i >= |Slots(p.code.decls)| then (x, Crashed(true))
    else match FitTo(p, v, Slots(p.code.decls)[i].t)
      case Fits(u) => (x.(slots := x.slots[i := Some(u)]), Accepted)
      case Mismatch => (x, Rejected(SlotTypeMismatch))
      case CoercePanics(engine) => (x, Crashed(engine))
  }

  function BindInput(p: Program, x: Exec, name: string, v: Value): (Exec, ApiResult) {
    if x.world.stage != Created then (x, Rejected(BindTooLate))
    else match InputType(p.code.decls, name)
      case None => (x, Rejected(InputUnknown))
      case Some(t) =>
        match FitTo(p, v, t)
        case Fits(u) => (x.(world := x.world.(inputs := x.world.inputs[name := u])), Accepted)
        case Mismatch => (x, Rejected(InputTypeMismatch))
        case CoercePanics(engine) => (x, Crashed(engine))
  }

  function BindOutput(p: Program, x: Exec, name: string, sink: Sink): (Exec, ApiResult) {
    if x.world.stage != Created then (x, Rejected(BindTooLate))
    else match OutputType(p.code.decls, name)
      case None => (x, Rejected(OutputUnknown))
      case Some(t) =>
        if sink.t == t then (x.(world := x.world.(outputs := x.world.outputs[name := sink])), Accepted)
        else (x, Rejected(OutputTypeMismatch))
  }

  function Init(p: Program, x: Exec): (Exec, ApiResult) {
    if x.world.stage != Created then (x, Rejected(InitRepeated)) else
    var r := EvalInit(p, x);
    (r.0.(world := r.0.world.(stage := if r.1.Accepted? then Initialized else FailedStage)), r.1)
  }

  function Run(p: Program, x: Exec): (Exec, ApiResult) {
    if x.world.stage != Initialized then (x, Rejected(NotInitialized)) else EvalRun(p, x)
  }

  function Call(p: Program, x: Exec, c: ApiCall): (Exec, ApiResult) {
    match c
    case CallInit => Init(p, x)
    case CallRun => Run(p, x)
    case CallBindInput(name, v) => BindInput(p, x, name, v)
    case CallBindOutput(name, sink) => BindOutput(p, x, name, sink)
    case CallSlotGet(kind, name) =>
      (x, match FindSlot(Slots(p.code.decls), kind, name) case Some(i) => SlotGet(p, x, i)
        case None => Rejected(NoSuchSlot))
    case CallSlotSet(kind, name, v) =>
      match FindSlot(Slots(p.code.decls), kind, name) case Some(i) => SlotSet(p, x, i, v)
        case None => (x, Rejected(NoSuchSlot))
  }

  /** The state a freshly compiled program starts in: modules in scope, every cell empty, nothing bound. */
  function Fresh(p: Program): Exec {
    var cells := seq(|Slots(p.code.decls)|, _ => None);
    Exec(false, map m | m in p.reg.modules :: ModuleV(m), cells, World(Created, map[], map[], 0, []))
  }

  /** The states and answers of a whole conversation with the host. */
  function Converse(p: Program, x: Exec, calls: seq<ApiCall>): (Exec, seq<ApiResult>)
    decreases |calls|
  {
    if calls == [] then (x, []) else
    var r := Call(p, x, calls[0]);
    var rest := Converse(p, r.0, calls[1..]);
    (rest.0, [r.1] + rest.1)
  }
}
