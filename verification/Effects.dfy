/**
 What an activation leaves behind (evaluator/evaluator.go:269-375): exactly the slot writes and deliveries of
 the statements that completed, whether the activation finished, trapped or panicked. There is no rollback,
 and the statement that stops an activation leaves nothing of its own, unless it is an emit whose sink panicked:
 its delivery has then been made.
 */
module Effects {
  import opened Wrappers
  import opened Tokens
  import opened Values
  import opened Registries
  import opened Rules
  import opened Scopes
  import opened Resolved
  import opened Semantics
  import opened Lifecycle

  datatype Effect = Wrote(index: nat, value: Value) | Sent(emission: Emission)

  /** The cells after the writes among some effects. */
  function Written(cells: Cells, log: seq<Effect>): Cells
    decreases |log|
  {
    if log == [] then cells
    else
      var e := log[0];
      Written(if e.Wrote? && e.index < |cells| then cells[e.index := Some(e.value)] else cells, log[1..])
  }

  function Delivered(log: seq<Effect>): seq<Emission> {
    if log == [] then [] else (if log[0].Sent? then [log[0].emission] else []) + Delivered(log[1..])
  }

  /** The effects of the statements inside s that complete, in order. */
  function Log(p: Program, st: Store, s: RStmt): seq<Effect>
    decreases s, 0
  {
    match s
    case RAssignSlot(slot, e, _) =>
      var v := Evaluate(p, st, e);
      if EvalStmt(p, st, s).out.Done? && v.out.Done? then [Wrote(slot.index, v.out.v)] else []
    case REmit(output, args, t) =>
      var v := EmittedValue(p, st, args, t);
      if EvalStmt(p, st, s).out.Done? && v.out.Done? && output in v.world.outputs
      then [Sent(Emission(output, v.world.outputs[output], v.out.v))] else []
    case RBlock(stmts) => LogBlock(p, Push(st), stmts)
    case RIf(cond, consequence, alternative) =>
      var c := Evaluate(p, st, cond);
      var st' := st.(world := c.world);
      if !c.out.Done? || !c.out.v.BoolV? then []
      else if c.out.v.b then LogBlock(p, Push(st'), consequence)
      else if alternative.Some? then Log(p, st', alternative.value)
      else []
    case _ => []
  }

  function LogBlock(p: Program, st: Store, stmts: seq<RStmt>): seq<Effect>
    decreases stmts, 1
  {
    if stmts == [] then [] else
    var r := EvalStmt(p, st, stmts[0]);
    Log(p, st, stmts[0]) + if r.out.Done? then LogBlock(p, r.store, stmts[1..]) else []
  }

  /** The delivery of the emit inside s whose sink panicked, if that is what stopped s. */
  function Unanswered(p: Program, st: Store, s: RStmt): seq<Emission>
    decreases s, 0
  {
    match s
    case REmit(output, args, t) =>
      var v := EmittedValue(p, st, args, t);
      if !v.out.Done? || output !in v.world.outputs then []
      else
        var sink := v.world.outputs[output];
        if p.host.emit(sink, v.world.clock, v.out.v).out.Panicked? then [Emission(output, sink, v.out.v)] else []
    case RBlock(stmts) => UnansweredIn(p, Push(st), stmts)
    case RIf(cond, consequence, alternative) =>
      var c := Evaluate(p, st, cond);
      var st' := st.(world := c.world);
      if !c.out.Done? || !c.out.v.BoolV? then []
      else if c.out.v.b then UnansweredIn(p, Push(st'), consequence)
      else if alternative.Some? then Unanswered(p, st', alternative.value)
      else []
    case _ => []
  }

  /** The first statement that does not finish is the one that stops the block. */
  function UnansweredIn(p: Program, st: Store, stmts: seq<RStmt>): seq<Emission>
    decreases stmts, 1
  {
    if stmts == [] then [] else
    var r := EvalStmt(p, st, stmts[0]);
    if r.out.Done? then UnansweredIn(p, r.store, stmts[1..]) else Unanswered(p, st, stmts[0])
  }

  // ---------- Expressions have no effects of either kind ----------

  lemma {:induction false} NestedKeepTrace(p: Program, w: World, cs: seq<ApiCall>)
    ensures NestedCalls(p, w, cs).trace == w.trace
    decreases |cs|
  {
    if cs != [] {
      NestedKeepTrace(p, NestedCall(p, w, cs[0]), cs[1..]);
    }
  }

  lemma SettleKeepsTrace(p: Program, w: World, a: Applied)
    ensures Settle(p, w, a).world.trace == w.trace
  {
    NestedKeepTrace(p, w.(clock := w.clock + 1), a.nested);
  }

  lemma {:induction false} ExprKeepsTrace(p: Program, frames: Frames, slots: Cells, w: World, e: RExpr)
    ensures EvalExpr(p, frames, slots, w, e).world.trace == w.trace
    decreases e, 0
  {
    hide Settle, ApplyBinary, ApplyUnary, ApplyMember, ApplyCall, ApplyCoerce;
    match e
    case RInfix(_, left, right, _, fn) =>
      ExprKeepsTrace(p, frames, slots, w, left);
      var l := EvalExpr(p, frames, slots, w, left);
      ExprKeepsTrace(p, frames, slots, l.world, right);
      var r := EvalExpr(p, frames, slots, l.world, right);
      if l.out.Done? && r.out.Done? {
        SettleKeepsTrace(p, r.world, ApplyBinary(p.host, fn, r.world.clock, l.out.v, r.out.v));
      }
    case RLogical(_, left, right) =>
      ExprKeepsTrace(p, frames, slots, w, left);
      ExprKeepsTrace(p, frames, slots, EvalExpr(p, frames, slots, w, left).world, right);
    case RPrefix(_, right, _, fn) =>
      ExprKeepsTrace(p, frames, slots, w, right);
      var r := EvalExpr(p, frames, slots, w, right);
      if r.out.Done? {
        SettleKeepsTrace(p, r.world, ApplyUnary(p.host, fn, r.world.clock, r.out.v));
      }
    case RCoerce(inner, _, _) => ExprKeepsTrace(p, frames, slots, w, inner);
    case RMember(receiver, _, _, fn) =>
      ExprKeepsTrace(p, frames, slots, w, receiver);
      var o := EvalExpr(p, frames, slots, w, receiver);
      if o.out.Done? {
        SettleKeepsTrace(p, o.world, ApplyMember(p.host, fn, o.world.clock, o.out.v));
      }
    case RCall(receiver, _, args, _, fn) =>
      ExprKeepsTrace(p, frames, slots, w, receiver);
      var o := EvalExpr(p, frames, slots, w, receiver);
      ArgsKeepTrace(p, frames, slots, o.world, args, map[]);
      var a := EvalArgs(p, frames, slots, o.world, args, map[]);
      if o.out.Done? && a.out.Done? {
        SettleKeepsTrace(p, a.world, ApplyCall(p.host, fn, a.world.clock, o.out.v, a.out.v));
      }
    case _ =>
  }

  lemma {:induction false} ArgsKeepTrace(p: Program, frames: Frames, slots: Cells, w: World, args: seq<RArg>,
      named: map<string, Value>)
    ensures EvalArgs(p, frames, slots, w, args, named).world.trace == w.trace
    decreases args, 1
  {
    if args != [] {
      var first := args[0];
      assert first.value < first;
      ExprKeepsTrace(p, frames, slots, w, first.value);
      var a := EvalExpr(p, frames, slots, w, first.value);
      if a.out.Done? {
        ArgsKeepTrace(p, frames, slots, a.world, args[1..], named[first.name := a.out.v]);
      }
    }
  }

  // ---------- The theorem ----------

  /** after holds exactly the logged writes and deliveries on top of before. */
  predicate Leaves(before: Store, after: Store, log: seq<Effect>) {
    after.slots == Written(before.slots, log) && after.world.trace == before.world.trace + Delivered(log)
  }

  /** The same, and the one delivery whose sink panicked, if that is how the run ended. */
  predicate LeftBehind(before: Store, r: Ran, log: seq<Effect>, unanswered: seq<Emission>) {
    && r.store.slots == Written(before.slots, log)
    && r.store.world.trace == before.world.trace + Delivered(log) + unanswered
    && |unanswered| <= 1 && (unanswered != [] ==> r.out.HostPanic?)
  }

  lemma {:induction false} WrittenSplits(cells: Cells, a: seq<Effect>, b: seq<Effect>)
    ensures Written(cells, a + b) == Written(Written(cells, a), b)
    decreases |a|
  {
    if a == [] {
      assert a + b == b;
    } else {
      var e := a[0];
      assert (a + b)[0] == e && (a + b)[1..] == a[1..] + b;
      WrittenSplits(if e.Wrote? && e.index < |cells| then cells[e.index := Some(e.value)] else cells, a[1..], b);
    }
  }

  lemma {:induction false} DeliveredSplits(a: seq<Effect>, b: seq<Effect>)
    ensures Delivered(a + b) == Delivered(a) + Delivered(b)
    decreases |a|
  {
    if a == [] {
      assert a + b == b;
    } else {
      assert (a + b)[0] == a[0] && (a + b)[1..] == a[1..] + b;
      DeliveredSplits(a[1..], b);
    }
  }

  /** Effects of two stretches of execution add up. */
  lemma LeavesJoins(a: Store, b: Store, r: Ran, first: seq<Effect>, second: seq<Effect>, unanswered: seq<Emission>)
    requires Leaves(a, b, first) && LeftBehind(b, r, second, unanswered)
    ensures LeftBehind(a, r, first + second, unanswered)
  {
    WrittenSplits(a.slots, first, second);
    DeliveredSplits(first, second);
    assert a.world.trace + (Delivered(first) + Delivered(second)) == (a.world.trace + Delivered(first))
      + Delivered(second);
  }

  /**
   A statement leaves exactly the effects of the statements inside it that completed, and the delivery of the
   emit that stopped it by a panic of its sink.
   */
  lemma {:induction false} StmtLeavesLog(p: Program, st: Store, s: RStmt)
    ensures LeftBehind(st, EvalStmt(p, st, s), Log(p, st, s), Unanswered(p, st, s))
    decreases s, 0
  {
    match s
    case RBlock(stmts) => BlockLeavesLog(p, Push(st), stmts, None);
    case RIf(_, _, _) => IfLeavesLog(p, st, s);
    case REmit(_, _, _) => EmitLeavesLog(p, st, s);
    case _ => SimpleLeavesLog(p, st, s);
  }

  lemma SimpleLeavesLog(p: Program, st: Store, s: RStmt)
    requires !s.RBlock? && !s.RIf? && !s.REmit?
    ensures LeftBehind(st, EvalStmt(p, st, s), Log(p, st, s), Unanswered(p, st, s))
  {
    hide EvalExpr;
    if !s.RBadStmt? {
      var e := if s.RExprStmt? then s.expr else s.value;
      ExprKeepsTrace(p, st.frames, st.slots, st.world, e);
      if s.RAssignSlot? {
        var v := Evaluate(p, st, e);
        if v.out.Done? {
          assert Delivered([Wrote(s.slot.index, v.out.v)]) == [] + Delivered([]) == [];
          assert st.world.trace + [] == st.world.trace;
          assert Written(st.slots, [Wrote(s.slot.index, v.out.v)])
            == Written(if s.slot.index < |st.slots| then st.slots[s.slot.index := Some(v.out.v)] else st.slots, []);
        }
      }
    }
  }

  lemma EmitLeavesLog(p: Program, st: Store, s: RStmt)
    requires s.REmit?
    ensures LeftBehind(st, EvalStmt(p, st, s), Log(p, st, s), Unanswered(p, st, s))
  {
    hide EvalExpr, EvalArgs;
    var v := EmittedValue(p, st, s.args, s.t);
    EmittedKeepsTrace(p, st, s.args, s.t);
    if v.out.Done? && s.output in v.world.outputs {
      var sink := v.world.outputs[s.output];
      var e := Emission(s.output, sink, v.out.v);
      NestedKeepTrace(p, v.world.(clock := v.world.clock + 1, trace := v.world.trace + [e]),
        p.host.emit(sink, v.world.clock, v.out.v).nested);
      assert Delivered([Sent(e)]) == [e] + Delivered([]);
      assert Written(st.slots, [Sent(e)]) == Written(st.slots, []);
    }
  }

  lemma EmittedKeepsTrace(p: Program, st: Store, args: seq<RArg>, t: TypeID)
    ensures EmittedValue(p, st, args, t).world.trace == st.world.trace
  {
    if p.reg.FieldsOf(t) != [] {
      ArgsKeepTrace(p, st.frames, st.slots, st.world, args, map[]);
    } else if args != [] {
      ExprKeepsTrace(p, st.frames, st.slots, st.world, args[0].value);
    }
  }

  lemma {:induction false} IfLeavesLog(p: Program, st: Store, s: RStmt)
    requires s.RIf?
    ensures LeftBehind(st, EvalStmt(p, st, s), Log(p, st, s), Unanswered(p, st, s))
    decreases s, 0, 0
  {
    hide EvalExpr;
    ExprKeepsTrace(p, st.frames, st.slots, st.world, s.cond);
    var c := Evaluate(p, st, s.cond);
    var st' := st.(world := c.world);
    if c.out.Done? && c.out.v.BoolV? {
      if c.out.v.b {
        BlockLeavesLog(p, Push(st'), s.consequence, None);
      } else if s.alternative.Some? {
        StmtLeavesLog(p, st', s.alternative.value);
      }
    }
  }

  lemma {:induction false} BlockLeavesLog(p: Program, st: Store, stmts: seq<RStmt>, last: Option<Value>)
    ensures LeftBehind(st, EvalBlock(p, st, stmts, last), LogBlock(p, st, stmts), UnansweredIn(p, st, stmts))
    decreases stmts, 1
  {
    hide EvalStmt, Log, Unanswered;
    if stmts != [] {
      StmtLeavesLog(p, st, stmts[0]);
      var r := EvalStmt(p, st, stmts[0]);
      if r.out.Done? {
        BlockLeavesLog(p, r.store, stmts[1..], r.out.v);
var rest := EvalBlock(p, r.store, stmts[1..], r.out.v);
        var first, second := Log(p, st, stmts[0]), LogBlock(p, r.store, stmts[1..]);
        assert st.world.trace + Delivered(first) + [] == st.world.trace + Delivered(first);
        LeavesJoins(st, r.store, rest, first, second, UnansweredIn(p, r.store, stmts[1..]));
      } else {
        assert Log(p, st, stmts[0]) + [] == Log(p, st, stmts[0]);
      }
    }
  }

  /**
   The activation level: what a Run leaves on the object is what its statements left, and a refused one changes
   nothing.
   */
  lemma RunLeavesLog(p: Program, x: Exec)
    ensures var (y, answer) := EvalRun(p, x); var frame := InputFrame(p.code.decls, x.world.inputs, map[]);
      if x.inTick || frame.Failure? then y == x && answer.Rejected?
      else
        var st := Store([frame.value, x.top], x.slots, x.world);
        var unanswered := UnansweredIn(p, st, p.code.runFn);
        && y.slots == Written(x.slots, LogBlock(p, st, p.code.runFn))
        && y.world.trace == x.world.trace + Delivered(LogBlock(p, st, p.code.runFn)) + unanswered
        && |unanswered| <= 1 && (unanswered != [] ==> answer == Crashed(false))
  {
    hide EvalBlock, LogBlock, UnansweredIn;
    var frame := InputFrame(p.code.decls, x.world.inputs, map[]);
    if !x.inTick && frame.Success? {
      BlockLeavesLog(p, Store([frame.value, x.top], x.slots, x.world), p.code.runFn, None);
    }
  }

  // ---------- Short circuits ----------

  /** Operands joined by one logical operator, as the parser nests them: to the left. */
  function Chain(op: TokenType, first: RExpr, rest: seq<RExpr>): RExpr
    decreases |rest|
  {
    if rest == [] then first else RLogical(op, Chain(op, first, rest[..|rest| - 1]), rest[|rest| - 1])
  }

  /**
   Once the first operands of a chain decide it, the others contribute nothing: not their values, their effects or
   their traps. With one operand after the first, this is the right operand of a single AND or OR.
   */
  lemma {:induction false} ShortCircuit(p: Program, st: Store, op: TokenType, first: RExpr, rest: seq<RExpr>, k: nat)
    requires op in {AND, OR} && k <= |rest| && Evaluate(p, st, Chain(op, first, rest[..k])).out == Done(BoolV(op == OR))
    ensures Evaluate(p, st, Chain(op, first, rest)) == Evaluate(p, st, Chain(op, first, rest[..k]))
    decreases |rest|
  {
    if k == |rest| {
      assert rest[..k] == rest;
    } else {
      var front := rest[..|rest| - 1];
      assert front[..k] == rest[..k];
      ShortCircuit(p, st, op, first, front, k);
    }
  }
}
