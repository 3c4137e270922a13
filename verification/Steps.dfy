/**
 The meaning of statements as derivations (evaluator/evaluator.go:269-375): one rule per form says which expressions
 are evaluated, which statements run and from what state, and what is left. The evaluator is proved to be exactly this
 relation, and a Run to be one derivation for its whole body.
 */
module Steps {
  import opened Wrappers
  import opened Tokens
  import opened Values
  import opened Registries
  import opened Rules
  import opened Scopes
  import opened Resolved
  import opened Semantics
  import opened Lifecycle
  import opened Safety
  import opened BigStep

  /** How a statement ended and the state it left, from the evaluations and the statements inside it. */
  datatype Doing = Doing(out: Outcome<Option<Value>>, after: Store, exprs: seq<Deriv>, steps: seq<Doing>)

  ghost predicate Of(p: Program, st: Store, e: RExpr, d: Deriv) {
    Derives(p, st.frames, st.slots, st.world, e, d)
  }

  /** A statement's end, given that of its one expression. */
  predicate Gives(a: Outcome<Value>, b: Outcome<Option<Value>>) {
    if a.Done? then b == Done(Some(a.v)) else Ends(a, b)
  }

  /** A block starts with a frame of its own, which is gone afterwards. */
  function Entered(st: Store): Store {
    st.(frames := [map[]] + st.frames)
  }

  function Outside(st: Store): Store {
    if st.frames == [] then st else st.(frames := st.frames[1..])
  }

  function BeforeStep(st: Store, steps: seq<Doing>, i: nat): Store
    requires i <= |steps|
  {
    if i == 0 then st else steps[i - 1].after
  }

  /** The value of a block is that of its last statement. */
  function OutOf(steps: seq<Doing>, otherwise: Option<Value>): Outcome<Option<Value>> {
    if steps == [] then Done(otherwise) else steps[|steps| - 1].out
  }

  ghost predicate Does(p: Program, st: Store, s: RStmt, t: Doing)
    decreases t
  {
    match s
    case RBadStmt => t.out == EnginePanic && t.after == st
    case RBlock(stmts) => InBlock(p, st, stmts, t.out, t.after, t.steps)
    case RIf(cond, consequence, alternative) =>
      && |t.exprs| == 1 && Of(p, st, cond, t.exprs[0])
      && var c, st' := t.exprs[0].out, st.(world := t.exprs[0].after);
      if !c.Done? then Ends(c, t.out) && t.after == st'
      else if !c.v.BoolV? then t.out == EnginePanic && t.after == st'
      else if c.v.b then InBlock(p, st', consequence, t.out, t.after, t.steps)
      else if alternative.Some? then
        |t.steps| == 1 && Does(p, st', alternative.value, t.steps[0]) && t.out == t.steps[0].out
          && t.after == t.steps[0].after
      else t.out == Done(None) && t.after == st'
    case REmit(output, args, typ) =>
      if p.reg.FieldsOf(typ) == [] then EmitsValue(p, st, output, args, t.out, t.after, t.exprs)
      else EmitsRecord(p, st, output, args, typ, t.out, t.after, t.exprs)
    case RExprStmt(e) => |t.exprs| == 1 && Of(p, st, e, t.exprs[0]) && Simple(st, s, t.out, t.after, t.exprs[0])
    case RLet(_, e, _) => |t.exprs| == 1 && Of(p, st, e, t.exprs[0]) && Simple(st, s, t.out, t.after, t.exprs[0])
    case RAssignName(_, e, _) => |t.exprs| == 1 && Of(p, st, e, t.exprs[0]) && Simple(st, s, t.out, t.after, t.exprs[0])
    case RAssignSlot(_, e, _) => |t.exprs| == 1 && Of(p, st, e, t.exprs[0]) && Simple(st, s, t.out, t.after, t.exprs[0])
  }

  /** Statements one after the other, each from the state the one before it left, until one does not finish. */
  ghost predicate Sequence(p: Program, st: Store, stmts: seq<RStmt>, steps: seq<Doing>)
    decreases steps, 0
  {
    && |steps| <= |stmts|
    && (forall i | 0 <= i < |steps| :: Does(p, BeforeStep(st, steps, i), stmts[i], steps[i]))
    && (forall i | 0 <= i < |steps| - 1 :: steps[i].out.Done?)
    && (|steps| == |stmts| || (steps != [] && !steps[|steps| - 1].out.Done?))
  }

  ghost predicate InBlock(p: Program, st: Store, stmts: seq<RStmt>, out: Outcome<Option<Value>>, after: Store,
      steps: seq<Doing>)
    decreases steps, 1
  {
    && Sequence(p, Entered(st), stmts, steps)
    && out == OutOf(steps, None) && after == Outside(BeforeStep(Entered(st), steps, |steps|))
  }

  /** What a statement of one expression does with its value. */
  ghost predicate Simple(st: Store, s: RStmt, out: Outcome<Option<Value>>, after: Store, d: Deriv) {
    var st' := st.(world := d.after);
    if !d.out.Done? then Ends(d.out, out) && after == st'
    else match s
      case RLet(name, _, _) =>
        && Gives(d.out, out) && after == st'.(frames := after.frames)
        && after.frames == if st.frames == [] then [] else [st.frames[0][name := d.out.v]] + st.frames[1..]
      case RAssignName(name, _, _) =>
        if forall i | 0 <= i < |st.frames| :: name !in st.frames[i] then out == EnginePanic && after == st'
        else
          && Gives(d.out, out) && after == st'.(frames := after.frames) && |after.frames| == |st.frames|
          && forall i: nat | i < |st.frames| ::
               after.frames[i] == if BindsFirst(st.frames, name, i) then st.frames[i][name := d.out.v] else st.frames[i]
      case RAssignSlot(slot, _, _) =>
        if slot.index >= |st.slots| then out == EnginePanic && after == st'
        else Gives(d.out, out) && after == st'.(slots := st.slots[slot.index := Some(d.out.v)])
      case _ => Gives(d.out, out) && after == st'
  }

  /**
   One delivery: to the sink bound to the output, logged before the sink answers; a panic of the sink is the
   statement's.
   */
  predicate Delivers(p: Program, st: Store, w: World, output: string, v: Value, out: Outcome<Option<Value>>,
      after: Store) {
    if output !in w.outputs then out == EnginePanic && after == st.(world := w)
    else
      var sink := w.outputs[output];
      var reply := p.host.emit(sink, w.clock, v);
      && out == (if reply.out.Panicked? then HostPanic else Done(None))
      && after == st.(world :=
           NestedCalls(p, w.(clock := w.clock + 1, trace := w.trace + [Emission(output, sink, v)]), reply.nested))
  }

  /** An output of a named type takes the one argument. */
  ghost predicate EmitsValue(p: Program, st: Store, output: string, args: seq<RArg>,
      out: Outcome<Option<Value>>, after: Store, ds: seq<Deriv>)
  {
    if args == [] then out == EnginePanic && after == st
    else
      && |ds| == 1 && Of(p, st, args[0].value, ds[0])
      && if !ds[0].out.Done? then Ends(ds[0].out, out) && after == st.(world := ds[0].after)
         else Delivers(p, st, ds[0].after, output, ds[0].out.v, out, after)
  }

  /** Arguments in order, up to one that does not finish. */
  ghost predicate ArgsDerive(p: Program, st: Store, args: seq<RArg>, ds: seq<Deriv>) {
    && |ds| <= |args|
    && (forall i | 0 <= i < |ds| :: Derives(p, st.frames, st.slots, Before(st.world, ds, i), args[i].value, ds[i]))
    && (forall i | 0 <= i < |ds| - 1 :: ds[i].out.Done?)
  }

  predicate AllDone(ds: seq<Deriv>) {
    forall d | d in ds :: d.out.Done?
  }

  /** An output of a structural type takes a record of all of them. */
  ghost predicate EmitsRecord(p: Program, st: Store, output: string, args: seq<RArg>, typ: TypeID,
      out: Outcome<Option<Value>>, after: Store, ds: seq<Deriv>)
  {
    && ArgsDerive(p, st, args, ds)
    && if ds != [] && !ds[|ds| - 1].out.Done? then Ends(ds[|ds| - 1].out, out)
      && after == st.(world := ds[|ds| - 1].after)
       else
         && |ds| == |args| && AllDone(ds)
         && exists named ::
              ByName(args, ds, named) && Delivers(p, st, Before(st.world, ds, |ds|), output, RecordV(typ, named), out,
                after)
  }

  // ---------- The rules say what the evaluator does ----------

  lemma AssignedFrames(frames: Frames, name: string, v: Value, after: Frames)
    requires Lookup(frames, name).Some?
    ensures after == AssignIn(frames, name, v)
      <==> |after| == |frames| && forall i: nat | i < |frames| ::
             after[i] == if BindsFirst(frames, name, i) then frames[i][name := v] else frames[i]
  {
    var frames' := AssignIn(frames, name, v);
    forall i: nat | i < |frames|
      ensures frames'[i] == if BindsFirst(frames, name, i) then frames[i][name := v] else frames[i]
    {
      AssignInFrame(frames, name, v, i);
    }
  }

  lemma Unbound(frames: Frames, name: string)
    ensures Lookup(frames, name).None? <==> forall i | 0 <= i < |frames| :: name !in frames[i]
  {
    if Lookup(frames, name).None? {
      forall i | 0 <= i < |frames| ensures name !in frames[i] { LookupNone(frames, name, i); }
    } else {
      var i := LookupIndex(frames, name);
    }
  }

  predicate IsSimple(s: RStmt) {
    s.RExprStmt? || s.RLet? || s.RAssignName? || s.RAssignSlot?
  }

  function ValueOf(s: RStmt): RExpr
    requires IsSimple(s)
  {
    if s.RExprStmt? then s.expr else s.value
  }

  lemma SimpleIsEval(p: Program, st: Store, s: RStmt, d: Deriv, out: Outcome<Option<Value>>, after: Store)
    requires IsSimple(s) && Evaluate(p, st, ValueOf(s)) == Evaluated(d.out, d.after)
    ensures Simple(st, s, out, after, d) <==> EvalStmt(p, st, s) == Ran(out, after)
  {
    hide EvalExpr, Lookup, AssignIn, BindsFirst;
    if s.RAssignName? && d.out.Done? {
      Unbound(st.frames, s.target);
      if Lookup(st.frames, s.target).Some? {
        AssignedFrames(st.frames, s.target, d.out.v, after.frames);
      }
    }
  }

  lemma DeliversIsDeliver(p: Program, st: Store, w: World, output: string, v: Value, out: Outcome<Option<Value>>,
      after: Store)
    ensures Delivers(p, st, w, output, v, out, after)
      <==> out == Deliver(p, w, output, v).out && after == st.(world := Deliver(p, w, output, v).world)
  {
  }

  lemma ArgsInTurn(p: Program, st: Store, args: seq<RArg>, ds: seq<Deriv>)
    requires ArgsDerive(p, st, args, ds)
    ensures InTurn(p, st.frames, st.slots, st.world, args, ds)
  {
    hide Derives, EvalExpr;
    forall k | 0 <= k < |ds|
      ensures EvalExpr(p, st.frames, st.slots, Before(st.world, ds, k), args[k].value)
        == Evaluated(ds[k].out, ds[k].after)
    {
      DerivesIsEval(p, st.frames, st.slots, Before(st.world, ds, k), args[k].value, ds[k]);
    }
  }

  lemma EmitEnds(p: Program, st: Store, s: RStmt, v: Evaluated<Value>)
    requires s.REmit? && EmittedValue(p, st, s.args, s.t) == v
    ensures EvalStmt(p, st, s)
         == if v.out.Done? then Ran(Deliver(p, v.world, s.output, v.out.v).out,
           st.(world := Deliver(p, v.world, s.output, v.out.v).world))
            else Ran(Lift(v.out), st.(world := v.world))
  {
    hide EmittedValue, Deliver;
  }

  lemma EmitsValueIsEval(p: Program, st: Store, s: RStmt, out: Outcome<Option<Value>>, after: Store, ds: seq<Deriv>)
    requires s.REmit? && p.reg.FieldsOf(s.t) == [] && EmitsValue(p, st, s.output, s.args, out, after, ds)
    ensures EvalStmt(p, st, s) == Ran(out, after)
  {
    hide EvalExpr, EvalStmt, Derives, Deliver, Delivers;
    var v := EmittedValue(p, st, s.args, s.t);
    EmitEnds(p, st, s, v);
    if s.args != [] {
      DerivesIsEval(p, st.frames, st.slots, st.world, s.args[0].value, ds[0]);
      if v.out.Done? {
        DeliversIsDeliver(p, st, v.world, s.output, v.out.v, out, after);
      }
    }
  }

  lemma EmitsRecordIsEval(p: Program, st: Store, s: RStmt, out: Outcome<Option<Value>>, after: Store, ds: seq<Deriv>)
    requires s.REmit? && p.reg.FieldsOf(s.t) != [] && EmitsRecord(p, st, s.output, s.args, s.t, out, after, ds)
    ensures EvalStmt(p, st, s) == Ran(out, after)
  {
    hide EvalExpr, EvalArgs, EvalStmt, ArgsDerive, InTurn, Deliver, Delivers, ByName, Gathered;
    var v := EmittedValue(p, st, s.args, s.t);
    EmitEnds(p, st, s, v);
    ArgsInTurn(p, st, s.args, ds);
    assert |ds| == |s.args| || (ds != [] && !ds[|ds| - 1].out.Done?);
    ArgsFrom(p, st.frames, st.slots, st.world, s.args, ds, map[]);
    if !(ds != [] && !ds[|ds| - 1].out.Done?) {
      var named :| ByName(s.args, ds, named)
        && Delivers(p, st, Before(st.world, ds, |ds|), s.output, RecordV(s.t, named), out, after);
      GatheredByName(s.args, ds);
      OneNaming(s.args, ds, named, Gathered(s.args, ds, map[]));
      DeliversIsDeliver(p, st, v.world, s.output, v.out.v, out, after);
    }
  }

  lemma SequenceRest(p: Program, st: Store, stmts: seq<RStmt>, steps: seq<Doing>)
    requires Sequence(p, st, stmts, steps) && steps != []
    ensures Does(p, st, stmts[0], steps[0])
    ensures if steps[0].out.Done? then Sequence(p, steps[0].after, stmts[1..], steps[1..]) else |steps| == 1
    ensures BeforeStep(steps[0].after, steps[1..], |steps| - 1) == BeforeStep(st, steps, |steps|)
  {
    hide Does;
    assert BeforeStep(st, steps, 0) == st;
    var rest := steps[1..];
    forall i | 0 <= i < |rest| ensures Does(p, BeforeStep(steps[0].after, rest, i), stmts[1..][i], rest[i]) {
      assert BeforeStep(steps[0].after, rest, i) == BeforeStep(st, steps, i + 1) && stmts[1..][i] == stmts[i + 1];
    }
  }

  lemma {:induction false} SequenceIsEval(p: Program, st: Store, stmts: seq<RStmt>, steps: seq<Doing>,
      last: Option<Value>)
    requires Sequence(p, st, stmts, steps)
    ensures EvalBlock(p, st, stmts, last) == Ran(OutOf(steps, last), BeforeStep(st, steps, |steps|))
    decreases steps, 0
  {
    hide EvalStmt, Does;
    if steps != [] {
      SequenceRest(p, st, stmts, steps);
      DoesIsEval(p, st, stmts[0], steps[0]);
      if steps[0].out.Done? {
        SequenceIsEval(p, steps[0].after, stmts[1..], steps[1..], steps[0].out.v);
      }
    }
  }

  lemma {:induction false} BlockIsEval(p: Program, st: Store, stmts: seq<RStmt>, out: Outcome<Option<Value>>,
      after: Store, steps: seq<Doing>)
    requires InBlock(p, st, stmts, out, after, steps)
    ensures Pop(EvalBlock(p, Push(st), stmts, None)) == Ran(out, after)
    decreases steps, 1
  {
    hide EvalBlock, Sequence;
    assert Push(st) == Entered(st);
    SequenceIsEval(p, Entered(st), stmts, steps, None);
  }

  /** What the rules derive is what the evaluator does. */
  lemma {:induction false} DoesIsEval(p: Program, st: Store, s: RStmt, t: Doing)
    requires Does(p, st, s, t)
    ensures EvalStmt(p, st, s) == Ran(t.out, t.after)
    decreases t
  {
    hide EvalExpr, EvalBlock, Derives, InBlock, Simple, EmitsValue, EmitsRecord;
    if IsSimple(s) {
      hide EvalStmt;
      DerivesIsEval(p, st.frames, st.slots, st.world, ValueOf(s), t.exprs[0]);
      SimpleIsEval(p, st, s, t.exprs[0], t.out, t.after);
    } else if s.RBlock? {
      BlockIsEval(p, st, s.stmts, t.out, t.after, t.steps);
    } else if s.RIf? {
      IfIsEval(p, st, s, t);
    } else if s.REmit? {
      hide EvalStmt;
      if p.reg.FieldsOf(s.t) == [] {
        EmitsValueIsEval(p, st, s, t.out, t.after, t.exprs);
      } else {
        EmitsRecordIsEval(p, st, s, t.out, t.after, t.exprs);
      }
    }
  }

  lemma {:induction false} IfIsEval(p: Program, st: Store, s: RStmt, t: Doing)
    requires s.RIf? && Does(p, st, s, t)
    ensures EvalStmt(p, st, s) == Ran(t.out, t.after)
    decreases t, 0
  {
    hide EvalExpr, EvalBlock, Derives, InBlock, Simple, EmitsValue, EmitsRecord;
    DerivesIsEval(p, st.frames, st.slots, st.world, s.cond, t.exprs[0]);
    var c, st' := t.exprs[0].out, st.(world := t.exprs[0].after);
    if c.Done? && c.v.BoolV? {
      if c.v.b {
        BlockIsEval(p, st', s.consequence, t.out, t.after, t.steps);
      } else if s.alternative.Some? {
        DoesIsEval(p, st', s.alternative.value, t.steps[0]);
      }
    }
  }

  // ---------- Every execution has a derivation ----------

  lemma {:induction false} SequenceOf(p: Program, st: Store, stmts: seq<RStmt>) returns (steps: seq<Doing>)
    ensures Sequence(p, st, stmts, steps)
    decreases stmts, 1
  {
    hide Does;
    if stmts == [] {
      steps := [];
    } else {
      var t := DoneBy(p, st, stmts[0]);
      if t.out.Done? {
        var rest := SequenceOf(p, t.after, stmts[1..]);
        steps := [t] + rest;
        SequenceCons(p, st, stmts, t, rest);
      } else {
        steps := [t];
      }
    }
  }

  lemma SequenceCons(p: Program, st: Store, stmts: seq<RStmt>, t: Doing, rest: seq<Doing>)
    requires stmts != [] && Does(p, st, stmts[0], t) && t.out.Done? && Sequence(p, t.after, stmts[1..], rest)
    ensures Sequence(p, st, stmts, [t] + rest)
  {
    hide Does;
    var steps := [t] + rest;
    forall i | 0 <= i < |steps| ensures Does(p, BeforeStep(st, steps, i), stmts[i], steps[i]) {
      if i > 0 {
        assert BeforeStep(st, steps, i) == BeforeStep(t.after, rest, i - 1);
        assert Does(p, BeforeStep(t.after, rest, i - 1), stmts[1..][i - 1], rest[i - 1]);
      }
    }
  }

  lemma {:induction false} ArgsDerived(p: Program, st: Store, args: seq<RArg>, done: seq<Deriv>)
    returns (ds: seq<Deriv>)
    requires ArgsDerive(p, st, args, done)
    ensures ArgsDerive(p, st, args, ds) && ((|ds| == |args| && AllDone(ds)) || (ds != [] && !ds[|ds| - 1].out.Done?))
    decreases |args| - |done|
  {
    hide Derives;
    if (done != [] && !done[|done| - 1].out.Done?) || |done| == |args| {
      ds := done;
    } else {
      var d := Derived(p, st.frames, st.slots, Before(st.world, done, |done|), args[|done|].value);
      var next := done + [d];
      forall i | 0 <= i < |next|
        ensures Derives(p, st.frames, st.slots, Before(st.world, next, i), args[i].value, next[i]) {
        BeforeSame(st.world, done, d, i);
      }
      ds := ArgsDerived(p, st, args, next);
    }
  }

  lemma EmitDone(p: Program, st: Store, s: RStmt) returns (t: Doing)
    requires s.REmit?
    ensures Does(p, st, s, t)
  {
    hide EvalExpr, Derives, Delivers, ByName, ArgsDerive, NestedCalls;
    if p.reg.FieldsOf(s.t) == [] {
      if s.args == [] {
        t := Doing(EnginePanic, st, [], []);
      } else {
        var d := Derived(p, st.frames, st.slots, st.world, s.args[0].value);
        t := DeliveryDone(p, st, s.output, [d], d.after, d.out);
      }
    } else {
      assert ArgsDerive(p, st, s.args, []) by { NoArgsDerive(p, st, s.args); }
      var ds := ArgsDerived(p, st, s.args, []);
      if ds != [] && !ds[|ds| - 1].out.Done? {
        t := DeliveryDone(p, st, s.output, ds, ds[|ds| - 1].after, ds[|ds| - 1].out);
      } else {
        GatheredByName(s.args, ds);
        t := DeliveryDone(p, st, s.output, ds, Before(st.world, ds, |ds|),
          Done(RecordV(s.t, Gathered(s.args, ds, map[]))));
      }
    }
  }

  lemma NoArgsDerive(p: Program, st: Store, args: seq<RArg>)
    ensures ArgsDerive(p, st, args, [])
  {
  }

  lemma DeliveryDone(p: Program, st: Store, output: string, ds: seq<Deriv>, w: World, v: Outcome<Value>)
    returns (t: Doing)
    ensures t.exprs == ds
    ensures v.Done? ==> Delivers(p, st, w, output, v.v, t.out, t.after)
    ensures !v.Done? ==> Ends(v, t.out) && t.after == st.(world := w)
  {
    if v.Done? {
      var d := Deliver(p, w, output, v.v);
      t := Doing(d.out, st.(world := d.world), ds, []);
      DeliversIsDeliver(p, st, w, output, v.v, t.out, t.after);
    } else {
      t := Doing(Lift(v), st.(world := w), ds, []);
    }
  }

  lemma {:induction false} BlockDone(p: Program, st: Store, stmts: seq<RStmt>, ds: seq<Deriv>) returns (t: Doing)
    ensures InBlock(p, st, stmts, t.out, t.after, t.steps) && t.exprs == ds
    decreases stmts, 2
  {
    hide Sequence;
    var steps := SequenceOf(p, Entered(st), stmts);
    t := Doing(OutOf(steps, None), Outside(BeforeStep(Entered(st), steps, |steps|)), ds, steps);
  }

  /** Every execution of a statement is the end of a derivation. */
  lemma {:induction false} DoneBy(p: Program, st: Store, s: RStmt) returns (t: Doing)
    ensures Does(p, st, s, t)
    decreases s, 0
  {
    hide EvalExpr, EvalBlock, Derives, InBlock, Simple, EmitsValue, EmitsRecord;
    if IsSimple(s) {
      hide EvalStmt;
      var d := Derived(p, st.frames, st.slots, st.world, ValueOf(s));
      var r := EvalStmt(p, st, s);
      t := Doing(r.out, r.store, [d], []);
      SimpleIsEval(p, st, s, d, r.out, r.store);
    } else if s.RBlock? {
      t := BlockDone(p, st, s.stmts, []);
    } else if s.RIf? {
      var d := Derived(p, st.frames, st.slots, st.world, s.cond);
      var st' := st.(world := d.after);
      if !d.out.Done? {
        t := Doing(Lift(d.out), st', [d], []);
      } else if !d.out.v.BoolV? {
        t := Doing(EnginePanic, st', [d], []);
      } else if d.out.v.b {
        t := BlockDone(p, st', s.consequence, [d]);
      } else if s.alternative.Some? {
        var a := DoneBy(p, st', s.alternative.value);
        t := Doing(a.out, a.after, [d], [a]);
      } else {
        t := Doing(Done(None), st', [d], []);
      }
    } else if s.REmit? {
      t := EmitDone(p, st, s);
    } else {
      t := Doing(EnginePanic, st, [], []);
    }
  }

  /** A statement ends so and leaves that state exactly if a derivation says so. */
  lemma ExecutionIsDerivation(p: Program, st: Store, s: RStmt, out: Outcome<Option<Value>>, after: Store)
    ensures EvalStmt(p, st, s) == Ran(out, after) <==> exists t :: Does(p, st, s, t) && t.out == out && t.after == after
  {
    hide EvalStmt, Does;
    var t := DoneBy(p, st, s);
    DoesIsEval(p, st, s, t);
    forall u | Does(p, st, s, u) ensures EvalStmt(p, st, s) == Ran(u.out, u.after) {
      DoesIsEval(p, st, s, u);
    }
  }

  // ---------- Activations ----------

  /** Exactly the declared inputs, each at the value bound to it. */
  ghost predicate HoldsInputs(decls: seq<RDecl>, inputs: map<string, Value>, frame: map<string, Value>) {
    && (forall n :: n in frame <==> InputType(decls, n).Some?)
    && (forall n | n in frame :: n in inputs && frame[n] == inputs[n])
  }

  lemma {:induction false} InputFrameExists(decls: seq<RDecl>, inputs: map<string, Value>, frame: map<string, Value>)
    ensures InputFrame(decls, inputs, frame).Success? <==> forall n | InputType(decls, n).Some? :: n in inputs
    decreases |decls|
  {
    if decls != [] {
      var d := decls[0];
      var next := if d.RInput? && d.name in inputs then frame[d.name := inputs[d.name]] else frame;
      InputFrameExists(decls[1..], inputs, next);
      if d.RInput? {
        assert InputType(decls, d.name).Some?;
      }
      forall n | InputType(decls[1..], n).Some? ensures InputType(decls, n).Some? {}
    }
  }

  /** The answer to a call that ran statements, from how they ended. */
  predicate Concludes<T>(out: Outcome<T>, answer: ApiResult) {
    match out
    case Done(_) => answer == Accepted
    case Trap(why) => answer == Trapped(why)
    case HostPanic => answer == Crashed(false)
    case EnginePanic => answer == Crashed(true)
  }

  /** The object after an activation: the guard down, the outermost frame, the cells and the world as they were left. */
  predicate LeavesObject(x: Exec, st: Store, y: Exec) {
    !y.inTick && y.slots == st.slots && y.world == st.world && y.top == if st.frames == [] then x.top
      else st.frames[|st.frames| - 1]
  }

  /**
   A Run runs exactly in an initialized program, outside activations, with every input bound: its statements in order,
   over a frame with the inputs and the top-level frame below it. Otherwise it is refused and changes nothing.
   */
  lemma RunIsDerivation(p: Program, x: Exec) returns (frame: map<string, Value>, steps: seq<Doing>)
    ensures var (y, answer) := Run(p, x);
      if x.world.stage == Initialized && !x.inTick && (forall n | InputType(p.code.decls, n).Some? ::
        n in x.world.inputs)
      then
        var st := Store([frame, x.top], x.slots, x.world);
        && HoldsInputs(p.code.decls, x.world.inputs, frame) && Sequence(p, st, p.code.runFn, steps)
        && LeavesObject(x, BeforeStep(st, steps, |steps|), y) && Concludes(OutOf(steps, None), answer)
      else y == x && answer.Rejected?
  {
    hide EvalBlock, Sequence;
    InputFrameExists(p.code.decls, x.world.inputs, map[]);
    var f := InputFrame(p.code.decls, x.world.inputs, map[]);
    frame, steps := map[], [];
    if f.Success? {
      frame := f.value;
      InputFrameIs(p.code.decls, x.world.inputs, map[]);
      var st := Store([frame, x.top], x.slots, x.world);
      steps := SequenceOf(p, st, p.code.runFn);
      SequenceIsEval(p, st, p.code.runFn, steps, None);
    }
  }

  /**
   Loading a constant is a let in the top-level frame; loading an empty slot with an initializer is an assignment to
   it.
   */
  lemma LoadIsStatement(p: Program, st: Store, d: RDecl)
    ensures d.RConst? ==> LoadDecl(p, st, d) == EvalStmt(p, st, RLet(d.name, d.value, d.t))
    ensures d.RSlotDecl? && d.slot.index < |st.slots| ==>
      LoadDecl(p, st, d)
      == if st.slots[d.slot.index].None? && d.init.Some?
        then EvalStmt(p, st, RAssignSlot(d.slot, d.init.value, d.slot.t))
         else Ran(Done(None), st)
    ensures d.RInput? || d.ROutput? ==> LoadDecl(p, st, d) == Ran(Done(None), st)
  {
    hide EvalExpr;
  }

  lemma {:induction false} AllSlotsFilled(slots: seq<Slot>, cells: Cells)
    ensures FirstEmpty(slots, cells).None? <==> forall s | s in slots :: s.index < |cells| && cells[s.index].Some?
  {
    if slots != [] {
      AllSlotsFilled(slots[1..], cells);
      assert slots == [slots[0]] + slots[1..];
    }
  }

  /**
   An Init loads the declarations and then runs its statements in a frame of their own. It is accepted exactly when
   all outputs are bound, nothing stopped on the way, and every slot has a value; the stage says which.
   */
  lemma InitIsDerivation(p: Program, x: Exec) returns (steps: seq<Doing>)
    requires x.world.stage == Created && !x.inTick
    ensures var (y, answer) := Init(p, x);
      var loaded := LoadDecls(p, Store([x.top], x.slots, x.world), p.code.decls);
      y.world.stage == (if answer.Accepted? then Initialized else FailedStage)
      && if exists n :: OutputType(p.code.decls, n).Some? && n !in x.world.outputs then
           answer.Rejected? && y == x.(world := x.world.(stage := FailedStage))
         else if !loaded.out.Done? then InitLeaves(x, loaded.store, y) && Concludes(loaded.out, answer)
         else if p.code.initFn.None? then InitLeaves(x, loaded.store, y)
           && InitAnswer(p, Done(None), loaded.store, answer)
         else
           var st := Entered(loaded.store);
           && Sequence(p, st, p.code.initFn.value, steps)
           && InitLeaves(x, Outside(BeforeStep(st, steps, |steps|)), y)
           && InitAnswer(p, OutOf(steps, None), BeforeStep(st, steps, |steps|), answer)
  {
    hide EvalBlock, Sequence, LoadDecls, FirstEmpty;
    NoMissingOutput(p.code.decls, x.world.outputs);
    var loaded := LoadDecls(p, Store([x.top], x.slots, x.world), p.code.decls);
    steps := [];
    AllSlotsFilled(Slots(p.code.decls), InitBody(p, Store([x.top], x.slots, x.world)).store.slots);
    if loaded.out.Done? && p.code.initFn.Some? {
      var st := Entered(loaded.store);
      assert st == Push(loaded.store);
      steps := SequenceOf(p, st, p.code.initFn.value);
      SequenceIsEval(p, st, p.code.initFn.value, steps, None);
    }
  }

  /** As after any activation, but for the stage. */
  predicate InitLeaves(x: Exec, st: Store, y: Exec) {
    LeavesObject(x, st, y.(world := y.world.(stage := st.world.stage)))
  }

  /** A completed Init is refused all the same if a slot was left empty. */
  predicate InitAnswer(p: Program, out: Outcome<Option<Value>>, st: Store, answer: ApiResult) {
    if !out.Done? then Concludes(out, answer)
    else if forall s | s in Slots(p.code.decls) :: s.index < |st.slots| && st.slots[s.index].Some?
      then answer == Accepted
    else answer.Rejected? && answer.why.LeftUninitialized?
  }
}
