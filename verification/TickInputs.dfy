/**
 What a tick reads of its inputs (evaluator/evaluator.go:219-237, evaluator/env.go:31-46): the values bound when it
 started, at every point of it, since no statement changes an input's entry in the function's own frame.
 */
module TickInputs {
  import opened Wrappers
  import opened Tokens
  import opened Values
  import opened Rules
  import opened WellFormed
  import opened Scopes
  import opened Resolved
  import opened Typing
  import opened Semantics
  import opened Soundness
  import opened RunSafety
  import opened Lifecycle
  import opened Safety

  /** The frame of the function itself, between the top-level one and those of inner blocks. */
  function OwnFrame(frames: Frames): map<string, Value>
    requires |frames| > 1
  {
    frames[|frames| - 2]
  }

  predicate IsInput(cx: Ctx, x: string) {
    cx.frames != [] && x in Top(cx.frames) && Top(cx.frames)[x].kind == KInput
  }

  ghost predicate InputsStay(cx: Ctx, before: Frames, after: Frames) {
    && |before| == |after| > 1
    && forall x | IsInput(cx, x) && x in OwnFrame(before) ::
      x in OwnFrame(after) && OwnFrame(after)[x] == OwnFrame(before)[x]
  }

  lemma LetKeepsInputs(p: Program, cx: Ctx, st: Store, s: RStmt)
    requires Poised(p, cx, st) && s.RLet? && WtStmt(cx, s)
    ensures InputsStay(cx, st.frames, EvalStmt(p, st, s).store.frames)
  {
    hide EvalExpr, Ready;
    LookupNone(cx.frames, s.name, |cx.frames| - 1);
  }

  lemma AssignKeepsInputs(p: Program, cx: Ctx, st: Store, s: RStmt)
    requires Poised(p, cx, st) && s.RAssignName? && WtStmt(cx, s)
    ensures InputsStay(cx, st.frames, EvalStmt(p, st, s).store.frames)
  {
    hide EvalStmt, Sound;
    AssignNameSafe(p, cx, st, s);
    var at := LookupIndex(cx.frames, s.target);
    assert s.target !in Top(cx.frames);
    var before, after := OwnFrame(st.frames), OwnFrame(EvalStmt(p, st, s).store.frames);
    forall x | IsInput(cx, x) && x in before ensures x in after && after[x] == before[x] {
      assert x in before - {s.target} && (after - {s.target})[x] == (before - {s.target})[x];
    }
  }

  /** No statement, finished or not, changes what an input reads. */
  lemma {:induction false} StmtKeepsInputs(p: Program, cx: Ctx, st: Store, s: RStmt)
    requires Poised(p, cx, st) && WtStmt(cx, s)
    ensures InputsStay(cx, st.frames, EvalStmt(p, st, s).store.frames)
    decreases s, 1
  {
    hide EvalExpr, Ready;
    match s
    case RLet(_, _, _) => LetKeepsInputs(p, cx, st, s);
    case RAssignName(_, _, _) => AssignKeepsInputs(p, cx, st, s);
    case RBlock(stmts) => InnerBlockKeepsInputs(p, cx, st, stmts);
    case RIf(_, _, _) => IfKeepsInputs(p, cx, st, s);
    case _ =>
  }

  lemma {:induction false} IfKeepsInputs(p: Program, cx: Ctx, st: Store, s: RStmt)
    requires Poised(p, cx, st) && s.RIf? && WtStmt(cx, s)
    ensures InputsStay(cx, st.frames, EvalStmt(p, st, s).store.frames)
    decreases s, 0
  {
    hide EvalExpr, Valued;
    EvalExprSafe(p, cx, st.frames, st.slots, st.world, s.cond);
    var c := Evaluate(p, st, s.cond);
    if c.out.Done? {
      CoreValues(p.reg, c.out.v);
      var st' := st.(world := c.world);
      if c.out.v.b {
        InnerBlockKeepsInputs(p, cx, st', s.consequence);
      } else if s.alternative.Some? {
        StmtKeepsInputs(p, cx, st', s.alternative.value);
      }
    }
  }

  lemma {:induction false} InnerBlockKeepsInputs(p: Program, cx: Ctx, st: Store, stmts: seq<RStmt>)
    requires Poised(p, cx, st) && WtBlock(cx.Enter(), stmts)
    ensures InputsStay(cx, st.frames, Pop(EvalBlock(p, Push(st), stmts, None)).store.frames)
    decreases stmts, 3
  {
    hide EvalBlock, Ready;
    PushPoised(p, cx, st);
    BlockKeepsInputs(p, cx.Enter(), Push(st), stmts, None);
    assert Top(cx.Enter().frames) == Top(cx.frames);
    assert forall x :: IsInput(cx.Enter(), x) <==> IsInput(cx, x);
  }

  lemma {:induction false} BlockKeepsInputs(p: Program, cx: Ctx, st: Store, stmts: seq<RStmt>, last: Option<Value>)
    requires Poised(p, cx, st) && WtBlock(cx, stmts)
    ensures InputsStay(cx, st.frames, EvalBlock(p, st, stmts, last).store.frames)
    decreases stmts, 2
  {
    hide EvalStmt, WtStmt, Ready;
    if stmts != [] {
      StmtKeepsInputs(p, cx, st, stmts[0]);
      var r := EvalStmt(p, st, stmts[0]);
      if r.out.Done? {
        EvalStmtSafe(p, cx, st, stmts[0]);
        var next := After(cx, stmts[0]);
        assert Top(next.frames) == Top(cx.frames);
        BlockKeepsInputs(p, next, r.store, stmts[1..], r.out.v);
        assert forall x :: IsInput(next, x) <==> IsInput(cx, x);
      }
    }
  }

  /** And what the function's own frame holds for an input is what its name reads, however deep the block. */
  lemma InputReads(p: Program, cx: Ctx, st: Store, x: string)
    requires Poised(p, cx, st) && IsInput(cx, x) && x in OwnFrame(st.frames)
    ensures Lookup(st.frames, x) == Some(OwnFrame(st.frames)[x])
  {
    if Lookup(st.frames, x).None? {
      LookupNone(st.frames, x, |st.frames| - 2);
    } else {
      var i := LookupIndex(st.frames, x);
      assert HomeOf(cx, i, x);
    }
  }

  lemma {:induction false} PrefixTyped(cx: Ctx, stmts: seq<RStmt>, k: nat)
    requires k <= |stmts| && WtBlock(cx, stmts)
    ensures WtBlock(cx, stmts[..k])
    decreases k
  {
    if k > 0 {
      PrefixTyped(After(cx, stmts[0]), stmts[1..], k - 1);
      assert stmts[..k][1..] == stmts[1..][..k - 1];
    }
  }

  /** After any number of the statements of Run, even if one of them stopped it, every input reads as it was bound. */
  lemma RunReadsInputs(p: Program, start: Ctx, x: Exec, frame: map<string, Value>, k: nat, y: string)
    requires ProgramOk(p, start) && ExecOk(p, start, x) && x.world.stage == Initialized && k <= |p.code.runFn|
    requires InputFrame(p.code.decls, x.world.inputs, map[]) == Success(frame) && InputType(p.code.decls, y).Some?
    ensures var r := EvalBlock(p, Store([frame, x.top], x.slots, x.world), p.code.runFn[..k], None);
      y in x.world.inputs && Lookup(r.store.frames, y) == Some(x.world.inputs[y])
  {
    hide EvalBlock, Poised, ExecOk, WtBlock, WtDecls;
    var cx := Scope(p, start).(phase := InRun).Enter();
    var st := Store([frame, x.top], x.slots, x.world);
    RunPoised(p, start, x, frame);
    PrefixTyped(cx, p.code.runFn, k);
    BlockKeepsInputs(p, cx, st, p.code.runFn[..k], None);
    InputFrameIs(p.code.decls, x.world.inputs, map[]);
    InputsInScope(start, p.code.decls, y);
    assert Top(cx.frames) == Top(Scope(p, start).frames);
    assert IsInput(cx, y);
  }
}
