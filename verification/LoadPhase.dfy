/**
 The load phase (evaluator/evaluator.go:144-200): a fold over the declarations in source order, which never
 evaluates the initializer of a slot the host has filled, reads no input and delivers nothing.
 */
module LoadPhase {
  import opened Wrappers
  import opened Tokens
  import opened Values
  import opened Registries
  import opened Rules
  import opened Scopes
  import opened Resolved
  import opened Typing
  import opened Semantics
  import opened Soundness
  import opened Lifecycle
  import opened Effects
  import opened Safety

  // ---------- A fold in source order ----------

  lemma {:induction false} LoadedOut(p: Program, st: Store, ds: seq<RDecl>)
    ensures LoadDecls(p, st, ds).out.Done? ==> LoadDecls(p, st, ds).out == Done(None)
    decreases |ds|
  {
    hide LoadDecl;
    if ds != [] && LoadDecl(p, st, ds[0]).out.Done? {
      LoadedOut(p, LoadDecl(p, st, ds[0]).store, ds[1..]);
    }
  }

  /** Loading a list of declarations is loading a first part of it and then, if that finishes, the rest. */
  lemma {:induction false} LoadInOrder(p: Program, st: Store, above: seq<RDecl>, below: seq<RDecl>)
    ensures var r := LoadDecls(p, st, above);
      LoadDecls(p, st, above + below) == if r.out.Done? then LoadDecls(p, r.store, below) else r
    decreases |above|
  {
    hide LoadDecl;
    if above == [] {
      assert above + below == below;
    } else {
      assert (above + below)[0] == above[0] && (above + below)[1..] == above[1..] + below;
      var r := LoadDecl(p, st, above[0]);
      if r.out.Done? {
        LoadInOrder(p, r.store, above[1..], below);
      }
    }
  }

  predicate CellsStay(before: Cells, after: Cells) {
    |after| == |before| && forall i | 0 <= i < |before| && before[i].Some? :: after[i] == before[i]
  }

  /** A filled slot keeps its value throughout: the load phase only fills empty ones. */
  lemma {:induction false} LoadKeepsFilled(p: Program, st: Store, ds: seq<RDecl>)
    ensures CellsStay(st.slots, LoadDecls(p, st, ds).store.slots)
    decreases |ds|
  {
    if ds != [] {
      var r := LoadDecl(p, st, ds[0]);
      assert CellsStay(st.slots, r.store.slots) by { hide EvalExpr; }
      hide LoadDecl;
      if r.out.Done? {
        LoadKeepsFilled(p, r.store, ds[1..]);
      }
    }
  }

  /** So an initial value depends on the host's fills and the declarations above alone, whatever comes below. */
  lemma BelowDoesNotMatter(p: Program, st: Store, above: seq<RDecl>, below: seq<RDecl>, other: seq<RDecl>, i: nat)
    requires i < |LoadDecls(p, st, above).store.slots| && LoadDecls(p, st, above).store.slots[i].Some?
    ensures var a, b := LoadDecls(p, st, above + below).store.slots, LoadDecls(p, st, above + other).store.slots;
      i < |a| == |b| && a[i] == b[i] == LoadDecls(p, st, above).store.slots[i]
  {
    hide LoadDecls;
    var r := LoadDecls(p, st, above);
    LoadInOrder(p, st, above, below);
    LoadInOrder(p, st, above, other);
    LoadKeepsFilled(p, r.store, below);
    LoadKeepsFilled(p, r.store, other);
  }

  /** Before a declaration is loaded: one frame, holding no name that is not in scope. */
  ghost predicate AtTop(cx: Ctx, frames: Frames) {
    TopOnly(cx) && cx.phase == Loading && Homed(cx, frames)
  }

  lemma LoadDeclAtTop(p: Program, cx: Ctx, st: Store, d: RDecl)
    requires AtTop(cx, st.frames)
    ensures AtTop(AfterDecl(cx, d), LoadDecl(p, st, d).store.frames)
  {
    hide EvalExpr;
    var before, after := st.frames, LoadDecl(p, st, d).store.frames;
    forall i, x | 0 <= i < |after| && x in after[i] ensures HomeOf(AfterDecl(cx, d), i, x) {
      assert x in before[0] ==> HomeOf(cx, 0, x);
    }
  }

  lemma {:induction false} LoadDeclsAtTop(p: Program, cx: Ctx, st: Store, ds: seq<RDecl>)
    requires AtTop(cx, st.frames)
    ensures LoadDecls(p, st, ds).out.Done? ==> AtTop(AfterDecls(cx, ds), LoadDecls(p, st, ds).store.frames)
    decreases |ds|
  {
    hide LoadDecl, AtTop;
    if ds != [] {
      LoadDeclAtTop(p, cx, st, ds[0]);
      var r := LoadDecl(p, st, ds[0]);
      if r.out.Done? {
        LoadDeclsAtTop(p, AfterDecl(cx, ds[0]), r.store, ds[1..]);
      }
    }
  }

  /** A name of the top frame keeps its value: what a declaration binds was not in scope. */
  lemma {:induction false} LoadKeepsBound(p: Program, cx: Ctx, st: Store, ds: seq<RDecl>, x: string)
    requires AtTop(cx, st.frames) && WtDecls(cx, ds) && x in st.frames[0]
    ensures var after := LoadDecls(p, st, ds).store.frames;
      |after| == 1 && x in after[0] && after[0][x] == st.frames[0][x]
    decreases |ds|
  {
    if ds != [] {
      var r := LoadDecl(p, st, ds[0]);
      LoadDeclAtTop(p, cx, st, ds[0]);
      assert |r.store.frames| == 1 && x in r.store.frames[0] && r.store.frames[0][x] == st.frames[0][x] by {
        hide EvalExpr;
        assert HomeOf(cx, 0, x);
        LookupNone(cx.frames, DeclSymbol(cx.reg, ds[0]), 0);
      }
      hide LoadDecl;
      if r.out.Done? {
        LoadKeepsBound(p, AfterDecl(cx, ds[0]), r.store, ds[1..], x);
      }
    }
  }

  lemma {:induction false} DeclsSplit(cx: Ctx, above: seq<RDecl>, below: seq<RDecl>)
    requires WtDecls(cx, above + below)
    ensures WtDecls(AfterDecls(cx, above), below)
    decreases |above|
  {
    if above == [] {
      assert above + below == below;
    } else {
      assert (above + below)[0] == above[0] && (above + below)[1..] == above[1..] + below;
      DeclsSplit(AfterDecl(cx, above[0]), above[1..], below);
    }
  }

  /**
   The same of constants: one bound when the declarations above have been loaded has that value however the
   program goes on, as long as what comes below is well typed, so that it declares no name again.
   */
  lemma ConstantsFromAbove(p: Program, cx: Ctx, st: Store, above: seq<RDecl>, below: seq<RDecl>, x: string)
    requires AtTop(cx, st.frames) && WtDecls(cx, above + below)
    requires LoadDecls(p, st, above).store.frames != [] && x in LoadDecls(p, st, above).store.frames[0]
    ensures var after := LoadDecls(p, st, above + below).store.frames;
      |after| == 1 && x in after[0] && after[0][x] == LoadDecls(p, st, above).store.frames[0][x]
  {
    hide LoadDecls, AfterDecls, WtDecls;
    LoadInOrder(p, st, above, below);
    LoadDeclsAtTop(p, cx, st, above);
    var r := LoadDecls(p, st, above);
    if r.out.Done? {
      DeclsSplit(cx, above, below);
      LoadKeepsBound(p, AfterDecls(cx, above), r.store, below, x);
    } else {
      LoadKeepsOne(p, st, above);
    }
  }

  lemma {:induction false} LoadKeepsOne(p: Program, st: Store, ds: seq<RDecl>)
    ensures |LoadDecls(p, st, ds).store.frames| == |st.frames|
    decreases |ds|
  {
    if ds != [] {
      var r := LoadDecl(p, st, ds[0]);
      assert |r.store.frames| == |st.frames| by { hide EvalExpr; }
      hide LoadDecl;
      if r.out.Done? {
        LoadKeepsOne(p, r.store, ds[1..]);
      }
    }
  }

  /** The same declaration, or the same slot, filled, with another initializer. */
  predicate SameOrFilled(cells: Cells, d: RDecl, e: RDecl) {
    d == e || (d.RSlotDecl? && e.RSlotDecl? && d.slot == e.slot && d.slot.index < |cells| && cells[d.slot.index].Some?)
  }

  /** The initializer of a slot the host has filled is never evaluated: any other one would do, or none. */
  lemma {:induction false} FilledSlotsSkip(p: Program, st: Store, ds: seq<RDecl>, es: seq<RDecl>)
    requires |ds| == |es| && forall i | 0 <= i < |ds| :: SameOrFilled(st.slots, ds[i], es[i])
    ensures LoadDecls(p, st, ds) == LoadDecls(p, st, es)
    decreases |ds|
  {
    if ds != [] {
      assert SameOrFilled(st.slots, ds[0], es[0]);
      var r := LoadDecl(p, st, ds[0]);
      assert r == LoadDecl(p, st, es[0]);
      assert CellsStay(st.slots, r.store.slots) by { hide EvalExpr; }
      hide LoadDecl;
      if r.out.Done? {
        forall i | 0 <= i < |ds| - 1 ensures SameOrFilled(r.store.slots, ds[1..][i], es[1..][i]) {
          assert SameOrFilled(st.slots, ds[i + 1], es[i + 1]);
        }
        FilledSlotsSkip(p, r.store, ds[1..], es[1..]);
      }
    }
  }

  // ---------- Init delivers nothing ----------

  /** No emit anywhere inside. */
  predicate Quiet(s: RStmt)
    decreases s
  {
    match s
    case REmit(_, _, _) => false
    case RBlock(stmts) => forall t | t in stmts :: Quiet(t)
    case RIf(_, consequence, alternative) =>
      (forall t | t in consequence :: Quiet(t)) && (alternative.Some? ==> Quiet(alternative.value))
    case _ => true
  }

  lemma {:induction false} InitIsQuiet(cx: Ctx, s: RStmt)
    requires cx.phase != InRun && WtStmt(cx, s)
    ensures Quiet(s)
    decreases s, 0
  {
    match s
    case RBlock(stmts) => InitBlockIsQuiet(cx.Enter(), stmts);
    case RIf(_, consequence, alternative) =>
      InitBlockIsQuiet(cx.Enter(), consequence);
      if alternative.Some? {
        InitIsQuiet(cx, alternative.value);
      }
    case _ =>
  }

  lemma {:induction false} InitBlockIsQuiet(cx: Ctx, stmts: seq<RStmt>)
    requires cx.phase != InRun && WtBlock(cx, stmts)
    ensures forall t | t in stmts :: Quiet(t)
    decreases stmts, 1
  {
    if stmts != [] {
      InitIsQuiet(cx, stmts[0]);
      InitBlockIsQuiet(After(cx, stmts[0]), stmts[1..]);
    }
  }

  lemma {:induction false} QuietKeepsTrace(p: Program, st: Store, s: RStmt)
    requires Quiet(s)
    ensures EvalStmt(p, st, s).store.world.trace == st.world.trace
    decreases s, 0
  {
    hide EvalExpr;
    match s
    case RBadStmt =>
    case RBlock(stmts) => QuietBlockKeepsTrace(p, Push(st), stmts, None);
    case RIf(cond, consequence, alternative) =>
      ExprKeepsTrace(p, st.frames, st.slots, st.world, cond);
      var st' := st.(world := Evaluate(p, st, cond).world);
      QuietBlockKeepsTrace(p, Push(st'), consequence, None);
      if alternative.Some? {
        QuietKeepsTrace(p, st', alternative.value);
      }
    case RExprStmt(e) => ExprKeepsTrace(p, st.frames, st.slots, st.world, e);
    case RLet(_, e, _) => ExprKeepsTrace(p, st.frames, st.slots, st.world, e);
    case RAssignName(_, e, _) => ExprKeepsTrace(p, st.frames, st.slots, st.world, e);
    case RAssignSlot(_, e, _) => ExprKeepsTrace(p, st.frames, st.slots, st.world, e);
    case REmit(_, _, _) =>
  }

  lemma {:induction false} QuietBlockKeepsTrace(p: Program, st: Store, stmts: seq<RStmt>, last: Option<Value>)
    requires forall t | t in stmts :: Quiet(t)
    ensures EvalBlock(p, st, stmts, last).store.world.trace == st.world.trace
    decreases stmts, 1
  {
    hide EvalStmt, Quiet;
    if stmts != [] {
      QuietKeepsTrace(p, st, stmts[0]);
      var r := EvalStmt(p, st, stmts[0]);
      if r.out.Done? {
        QuietBlockKeepsTrace(p, r.store, stmts[1..], r.out.v);
      }
    }
  }

  lemma {:induction false} LoadKeepsTrace(p: Program, st: Store, ds: seq<RDecl>)
    ensures LoadDecls(p, st, ds).store.world.trace == st.world.trace
    decreases |ds|
  {
    hide EvalExpr;
    if ds != [] {
      var d := ds[0];
      if d.RConst? {
        ExprKeepsTrace(p, st.frames, st.slots, st.world, d.value);
      } else if d.RSlotDecl? && d.init.Some? {
        ExprKeepsTrace(p, st.frames, st.slots, st.world, d.init.value);
      }
      var r := LoadDecl(p, st, d);
      if r.out.Done? {
        LoadKeepsTrace(p, r.store, ds[1..]);
      }
    }
  }

  /** Init of a well-typed program delivers nothing, however it ends. */
  lemma InitDeliversNothing(p: Program, start: Ctx, x: Exec)
    requires start.phase == Loading && WtProgram(start, p.code)
    ensures Init(p, x).0.world.trace == x.world.trace
  {
    var st := Store([x.top], x.slots, x.world);
    LoadKeepsTrace(p, st, p.code.decls);
    if p.code.initFn.Some? {
      InitBlockIsQuiet(AfterDecls(start, p.code.decls).(phase := InInit).Enter(), p.code.initFn.value);
      QuietBlockKeepsTrace(p, Push(LoadDecls(p, st, p.code.decls).store), p.code.initFn.value, None);
    }
  }

  // ---------- Init reads no input ----------

  /** Equal but for what is bound to the inputs. */
  predicate Blind(w: World, v: World) {
    w.(inputs := map[]) == v.(inputs := map[])
  }

  lemma {:induction false} NestedBlind(p: Program, w: World, v: World, cs: seq<ApiCall>)
    requires Blind(w, v)
    ensures Blind(NestedCalls(p, w, cs), NestedCalls(p, v, cs))
    decreases |cs|
  {
    if cs != [] {
      NestedBlind(p, NestedCall(p, w, cs[0]), NestedCall(p, v, cs[0]), cs[1..]);
    }
  }

  lemma SettleBlind(p: Program, w: World, v: World, a: Applied)
    requires Blind(w, v)
    ensures Alike(Settle(p, w, a), Settle(p, v, a))
  {
    NestedBlind(p, w.(clock := w.clock + 1), v.(clock := v.clock + 1), a.nested);
  }

  /** The same outcome, and worlds that differ in inputs only. */
  predicate Alike<T(==)>(a: Evaluated<T>, b: Evaluated<T>) {
    a.out == b.out && Blind(a.world, b.world)
  }

  lemma {:induction false} ExprBlind(p: Program, frames: Frames, slots: Cells, w: World, v: World, e: RExpr)
    requires Blind(w, v)
    ensures Alike(EvalExpr(p, frames, slots, w, e), EvalExpr(p, frames, slots, v, e))
    decreases e, 0
  {
    hide Settle, ApplyBinary, ApplyUnary, ApplyMember, ApplyCall, ApplyCoerce;
    match e
    case RInfix(_, left, right, _, fn) =>
      ExprBlind(p, frames, slots, w, v, left);
      var l, l' := EvalExpr(p, frames, slots, w, left), EvalExpr(p, frames, slots, v, left);
      ExprBlind(p, frames, slots, l.world, l'.world, right);
      var r, r' := EvalExpr(p, frames, slots, l.world, right), EvalExpr(p, frames, slots, l'.world, right);
      if l.out.Done? && r.out.Done? {
        SettleBlind(p, r.world, r'.world, ApplyBinary(p.host, fn, r.world.clock, l.out.v, r.out.v));
      }
    case RLogical(_, left, right) =>
      ExprBlind(p, frames, slots, w, v, left);
      ExprBlind(p, frames, slots, EvalExpr(p, frames, slots, w, left).world, EvalExpr(p, frames, slots, v, left).world,
        right);
    case RPrefix(_, right, _, fn) =>
      ExprBlind(p, frames, slots, w, v, right);
      var r, r' := EvalExpr(p, frames, slots, w, right), EvalExpr(p, frames, slots, v, right);
      if r.out.Done? {
        SettleBlind(p, r.world, r'.world, ApplyUnary(p.host, fn, r.world.clock, r.out.v));
      }
    case RCoerce(inner, _, _) => ExprBlind(p, frames, slots, w, v, inner);
    case RMember(receiver, _, _, fn) =>
      ExprBlind(p, frames, slots, w, v, receiver);
      var o, o' := EvalExpr(p, frames, slots, w, receiver), EvalExpr(p, frames, slots, v, receiver);
      if o.out.Done? {
        SettleBlind(p, o.world, o'.world, ApplyMember(p.host, fn, o.world.clock, o.out.v));
      }
    case RCall(receiver, _, args, _, fn) =>
      ExprBlind(p, frames, slots, w, v, receiver);
      var o, o' := EvalExpr(p, frames, slots, w, receiver), EvalExpr(p, frames, slots, v, receiver);
      ArgsBlind(p, frames, slots, o.world, o'.world, args, map[]);
      var a, a' := EvalArgs(p, frames, slots, o.world, args, map[]), EvalArgs(p, frames, slots, o'.world, args, map[]);
      if o.out.Done? && a.out.Done? {
        SettleBlind(p, a.world, a'.world, ApplyCall(p.host, fn, a.world.clock, o.out.v, a.out.v));
      }
    case _ =>
  }

  lemma {:induction false} ArgsBlind(p: Program, frames: Frames, slots: Cells, w: World, v: World, args: seq<RArg>,
      named: map<string, Value>)
    requires Blind(w, v)
    ensures Alike(EvalArgs(p, frames, slots, w, args, named), EvalArgs(p, frames, slots, v, args, named))
    decreases args, 1
  {
    if args != [] {
      var first := args[0];
      assert first.value < first;
      ExprBlind(p, frames, slots, w, v, first.value);
      var a, b := EvalExpr(p, frames, slots, w, first.value), EvalExpr(p, frames, slots, v, first.value);
      if a.out.Done? {
        ArgsBlind(p, frames, slots, a.world, b.world, args[1..], named[first.name := a.out.v]);
      }
    }
  }

  /** Stores that differ in the inputs only. */
  predicate BlindStores(s: Store, t: Store) {
    s.frames == t.frames && s.slots == t.slots && Blind(s.world, t.world)
  }

  predicate AlikeRuns(a: Ran, b: Ran) {
    a.out == b.out && BlindStores(a.store, b.store)
  }

  lemma {:induction false} StmtBlind(p: Program, st: Store, tt: Store, s: RStmt)
    requires BlindStores(st, tt)
    ensures AlikeRuns(EvalStmt(p, st, s), EvalStmt(p, tt, s))
    decreases s, 0
  {
    hide EvalExpr;
    match s
    case RBadStmt =>
    case RBlock(stmts) => BlockBlind(p, Push(st), Push(tt), stmts, None);
    case RIf(_, _, _) => IfBlind(p, st, tt, s);
    case REmit(_, _, _) => EmitBlind(p, st, tt, s);
    case RExprStmt(e) => ExprBlind(p, st.frames, st.slots, st.world, tt.world, e);
    case _ => ExprBlind(p, st.frames, st.slots, st.world, tt.world, s.value);
  }

  lemma {:induction false} IfBlind(p: Program, st: Store, tt: Store, s: RStmt)
    requires s.RIf? && BlindStores(st, tt)
    ensures AlikeRuns(EvalStmt(p, st, s), EvalStmt(p, tt, s))
    decreases s, 0, 0
  {
    hide EvalExpr;
    ExprBlind(p, st.frames, st.slots, st.world, tt.world, s.cond);
    var c, d := Evaluate(p, st, s.cond), Evaluate(p, tt, s.cond);
    var st', tt' := st.(world := c.world), tt.(world := d.world);
    BlockBlind(p, Push(st'), Push(tt'), s.consequence, None);
    if s.alternative.Some? {
      StmtBlind(p, st', tt', s.alternative.value);
    }
  }

  lemma EmitBlind(p: Program, st: Store, tt: Store, s: RStmt)
    requires s.REmit? && BlindStores(st, tt)
    ensures AlikeRuns(EvalStmt(p, st, s), EvalStmt(p, tt, s))
  {
    hide EvalExpr, EvalArgs, NestedCalls;
    assert Alike(EmittedValue(p, st, s.args, s.t), EmittedValue(p, tt, s.args, s.t)) by {
      ArgsBlind(p, st.frames, st.slots, st.world, tt.world, s.args, map[]);
      if s.args != [] {
        ExprBlind(p, st.frames, st.slots, st.world, tt.world, s.args[0].value);
      }
    }
    var v, u := EmittedValue(p, st, s.args, s.t), EmittedValue(p, tt, s.args, s.t);
    if v.out.Done? && s.output in v.world.outputs {
      var sink := v.world.outputs[s.output];
      var sent := [Emission(s.output, sink, v.out.v)];
      NestedBlind(p, v.world.(clock := v.world.clock + 1, trace := v.world.trace + sent),
                  u.world.(clock := u.world.clock + 1, trace := u.world.trace + sent),
                    p.host.emit(sink, v.world.clock, v.out.v).nested);
    }
  }

  lemma {:induction false} BlockBlind(p: Program, st: Store, tt: Store, stmts: seq<RStmt>, last: Option<Value>)
    requires BlindStores(st, tt)
    ensures AlikeRuns(EvalBlock(p, st, stmts, last), EvalBlock(p, tt, stmts, last))
    decreases stmts, 1
  {
    hide EvalStmt;
    if stmts != [] {
      StmtBlind(p, st, tt, stmts[0]);
      var r, q := EvalStmt(p, st, stmts[0]), EvalStmt(p, tt, stmts[0]);
      if r.out.Done? {
        BlockBlind(p, r.store, q.store, stmts[1..], r.out.v);
      }
    }
  }

  lemma {:induction false} LoadBlind(p: Program, st: Store, tt: Store, ds: seq<RDecl>)
    requires BlindStores(st, tt)
    ensures AlikeRuns(LoadDecls(p, st, ds), LoadDecls(p, tt, ds))
    decreases |ds|
  {
    hide EvalExpr;
    if ds != [] {
      var d := ds[0];
      if d.RConst? {
        ExprBlind(p, st.frames, st.slots, st.world, tt.world, d.value);
      } else if d.RSlotDecl? && d.init.Some? {
        ExprBlind(p, st.frames, st.slots, st.world, tt.world, d.init.value);
      }
      var r, q := LoadDecl(p, st, d), LoadDecl(p, tt, d);
      if r.out.Done? {
        LoadBlind(p, r.store, q.store, ds[1..]);
      }
    }
  }

  /** Init comes to the same end, and leaves the same slots and constants, whatever is bound to the inputs. */
  lemma InitReadsNoInput(p: Program, x: Exec, inputs: map<string, Value>)
    ensures var y := x.(world := x.world.(inputs := inputs));
      var (a, r) := Init(p, x); var (b, q) := Init(p, y);
      r == q && a.slots == b.slots && a.top == b.top && a.inTick == b.inTick && Blind(a.world, b.world)
  {
    hide LoadDecls, EvalBlock;
    var y := x.(world := x.world.(inputs := inputs));
    var st, tt := Store([x.top], x.slots, x.world), Store([x.top], x.slots, y.world);
    LoadBlind(p, st, tt, p.code.decls);
    if p.code.initFn.Some? {
      BlockBlind(p, Push(LoadDecls(p, st, p.code.decls).store), Push(LoadDecls(p, tt, p.code.decls).store),
        p.code.initFn.value, None);
    }
  }

  // ---------- Slots ----------

  predicate DistinctSlots(slots: seq<Slot>) {
    forall i, j | 0 <= i < j < |slots| :: !(slots[i].kind == slots[j].kind && slots[i].name == slots[j].name)
  }

  /** A slot declared below a symbol in scope does not bind it again. */
  lemma {:induction false} SlotsAvoid(cx: Ctx, ds: seq<RDecl>, kind: string, name: string)
    requires TopOnly(cx) && WtDecls(cx, ds)
    requires var sym := if kind in cx.reg.kinds then SlotSymbol(cx.reg.kinds[kind], name) else name; sym in cx.frames[0]
    ensures forall s | s in Slots(ds) :: !(s.kind == kind && s.name == name)
    decreases |ds|
  {
    if ds != [] {
      LookupNone(cx.frames, DeclSymbol(cx.reg, ds[0]), 0);
      SlotsAvoid(AfterDecl(cx, ds[0]), ds[1..], kind, name);
    }
  }

  /** No two slots of a well-typed program share kind and name. */
  lemma {:induction false} SlotsAreDistinct(cx: Ctx, ds: seq<RDecl>)
    requires TopOnly(cx) && WtDecls(cx, ds)
    ensures DistinctSlots(Slots(ds))
    decreases |ds|
  {
    if ds != [] {
      var next := AfterDecl(cx, ds[0]);
      SlotsAreDistinct(next, ds[1..]);
      if ds[0].RSlotDecl? {
        SlotsAvoid(next, ds[1..], ds[0].slot.kind, ds[0].slot.name);
        var all, rest := Slots(ds), Slots(ds[1..]);
        assert all == [ds[0].slot] + rest;
        forall i, j | 0 <= i < j < |all| ensures !(all[i].kind == all[j].kind && all[i].name == all[j].name) {
          assert all[j] == rest[j - 1] && rest[j - 1] in rest;
          if i > 0 {
            assert all[i] == rest[i - 1];
          }
        }
      } else {
        assert Slots(ds) == Slots(ds[1..]);
      }
    }
  }

  lemma {:induction false} FindSlotFirst(slots: seq<Slot>, i: nat)
    requires i < |slots| && DistinctSlots(slots)
    ensures FindSlot(slots, slots[i].kind, slots[i].name) == Some(i)
  {
    if i > 0 {
      assert slots[1..][i - 1] == slots[i];
      assert !(slots[0].kind == slots[i].kind && slots[0].name == slots[i].name);
      forall a, b | 0 <= a < b < |slots[1..]|
        ensures !(slots[1..][a].kind == slots[1..][b].kind && slots[1..][a].name == slots[1..][b].name)
      {
        assert slots[1..][a] == slots[a + 1] && slots[1..][b] == slots[b + 1];
      }
      FindSlotFirst(slots[1..], i - 1);
    }
  }

  /** The handle a host gets for a kind and name and the references of the script reach the same cell. */
  lemma HandleReachesCell(p: Program, start: Ctx, i: nat)
    requires TopOnly(start) && start.slots == [] && WtDecls(start, p.code.decls) && i < |Slots(p.code.decls)|
    ensures var slot := Slots(p.code.decls)[i];
      slot.index == i && FindSlot(Slots(p.code.decls), slot.kind, slot.name) == Some(i)
  {
    SlotsNumbered(start, p.code.decls);
    SlotsAreDistinct(start, p.code.decls);
    FindSlotFirst(Slots(p.code.decls), i);
  }
}
