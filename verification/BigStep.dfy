/**
 The meaning of expressions as derivations (evaluator/evaluator.go:377-531): one rule per form says which operands
 are evaluated, in what order and from what world, which of their values reach the rule, and what comes of it. The
 evaluator is proved to be exactly this relation.
 */
module BigStep {
  import opened Wrappers
  import opened Tokens
  import opened Values
  import opened Registries
  import opened Rules
  import opened Scopes
  import opened Resolved
  import opened Semantics

  /** How an evaluation ended, in what world, and the evaluations of the operands it needed. */
  datatype Deriv = Deriv(out: Outcome<Value>, after: World, operands: seq<Deriv>)

  /** The operands of an expression in the order of their evaluation. */
  function Operands(e: RExpr): seq<RExpr> {
    match e
    case RInfix(_, left, right, _, _) => [left, right]
    case RLogical(_, left, right) => [left, right]
    case RPrefix(_, right, _, _) => [right]
    case RCoerce(inner, _, _) => [inner]
    case RMember(receiver, _, _, _) => [receiver]
    case RCall(receiver, _, args, _, _) => [receiver] + ArgValues(args)
    case _ => []
  }

  function ArgValues(args: seq<RArg>): seq<RExpr> {
    seq(|args|, i requires 0 <= i < |args| => args[i].value)
  }

  /** The world the i-th of some evaluations in sequence starts from. */
  function Before(w: World, ds: seq<Deriv>, i: nat): World
    requires i <= |ds|
  {
    if i == 0 then w else ds[i - 1].after
  }

  /**
   Operands are evaluated one after the other, each in the world the one before it left, until one does not finish.
   */
  ghost predicate Derives(p: Program, frames: Frames, slots: Cells, w: World, e: RExpr, d: Deriv)
    decreases d
  {
    && |d.operands| <= |Operands(e)|
    && (forall i | 0 <= i < |d.operands| ::
      Derives(p, frames, slots, Before(w, d.operands, i), Operands(e)[i], d.operands[i]))
    && (forall i | 0 <= i < |d.operands| - 1 :: d.operands[i].out.Done?)
    && Rule(p, frames, slots, w, e, d)
  }

  /** The last operand evaluated did not finish, and so neither did the expression. */
  predicate Stopped(d: Deriv) {
    d.operands != [] && var last := d.operands[|d.operands| - 1];
      !last.out.Done? && d.out == last.out && d.after == last.after
  }

  /** All of the first n operands have values. */
  predicate HasValues(d: Deriv, n: nat) {
    |d.operands| == n && forall i | 0 <= i < n :: d.operands[i].out.Done?
  }

  /** The world after the operands. */
  function End(w: World, d: Deriv): World {
    Before(w, d.operands, |d.operands|)
  }

  /** A rule's answer, one more host call counted, and the calls it made carried out. */
  predicate Answers(p: Program, a: Applied, w: World, d: Deriv) {
    d.out == a.out && d.after == NestedCalls(p, w.(clock := w.clock + 1), a.nested)
  }

  function Truth(op: TokenType, a: bool, b: bool): bool {
    match op case AND => a && b case OR => a || b case _ => b
  }

  /** Whether the right operand can still change the result. */
  predicate Matters(op: TokenType, a: bool) {
    Truth(op, a, true) != Truth(op, a, false)
  }

  function Names(args: seq<RArg>): set<string> {
    set a | a in args :: a.name
  }

  /** No later argument has the name of the i-th. */
  predicate IsLast(args: seq<RArg>, i: nat) {
    i < |args| && forall j | i < j < |args| :: args[j].name != args[i].name
  }

  /** Arguments by parameter name; for a repeated name the last one. */
  predicate ByName(args: seq<RArg>, ds: seq<Deriv>, named: map<string, Value>)
    requires |args| == |ds| && forall d | d in ds :: d.out.Done?
  {
    && named.Keys == Names(args)
    && forall i | 0 <= i < |args| && IsLast(args, i) :: args[i].name in named && named[args[i].name] == ds[i].out.v
  }

  ghost predicate Rule(p: Program, frames: Frames, slots: Cells, w: World, e: RExpr, d: Deriv) {
    var ds := d.operands;
    match e
    case RBad => d.out == EnginePanic && d.after == w
    case RInt(n) => d.out == Done(IntV(n)) && d.after == w
    case RFloat(f) => d.out == Done(FloatV(f)) && d.after == w
    case RStr(s) => d.out == Done(StrV(s)) && d.after == w
    case RBool(b) => d.out == Done(BoolV(b)) && d.after == w
    case RIdent(name, _) => IdentRule(frames, name, d.out) && d.after == w
    case RSlot(slot) => SlotRule(slots, slot.index, d.out) && d.after == w
    case RInfix(_, _, _, _, fn) =>
      || Stopped(d)
      || (HasValues(d, 2) && Answers(p, ApplyBinary(p.host, fn, End(w, d).clock, ds[0].out.v, ds[1].out.v), End(w, d),
        d))
    case RLogical(op, _, _) => (|ds| == 1 && Stopped(d)) || LogicalRule(w, op, d)
    case RPrefix(_, _, _, fn) =>
      Stopped(d) || (HasValues(d, 1) && Answers(p, ApplyUnary(p.host, fn, End(w, d).clock, ds[0].out.v), End(w, d), d))
    case RCoerce(_, _, fn) =>
      Stopped(d) || (HasValues(d, 1) && d.out == ApplyCoerce(p.host, fn, ds[0].out.v) && d.after == End(w, d))
    case RMember(_, _, _, fn) =>
      Stopped(d) || (HasValues(d, 1) && Answers(p, ApplyMember(p.host, fn, End(w, d).clock, ds[0].out.v), End(w, d), d))
    case RCall(_, _, args, _, fn) => Stopped(d) || CallRule(p, w, args, fn, d)
  }

  /** The value in the innermost frame that binds the name. */
  ghost predicate IdentRule(frames: Frames, name: string, out: Outcome<Value>) {
    && (forall i: nat | BindsFirst(frames, name, i) :: out == Done(frames[i][name]))
    && ((forall i | 0 <= i < |frames| :: name !in frames[i]) ==> out == EnginePanic)
  }

  predicate SlotRule(slots: Cells, i: nat, out: Outcome<Value>) {
    if i >= |slots| then out == EnginePanic
    else match slots[i] case Some(v) => out == Done(v) case None => out == Trap(EmptySlot)
  }

  /** The right operand is evaluated exactly when it matters, and the result is that of the truth table. */
  predicate LogicalRule(w: World, op: TokenType, d: Deriv) {
    var ds := d.operands;
    && ds != [] && ds[0].out.Done? && d.after == End(w, d)
    && if !ds[0].out.v.BoolV? then |ds| == 1 && d.out == EnginePanic
       else if !Matters(op, ds[0].out.v.b) then |ds| == 1 && d.out == Done(BoolV(Truth(op, ds[0].out.v.b, false)))
       else
         && |ds| == 2
         && d.out == if !ds[1].out.Done? then ds[1].out
              else if ds[1].out.v.BoolV? then Done(BoolV(Truth(op, ds[0].out.v.b, ds[1].out.v.b))) else EnginePanic
  }

  ghost predicate CallRule(p: Program, w: World, args: seq<RArg>, fn: CallFn, d: Deriv) {
    && HasValues(d, 1 + |args|)
    && exists named :: ByName(args, d.operands[1..], named)
         && Answers(p, ApplyCall(p.host, fn, End(w, d).clock, d.operands[0].out.v, named), End(w, d), d)
  }

  // ---------- Every evaluation has a derivation ----------

  lemma IdentHolds(frames: Frames, name: string)
    ensures IdentRule(frames, name, match Lookup(frames, name) case Some(v) => Done(v) case None => EnginePanic)
  {
    if Lookup(frames, name).None? {
      forall i | 0 <= i < |frames| ensures name !in frames[i] {
        LookupNone(frames, name, i);
      }
    } else {
      var k := LookupIndex(frames, name);
      forall i: nat | BindsFirst(frames, name, i) ensures i == k {}
    }
  }

  lemma IdentOnly(frames: Frames, name: string, out: Outcome<Value>)
    requires IdentRule(frames, name, out)
    ensures out == match Lookup(frames, name) case Some(v) => Done(v) case None => EnginePanic
  {
    if Lookup(frames, name).None? {
      forall i | 0 <= i < |frames| ensures name !in frames[i] {
        LookupNone(frames, name, i);
      }
    } else {
      var k := LookupIndex(frames, name);
      assert BindsFirst(frames, name, k);
    }
  }

  /** Arguments gathered one by one into a map. */
  function Gathered(args: seq<RArg>, ds: seq<Deriv>, named: map<string, Value>): map<string, Value>
    requires |args| == |ds| && forall d | d in ds :: d.out.Done?
  {
    if args == [] then named else Gathered(args[1..], ds[1..], named[args[0].name := ds[0].out.v])
  }

  lemma {:induction false} GatheredLast(args: seq<RArg>, ds: seq<Deriv>, named: map<string, Value>, a: RArg, d: Deriv)
    requires |args| == |ds| && (forall d | d in ds :: d.out.Done?) && d.out.Done?
    ensures Gathered(args + [a], ds + [d], named) == Gathered(args, ds, named)[a.name := d.out.v]
    decreases |args|
  {
    if args == [] {
      assert args + [a] == [a] && ds + [d] == [d];
    } else {
      assert (args + [a])[1..] == args[1..] + [a] && (ds + [d])[1..] == ds[1..] + [d];
      GatheredLast(args[1..], ds[1..], named[args[0].name := ds[0].out.v], a, d);
    }
  }

  lemma OneMoreArg(args: seq<RArg>, ds: seq<Deriv>, named: map<string, Value>, a: RArg, d: Deriv)
    requires |args| == |ds| && (forall d | d in ds :: d.out.Done?) && d.out.Done? && ByName(args, ds, named)
    ensures ByName(args + [a], ds + [d], named[a.name := d.out.v])
  {
    var now := args + [a];
    assert Names(now) == Names(args) + {a.name};
    forall j | 0 <= j < |now| && IsLast(now, j)
      ensures now[j].name in named[a.name := d.out.v] && named[a.name := d.out.v][now[j].name] == (ds + [d])[j].out.v
    {
      if j < |args| {
        assert now[|args|].name != now[j].name;
        assert IsLast(args, j) by {
          assert forall k | j < k < |args| :: now[k] == args[k];
        }
      }
    }
  }

  lemma {:induction false} GatheredByName(args: seq<RArg>, ds: seq<Deriv>)
    requires |args| == |ds| && forall d | d in ds :: d.out.Done?
    ensures ByName(args, ds, Gathered(args, ds, map[]))
    decreases |args|
  {
    if args != [] {
      var n := |args| - 1;
      var front, back := args[..n], ds[..n];
      assert args == front + [args[n]] && ds == back + [ds[n]];
      GatheredByName(front, back);
      OneMoreArg(front, back, Gathered(front, back, map[]), args[n], ds[n]);
      GatheredLast(front, back, map[], args[n], ds[n]);
    }
  }

  /** Each argument's evaluation, in sequence. */
  ghost predicate InTurn(p: Program, frames: Frames, slots: Cells, w: World, args: seq<RArg>, ds: seq<Deriv>) {
    && |ds| <= |args|
    && (forall k | 0 <= k < |ds| ::
      EvalExpr(p, frames, slots, Before(w, ds, k), args[k].value) == Evaluated(ds[k].out, ds[k].after))
    && (forall k | 0 <= k < |ds| - 1 :: ds[k].out.Done?)
  }

  lemma InTurnRest(p: Program, frames: Frames, slots: Cells, w: World, args: seq<RArg>, ds: seq<Deriv>)
    requires InTurn(p, frames, slots, w, args, ds) && ds != []
    ensures EvalExpr(p, frames, slots, w, args[0].value) == Evaluated(ds[0].out, ds[0].after)
    ensures InTurn(p, frames, slots, ds[0].after, args[1..], ds[1..])
    ensures Before(w, ds, |ds|) == Before(ds[0].after, ds[1..], |ds| - 1)
  {
    hide EvalExpr;
    assert Before(w, ds, 0) == w;
    var rest := ds[1..];
    forall k | 0 <= k < |rest|
      ensures EvalExpr(p, frames, slots, Before(ds[0].after, rest, k), args[1..][k].value)
        == Evaluated(rest[k].out, rest[k].after)
    {
      assert Before(ds[0].after, rest, k) == Before(w, ds, k + 1) && args[1..][k] == args[k + 1]
        && rest[k] == ds[k + 1];
    }
  }

  /** The argument loop stops where its evaluations stop, and otherwise gathers their values. */
  lemma {:induction false} ArgsFrom(p: Program, frames: Frames, slots: Cells, w: World, args: seq<RArg>, ds: seq<Deriv>,
      named: map<string, Value>)
    requires InTurn(p, frames, slots, w, args, ds)
    requires |ds| == |args| || (ds != [] && !ds[|ds| - 1].out.Done?)
    ensures var r := EvalArgs(p, frames, slots, w, args, named);
      && r.world == Before(w, ds, |ds|)
      && if ds != [] && !ds[|ds| - 1].out.Done? then Ends(ds[|ds| - 1].out, r.out)
         else (forall d | d in ds :: d.out.Done?) && r.out == Done(Gathered(args, ds, named))
    decreases |args|
  {
    hide EvalExpr, InTurn;
    if args == [] {
      assert ds == [] by { assert |ds| <= |args| by { InTurnLength(p, frames, slots, w, args, ds); } }
    } else {
      InTurnRest(p, frames, slots, w, args, ds);
      var d, rest := ds[0], ds[1..];
      if d.out.Done? {
        assert rest != [] ==> rest[|rest| - 1] == ds[|ds| - 1];
        ArgsFrom(p, frames, slots, d.after, args[1..], rest, named[args[0].name := d.out.v]);
        assert ds == [d] + rest;
      } else {
        InTurnLength(p, frames, slots, w, args, ds);
      }
    }
  }

  lemma InTurnLength(p: Program, frames: Frames, slots: Cells, w: World, args: seq<RArg>, ds: seq<Deriv>)
    requires InTurn(p, frames, slots, w, args, ds)
    ensures |ds| <= |args| && (ds != [] && !ds[0].out.Done? ==> |ds| == 1)
  {
  }

  /** An evaluation that did not finish, as the outcome of whatever needed it. */
  predicate Ends<A, B>(a: Outcome<A>, b: Outcome<B>) {
    match a
    case Done(_) => false
    case Trap(why) => b == Trap(why)
    case HostPanic => b == HostPanic
    case EnginePanic => b == EnginePanic
  }

  /** Derivations of the first operands, each the evaluator's own result, in sequence. */
  ghost predicate Agrees(p: Program, frames: Frames, slots: Cells, w: World, e: RExpr, ds: seq<Deriv>) {
    && |ds| <= |Operands(e)|
    && (forall i | 0 <= i < |ds| ::
      EvalExpr(p, frames, slots, Before(w, ds, i), Operands(e)[i]) == Evaluated(ds[i].out, ds[i].after))
    && (forall i | 0 <= i < |ds| - 1 :: ds[i].out.Done?)
  }

  /** The left operand is a boolean that leaves the result open. */
  predicate NeedsRight(op: TokenType, ds: seq<Deriv>) {
    ds != [] && ds[0].out.Done? && ds[0].out.v.BoolV? && Matters(op, ds[0].out.v.b)
  }

  /**
   As many as the form needs: up to one that did not finish, and otherwise all, or one where the second does not
   matter.
   */
  predicate Enough(e: RExpr, ds: seq<Deriv>) {
    if e.RLogical? then |ds| == if NeedsRight(e.op, ds) then 2 else 1
    else |ds| == |Operands(e)| || (ds != [] && !ds[|ds| - 1].out.Done?)
  }

  lemma RuleIsEnough(p: Program, frames: Frames, slots: Cells, w: World, e: RExpr, d: Deriv)
    requires Rule(p, frames, slots, w, e, d) && |d.operands| <= |Operands(e)|
    ensures Enough(e, d.operands)
  {
    hide Answers, ByName, IdentRule, SlotRule;
  }

  /** Over enough operands, the rule says what the evaluator does, and nothing else. */
  lemma RuleIsEval(p: Program, frames: Frames, slots: Cells, w: World, e: RExpr, d: Deriv)
    requires Agrees(p, frames, slots, w, e, d.operands) && Enough(e, d.operands)
    ensures Rule(p, frames, slots, w, e, d) <==> EvalExpr(p, frames, slots, w, e) == Evaluated(d.out, d.after)
  {
    match e
    case RIdent(name, _) => IdentIsLookup(frames, name, d.out);
    case RInfix(_, _, _, _, _) => InfixIsEval(p, frames, slots, w, e, d);
    case RLogical(_, _, _) => LogicalIsEval(p, frames, slots, w, e, d);
    case RPrefix(_, _, _, _) => UnaryIsEval(p, frames, slots, w, e, d);
    case RCoerce(_, _, _) => UnaryIsEval(p, frames, slots, w, e, d);
    case RMember(_, _, _, _) => UnaryIsEval(p, frames, slots, w, e, d);
    case RCall(_, _, _, _, _) => CallIsEval(p, frames, slots, w, e, d);
    case _ =>
  }

  lemma IdentIsLookup(frames: Frames, name: string, out: Outcome<Value>)
    ensures IdentRule(frames, name, out) <==> out == match Lookup(frames, name) case Some(v) => Done(v)
      case None => EnginePanic
  {
    IdentHolds(frames, name);
    if IdentRule(frames, name, out) {
      IdentOnly(frames, name, out);
    }
  }

  lemma InfixIsEval(p: Program, frames: Frames, slots: Cells, w: World, e: RExpr, d: Deriv)
    requires e.RInfix? && Agrees(p, frames, slots, w, e, d.operands) && Enough(e, d.operands)
    ensures Rule(p, frames, slots, w, e, d) <==> EvalExpr(p, frames, slots, w, e) == Evaluated(d.out, d.after)
  {
    hide ApplyBinary, NestedCalls;
    var ds := d.operands;
    assert EvalExpr(p, frames, slots, Before(w, ds, 0), e.left) == Evaluated(ds[0].out, ds[0].after);
    assert |ds| == 2 ==> EvalExpr(p, frames, slots, Before(w, ds, 1), e.right) == Evaluated(ds[1].out, ds[1].after);
  }

  lemma UnaryIsEval(p: Program, frames: Frames, slots: Cells, w: World, e: RExpr, d: Deriv)
    requires (e.RPrefix? || e.RCoerce? || e.RMember?) && Agrees(p, frames, slots, w, e, d.operands)
      && Enough(e, d.operands)
    ensures Rule(p, frames, slots, w, e, d) <==> EvalExpr(p, frames, slots, w, e) == Evaluated(d.out, d.after)
  {
    hide ApplyUnary, ApplyMember, ApplyCoerce, NestedCalls;
    assert EvalExpr(p, frames, slots, w, Operands(e)[0]) == Evaluated(d.operands[0].out, d.operands[0].after);
  }

  lemma LogicalIsEval(p: Program, frames: Frames, slots: Cells, w: World, e: RExpr, d: Deriv)
    requires e.RLogical? && Agrees(p, frames, slots, w, e, d.operands) && Enough(e, d.operands)
    ensures Rule(p, frames, slots, w, e, d) <==> EvalExpr(p, frames, slots, w, e) == Evaluated(d.out, d.after)
  {
    var ds := d.operands;
    assert EvalExpr(p, frames, slots, Before(w, ds, 0), e.left) == Evaluated(ds[0].out, ds[0].after);
    assert |ds| == 2 ==> EvalExpr(p, frames, slots, Before(w, ds, 1), e.right) == Evaluated(ds[1].out, ds[1].after);
  }

  lemma OneNaming(args: seq<RArg>, ds: seq<Deriv>, m: map<string, Value>, n: map<string, Value>)
    requires |args| == |ds| && (forall d | d in ds :: d.out.Done?) && ByName(args, ds, m) && ByName(args, ds, n)
    ensures m == n
  {
    forall name | name in m ensures n[name] == m[name] {
      var a :| a in args && a.name == name;
      var i :| 0 <= i < |args| && args[i] == a;
      var k := LastOf(args, name, i);
      assert IsLast(args, k);
    }
  }

  lemma {:induction false} LastOf(args: seq<RArg>, name: string, i: nat) returns (k: nat)
    requires i < |args| && args[i].name == name
    ensures k < |args| && args[k].name == name && forall j | k < j < |args| :: args[j].name != name
    decreases |args| - i
  {
    if j :| i < j < |args| && args[j].name == name {
      k := LastOf(args, name, j);
    } else {
      k := i;
    }
  }

  lemma CallInTurn(p: Program, frames: Frames, slots: Cells, w: World, e: RExpr, ds: seq<Deriv>)
    requires e.RCall? && Agrees(p, frames, slots, w, e, ds) && ds != [] && ds[0].out.Done?
    ensures InTurn(p, frames, slots, ds[0].after, e.args, ds[1..])
    ensures Before(ds[0].after, ds[1..], |ds| - 1) == Before(w, ds, |ds|)
  {
    hide EvalExpr;
    var rest := ds[1..];
    forall k | 0 <= k < |rest|
      ensures EvalExpr(p, frames, slots, Before(ds[0].after, rest, k), e.args[k].value)
        == Evaluated(rest[k].out, rest[k].after)
    {
      assert Operands(e)[k + 1] == e.args[k].value && Before(ds[0].after, rest, k) == Before(w, ds, k + 1);
    }
  }

  lemma CallEnds(p: Program, frames: Frames, slots: Cells, w: World, e: RExpr, o: Evaluated<Value>,
      a: Evaluated<map<string, Value>>)
    requires e.RCall? && EvalExpr(p, frames, slots, w, e.receiver) == o
    requires o.out.Done? ==> EvalArgs(p, frames, slots, o.world, e.args, map[]) == a
    ensures !o.out.Done? ==> EvalExpr(p, frames, slots, w, e) == o
    ensures o.out.Done? && a.out.Done? ==>
      EvalExpr(p, frames, slots, w, e)
        == Settle(p, a.world, ApplyCall(p.host, e.callFn, a.world.clock, o.out.v, a.out.v))
    ensures o.out.Done? && !a.out.Done? ==>
      EvalExpr(p, frames, slots, w, e).world == a.world && Ends(a.out, EvalExpr(p, frames, slots, w, e).out)
  {
    hide ApplyCall, Settle, EvalArgs;
  }

  lemma CallIsEval(p: Program, frames: Frames, slots: Cells, w: World, e: RExpr, d: Deriv)
    requires e.RCall? && Agrees(p, frames, slots, w, e, d.operands) && Enough(e, d.operands)
    ensures Rule(p, frames, slots, w, e, d) <==> EvalExpr(p, frames, slots, w, e) == Evaluated(d.out, d.after)
  {
    hide EvalExpr, EvalArgs, ApplyCall, NestedCalls, InTurn, ByName, Settle;
    var ds := d.operands;
    assert |Operands(e)| == 1 + |e.args|;
    var o := Evaluated(ds[0].out, ds[0].after);
    assert EvalExpr(p, frames, slots, Before(w, ds, 0), e.receiver) == o;
    var a := EvalArgs(p, frames, slots, o.world, e.args, map[]);
    CallEnds(p, frames, slots, w, e, o, a);
    if o.out.Done? {
      CallInTurn(p, frames, slots, w, e, ds);
      CallArgs(p, frames, slots, w, e, d, a);
      hide Agrees, Enough, Operands, Before;
      if a.out.Done? {
        SettleAnswers(p, a.world, ApplyCall(p.host, e.callFn, a.world.clock, o.out.v, a.out.v), d);
      }
    }
  }

  lemma SettleAnswers(p: Program, w: World, a: Applied, d: Deriv)
    ensures Answers(p, a, w, d) <==> Settle(p, w, a) == Evaluated(d.out, d.after)
  {
  }

  lemma CallArgs(p: Program, frames: Frames, slots: Cells, w: World, e: RExpr, d: Deriv,
      a: Evaluated<map<string, Value>>)
    requires e.RCall? && d.operands != [] && d.operands[0].out.Done? && Enough(e, d.operands)
    requires var o := d.operands[0];
      && InTurn(p, frames, slots, o.after, e.args, d.operands[1..])
      && EvalArgs(p, frames, slots, o.after, e.args, map[]) == a
      && Before(o.after, d.operands[1..], |d.operands| - 1) == End(w, d)
    ensures a.world == End(w, d)
    ensures if !d.operands[|d.operands| - 1].out.Done? then Ends(d.operands[|d.operands| - 1].out, a.out)
      else
        && HasValues(d, 1 + |e.args|) && a.out.Done?
        && forall named :: ByName(e.args, d.operands[1..], named) <==> named == a.out.v
  {
    hide EvalExpr, EvalArgs, InTurn, Gathered, ByName;
    var ds, rest := d.operands, d.operands[1..];
    assert |Operands(e)| == 1 + |e.args|;
    assert rest != [] ==> rest[|rest| - 1] == ds[|ds| - 1];
    ArgsFrom(p, frames, slots, ds[0].after, e.args, rest, map[]);
    if ds[|ds| - 1].out.Done? {
      assert ds == [ds[0]] + rest;
      GatheredByName(e.args, rest);
      forall named | ByName(e.args, rest, named) ensures named == a.out.v {
        OneNaming(e.args, rest, named, a.out.v);
      }
    }
  }

  lemma OperandIsSmaller(e: RExpr, i: nat)
    requires i < |Operands(e)|
    ensures Operands(e)[i] < e
  {
    if e.RCall? && i > 0 {
      assert e.args[i - 1].value < e.args[i - 1] < e;
    }
  }

  lemma BeforeSame(w: World, ds: seq<Deriv>, d: Deriv, k: nat)
    requires k <= |ds|
    ensures Before(w, ds + [d], k) == Before(w, ds, k)
  {
  }

  lemma OneMore(p: Program, frames: Frames, slots: Cells, w: World, e: RExpr, ds: seq<Deriv>, d: Deriv)
    requires Agrees(p, frames, slots, w, e, ds) && Chained(p, frames, slots, w, e, ds) && |ds| < |Operands(e)|
    requires ds != [] ==> ds[|ds| - 1].out.Done?
    requires Derives(p, frames, slots, Before(w, ds, |ds|), Operands(e)[|ds|], d)
    requires EvalExpr(p, frames, slots, Before(w, ds, |ds|), Operands(e)[|ds|]) == Evaluated(d.out, d.after)
    ensures Agrees(p, frames, slots, w, e, ds + [d]) && Chained(p, frames, slots, w, e, ds + [d])
  {
    hide EvalExpr, Derives, Operands, Before;
    var more := ds + [d];
    forall k | 0 <= k < |more|
      ensures Derives(p, frames, slots, Before(w, more, k), Operands(e)[k], more[k])
      ensures EvalExpr(p, frames, slots, Before(w, more, k), Operands(e)[k]) == Evaluated(more[k].out, more[k].after)
    {
      BeforeSame(w, ds, d, k);
    }
  }

  /** The operands after those done, up to n in all, until one does not finish. */
  lemma {:induction false} DerivedFrom(p: Program, frames: Frames, slots: Cells, w: World, e: RExpr, done: seq<Deriv>,
      n: nat)
    returns (ds: seq<Deriv>)
    requires Agrees(p, frames, slots, w, e, done) && Chained(p, frames, slots, w, e, done)
    requires |done| <= n <= |Operands(e)|
    ensures Agrees(p, frames, slots, w, e, ds) && Chained(p, frames, slots, w, e, ds)
    ensures (ds != [] && !ds[|ds| - 1].out.Done?) || |ds| == n
    ensures done <= ds && |ds| <= n
    decreases e, 0, n - |done|
  {
    hide EvalExpr, Derives, Operands, Agrees, Chained;
    if (done != [] && !done[|done| - 1].out.Done?) || |done| == n {
      ds := done;
    } else {
      var i := |done|;
      OperandIsSmaller(e, i);
      var d := Derived(p, frames, slots, Before(w, done, i), Operands(e)[i]);
      OneMore(p, frames, slots, w, e, done, d);
      ds := DerivedFrom(p, frames, slots, w, e, done + [d], n);
    }
  }

  ghost predicate Chained(p: Program, frames: Frames, slots: Cells, w: World, e: RExpr, ds: seq<Deriv>) {
    |ds| <= |Operands(e)| && forall i | 0 <= i < |ds| ::
      Derives(p, frames, slots, Before(w, ds, i), Operands(e)[i], ds[i])
  }

  /** Every evaluation is the end of a derivation. */
  lemma {:induction false} Derived(p: Program, frames: Frames, slots: Cells, w: World, e: RExpr) returns (d: Deriv)
    ensures Derives(p, frames, slots, w, e, d) && EvalExpr(p, frames, slots, w, e) == Evaluated(d.out, d.after)
    decreases e, 1
  {
    hide EvalExpr, Rule;
    var ds := DerivedFrom(p, frames, slots, w, e, [], if e.RLogical? then 1 else |Operands(e)|);
    if e.RLogical? && NeedsRight(e.op, ds) {
      ds := DerivedFrom(p, frames, slots, w, e, ds, 2);
    }
    var r := EvalExpr(p, frames, slots, w, e);
    d := Deriv(r.out, r.world, ds);
    RuleIsEval(p, frames, slots, w, e, d);
  }

  /** And every derivation ends as the evaluation does: the rules leave no choice. */
  lemma {:induction false} DerivesIsEval(p: Program, frames: Frames, slots: Cells, w: World, e: RExpr, d: Deriv)
    requires Derives(p, frames, slots, w, e, d)
    ensures EvalExpr(p, frames, slots, w, e) == Evaluated(d.out, d.after)
    decreases d
  {
    hide EvalExpr, Rule;
    forall i | 0 <= i < |d.operands|
      ensures EvalExpr(p, frames, slots, Before(w, d.operands, i), Operands(e)[i])
        == Evaluated(d.operands[i].out, d.operands[i].after)
    {
      DerivesIsEval(p, frames, slots, Before(w, d.operands, i), Operands(e)[i], d.operands[i]);
    }
    RuleIsEnough(p, frames, slots, w, e, d);
    RuleIsEval(p, frames, slots, w, e, d);
  }

  /** An expression evaluates to an outcome and a world exactly if a derivation says so. */
  lemma EvaluationIsDerivation(p: Program, frames: Frames, slots: Cells, w: World, e: RExpr, out: Outcome<Value>,
      after: World)
    ensures EvalExpr(p, frames, slots, w, e) == Evaluated(out, after)
      <==> exists d :: Derives(p, frames, slots, w, e, d) && d.out == out && d.after == after
  {
    hide EvalExpr, Derives;
    var d := Derived(p, frames, slots, w, e);
    forall c | Derives(p, frames, slots, w, e, c)
      ensures EvalExpr(p, frames, slots, w, e) == Evaluated(c.out, c.after) {
      DerivesIsEval(p, frames, slots, w, e, c);
    }
  }
}
