/** What the resolver relies on: a script read without error has no bad node, no missing child and a Run function. */
module ParsedTrees {
  import opened Wrappers
  import opened Tokens
  import opened Values
  import opened Ast
  import opened Parsing

  /** No identifier of the token stream holds a dot. */
  predicate PlainNames(s: Source) {
    forall t | t in s.toks :: t.typ == IDENT ==> Plain(t.lit)
  }

  lemma PlainAt(s: Source, i: nat)
    requires PlainNames(s) && s.Is(i, IDENT)
    ensures Plain(s.At(i).lit)
  {
    assert s.toks[i] in s.toks;
  }

  // ---------- Expressions ----------

  predicate CleanRead(r: Parse<Expr>) {
    r.Success? ==> CleanExpr(r.value.0)
  }

  predicate CleanKwargs(kwargs: seq<Kwarg>) {
    forall k | k in kwargs :: Plain(k.key) && CleanExpr(k.value)
  }

  predicate CleanArgs(args: seq<Expr>) {
    forall a | a in args :: CleanExpr(a)
  }

  lemma {:induction false} ExprClean(s: Source, i: nat, prec: nat, depth: nat)
    requires PlainNames(s)
    ensures CleanRead(ParseExpr(s, i, prec, depth))
    decreases MAX_DEPTH - depth, 2, 0
  {
    hide CleanExpr, PlainNames, ParsePrefix, ParseLoop;
    if depth < MAX_DEPTH {
      PrefixClean(s, i, depth + 1);
      var left := ParsePrefix(s, i, depth + 1);
      if left.Success? {
        LoopClean(s, left.value.0, left.value.1, prec, depth + 1);
      }
    }
  }

  lemma {:induction false} PrefixClean(s: Source, i: nat, depth: nat)
    requires PlainNames(s) && depth <= MAX_DEPTH
    ensures CleanRead(ParsePrefix(s, i, depth))
    decreases MAX_DEPTH + 1 - depth, 1, 0
  {
    hide PlainNames, NoOperand, ParseExpr;
    match s.At(i).typ
    case MINUS => ExprClean(s, i + 1, PREFIX, depth);
    case BANG => ExprClean(s, i + 1, PREFIX, depth);
    case LPAREN => ExprClean(s, i + 1, LOWEST, depth);
    case IDENT => PlainAt(s, i);
    case _ =>
  }

  lemma {:induction false} LoopClean(s: Source, left: Expr, j: nat, prec: nat, depth: nat)
    requires PlainNames(s) && depth <= MAX_DEPTH && j < |s.toks| && CleanExpr(left)
    ensures CleanRead(ParseLoop(s, left, j, prec, depth))
    decreases MAX_DEPTH + 1 - depth, 1, |s.toks| - j
  {
    hide CleanExpr, PlainNames, ParseInfix, Prec;
    if prec < Prec(s.At(j + 1).typ) {
      InfixClean(s, left, j + 1, depth);
      var next := ParseInfix(s, left, j + 1, depth);
      if next.Success? {
        LoopClean(s, next.value.0, next.value.1, prec, depth);
      }
    }
  }

  lemma {:induction false} InfixClean(s: Source, left: Expr, i: nat, depth: nat)
    requires PlainNames(s) && depth <= MAX_DEPTH && CleanExpr(left) && Prec(s.At(i).typ) > 0
    ensures CleanRead(ParseInfix(s, left, i, depth))
    decreases MAX_DEPTH + 1 - depth, 0, |s.toks| + 1
  {
    hide PlainNames, NoOperand, ParseExpr, ParseCall, Prec;
    var op := s.At(i).typ;
    if op == DOT {
      if s.Is(i + 1, IDENT) { PlainAt(s, i + 1); }
    } else if op == LBRACKET {
      ExprClean(s, i + 1, LOWEST, depth);
    } else if op == LPAREN {
      CallClean(s, left, i, depth);
    } else {
      ExprClean(s, i + 1, Prec(op), depth);
    }
  }

  lemma {:induction false} CallClean(s: Source, left: Expr, i: nat, depth: nat)
    requires PlainNames(s) && depth <= MAX_DEPTH && CleanExpr(left) && s.Is(i, LPAREN)
    ensures CleanRead(ParseCall(s, left, i, depth))
    decreases MAX_DEPTH + 1 - depth, 0, |s.toks|, 1
  {
    hide PlainNames, ParseArgs, Prec, NoOperand, ParseExpr;
    if !s.Is(i + 1, RPAREN) {
      ArgsClean(s, i, [], [], depth);
    }
  }

  lemma CleanArgsGrow(args: seq<Expr>, kwargs: seq<Kwarg>, key: string, value: Expr)
    requires CleanArgs(args) && CleanKwargs(kwargs) && CleanExpr(value)
    ensures CleanArgs(args + [value]) && (Plain(key) ==> CleanKwargs(kwargs + [Kwarg(key, value)]))
  {
    hide CleanExpr, Plain;
  }

  lemma {:induction false} ArgsClean(s: Source, i: nat, args: seq<Expr>, kwargs: seq<Kwarg>, depth: nat)
    requires PlainNames(s) && depth <= MAX_DEPTH && i < |s.toks| && CleanArgs(args) && CleanKwargs(kwargs)
    ensures var r := ParseArgs(s, i, args, kwargs, depth); r.Success? ==>
      CleanArgs(r.value.0.0) && CleanKwargs(r.value.0.1)
    decreases MAX_DEPTH + 1 - depth, 0, |s.toks| - i, 0
  {
    hide CleanExpr, PlainNames, ParseExpr, CleanArgs, CleanKwargs;
    var named := s.Is(i + 1, IDENT) && s.Is(i + 2, ASSIGN);
    var at := if named then i + 3 else i + 1;
    ExprClean(s, at, LOWEST, depth);
    var r := ParseExpr(s, at, LOWEST, depth);
    if (named || kwargs == []) && r.Success? {
      var (value, j) := r.value;
      if named {
        PlainAt(s, i + 1);
      }
      var args' := if named then args else args + [value];
      var kwargs' := if named then kwargs + [Kwarg(s.At(i + 1).lit, value)] else kwargs;
      CleanArgsGrow(args, kwargs, s.At(i + 1).lit, value);
      if s.Is(j + 1, COMMA) && !s.Is(j + 2, RPAREN) {
        ArgsClean(s, j + 1, args', kwargs', depth);
      }
    }
  }

  // ---------- Statements ----------

  predicate CleanStmtRead(r: Parse<Stmt>) {
    r.Success? ==> CleanStmt(r.value.0)
  }

  lemma {:induction false} StmtsClean(s: Source, i: nat, stmts: seq<Stmt>, depth: nat)
    requires PlainNames(s) && CleanBlock(stmts)
    ensures var r := ParseStmts(s, i, stmts, depth); r.Success? ==> CleanBlock(r.value.0)
    decreases Left(s, i), 3
  {
    hide CleanStmt, PlainNames, ParseStmt;
    if s.Is(i, NEWLINE) {
      StmtsClean(s, i + 1, stmts, depth);
    } else if !s.Is(i, RBRACE) && !s.Is(i, EOF) {
      StmtClean(s, i, depth);
      var r := ParseStmt(s, i, depth);
      if r.Success? && EndsStmt(s.At(r.value.1 + 1).typ) {
        StmtsClean(s, r.value.1 + 1, stmts + [r.value.0], depth);
      }
    }
  }

  lemma {:induction false} StmtClean(s: Source, i: nat, depth: nat)
    requires PlainNames(s)
    ensures CleanStmtRead(ParseStmt(s, i, depth))
    decreases Left(s, i), 2
  {
    hide PlainNames, ParseExpr, CleanExpr, ParseStmts;
    match s.At(i).typ
    case LET =>
      if s.Is(i + 1, IDENT) {
        PlainAt(s, i + 1);
        ExprClean(s, i + 3, LOWEST, depth);
      }
    case IF => IfClean(s, i, depth);
    case CONST =>
    case INPUT =>
    case OUTPUT =>
    case _ =>
      ExprClean(s, i, LOWEST, depth);
      var r := ParseExpr(s, i, LOWEST, depth);
      if r.Success? {
        ExprClean(s, r.value.1 + 2, LOWEST, depth);
      }
  }

  lemma {:induction false} IfClean(s: Source, i: nat, depth: nat)
    requires PlainNames(s) && s.Is(i, IF)
    ensures CleanStmtRead(ParseIf(s, i, depth))
    decreases Left(s, i), 1
  {
    hide PlainNames, ParseExpr, CleanExpr, ParseStmts, ParseElse;
    if depth < MAX_DEPTH && ParseIf(s, i, depth).Success? {
      ExprClean(s, i + 2, LOWEST, depth + 1);
      var j := ParseExpr(s, i + 2, LOWEST, depth + 1).value.1;
      StmtsClean(s, j + 3, [], depth + 1);
      ElseClean(s, ParseStmts(s, j + 3, [], depth + 1).value.1, depth + 1);
    }
  }

  lemma {:induction false} ElseClean(s: Source, k: nat, depth: nat)
    requires PlainNames(s) && s.Is(k, RBRACE)
    ensures var r := ParseElse(s, k, depth); r.Success? && r.value.0.Some? ==>
      (r.value.0.value.Block? || r.value.0.value.If?) && CleanStmt(r.value.0.value)
    decreases Left(s, k), 0
  {
    hide PlainNames, ParseStmts;
    if s.Is(k + 1, ELSE) {
      if s.Is(k + 2, IF) {
        IfClean(s, k + 2, depth);
      } else {
        StmtsClean(s, k + 3, [], depth);
      }
    }
  }

  // ---------- Programs ----------

  /** Everything but the presence of Run. */
  predicate CleanSoFar(p: Program) {
    && (forall d | d in p.decls :: CleanDecl(d))
    && (p.initFn.Some? ==> CleanBlock(p.initFn.value))
    && (p.runFn.Some? ==> CleanBlock(p.runFn.value))
  }

  lemma {:induction false} TopClean(s: Source, i: nat, p: Program)
    requires PlainNames(s) && CleanSoFar(p)
    ensures var r := ParseTop(s, i, p); r.Success? ==> CleanSoFar(r.value.0)
  {
    hide PlainNames, ParseConst, ParsePort, ParseKind, ParseFunction, CleanBlock, CleanDecl;
    match s.At(i).typ
    case CONST => ConstClean(s, i);
    case INPUT => PortClean(s, i);
    case OUTPUT => PortClean(s, i);
    case IDENT =>
      if s.Is(i + 1, IDENT) {
        KindClean(s, i);
      }
    case FUNCTION => FunctionClean(s, i);
    case _ =>
  }

  lemma ConstClean(s: Source, i: nat)
    requires PlainNames(s)
    ensures var r := ParseConst(s, i); r.Success? ==> CleanDecl(r.value.0)
  {
    hide PlainNames, ParseExpr, CleanExpr;
    if s.Is(i + 1, IDENT) {
      PlainAt(s, i + 1);
    }
    ExprClean(s, i + 3, LOWEST, 0);
  }

  lemma PortClean(s: Source, i: nat)
    requires PlainNames(s)
    ensures var r := ParsePort(s, i); r.Success? ==>
      var (name, t) := r.value.0; CleanDecl(Input(Some(name), Some(t))) && CleanDecl(Output(Some(name), Some(t)))
  {
    hide PlainNames, ParseTypeDecl;
    if s.Is(i + 1, IDENT) {
      PlainAt(s, i + 1);
    }
  }

  lemma KindClean(s: Source, i: nat)
    requires PlainNames(s) && s.Is(i, IDENT) && s.Is(i + 1, IDENT)
    ensures var r := ParseKind(s, i); r.Success? ==> CleanDecl(r.value.0)
  {
    hide PlainNames, ParseExpr, CleanExpr;
    PlainAt(s, i);
    PlainAt(s, i + 1);
    ExprClean(s, (if s.Is(i + 2, COLON) then i + 3 else i + 1) + 2, LOWEST, 0);
  }

  lemma FunctionClean(s: Source, i: nat)
    requires PlainNames(s)
    ensures var r := ParseFunction(s, i); r.Success? ==> CleanBlock(r.value.0.1)
  {
    hide PlainNames, ParseStmts, CleanStmt;
    StmtsClean(s, i + 5, [], 0);
  }

  lemma {:induction false} TopsClean(s: Source, i: nat, p: Program)
    requires PlainNames(s) && CleanSoFar(p)
    ensures var r := ParseTops(s, i, p); r.Success? ==> CleanProgram(r.value)
    decreases Left(s, i)
  {
    hide PlainNames, ParseTop, CleanBlock, CleanDecl;
    if s.Is(i, NEWLINE) {
      TopsClean(s, i + 1, p);
    } else if !s.Is(i, EOF) {
      TopClean(s, i, p);
      var r := ParseTop(s, i, p);
      if r.Success? && EndsLine(s.At(r.value.1 + 1).typ) {
        TopsClean(s, r.value.1 + 1, r.value.0);
      }
    }
  }

  /** A script read without error is clean. */
  lemma ProgramClean(s: Source)
    requires PlainNames(s)
    ensures var r := ParseProgram(s); r.Success? ==> CleanProgram(r.value)
  {
    TopsClean(s, 0, EMPTY_PROGRAM);
  }
}
