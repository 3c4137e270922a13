/**
 The grammar of statements as derivation trees (parser/stmt.go, the statement rules of the language description): a
 tree says which tokens a statement has, blank lines included, and what it means, and knows nothing of parsing. The
 parser of statements is proved to accept exactly these derivations.
 */
module StatementGrammar {
  import opened Wrappers
  import opened Tokens
  import opened Ast
  import opened Parsing
  import opened Grammar

  datatype CStmt =
    | CLet(name: string, value: Cst)
    | CExpr(expr: Cst)
    | CAssign(target: Cst, value: Cst)
    | CIf(cond: Cst, body: CBlock, alternative: CElse)

  datatype CElse = NoElse | ElseIf(rest: CStmt) | ElseBlock(body: CBlock)

  /** What stands between braces: statements, each on a line of its own, and blank lines. */
  datatype CBlock = NoMore | Blank(rest: CBlock) | Line(first: CStmt, rest: CBlock)

  // ---------- Spelling ----------

  function StmtLen(c: CStmt): (n: nat)
    ensures n > 0
  {
    match c
    case CLet(_, value) => 3 + Len(value)
    case CExpr(e) => Len(e)
    case CAssign(target, value) => Len(target) + 1 + Len(value)
    case CIf(cond, body, alternative) => 2 + Len(cond) + 2 + BlockLen(body) + 1 + ElseLen(alternative)
  }

  function ElseLen(c: CElse): nat {
    match c
    case NoElse => 0
    case ElseIf(rest) => 1 + StmtLen(rest)
    case ElseBlock(body) => 2 + BlockLen(body) + 1
  }

  function BlockLen(b: CBlock): nat {
    match b
    case NoMore => 0
    case Blank(rest) => 1 + BlockLen(rest)
    case Line(first, rest) => StmtLen(first) + BlockLen(rest)
  }

  /** A whole expression, within the nesting limit. */
  predicate ExprAt(s: Source, i: nat, depth: nat, c: Cst) {
    Derives(s, i, LOWEST, depth, c)
  }

  /** The tokens of c are those of s from i on, inside depth levels of nesting; an if nests what it holds one deeper. */
  predicate StmtAt(s: Source, i: nat, depth: nat, c: CStmt)
    decreases c
  {
    match c
    case CLet(name, value) =>
      s.Is(i, LET) && s.Is(i + 1, IDENT) && s.At(i + 1).lit == name && s.Is(i + 2, ASSIGN)
        && ExprAt(s, i + 3, depth, value)
    case CExpr(e) => ExprAt(s, i, depth, e)
    case CAssign(target, value) =>
      ExprAt(s, i, depth, target) && s.Is(i + Len(target), ASSIGN) && ExprAt(s, i + Len(target) + 1, depth, value)
    case CIf(cond, body, alternative) =>
      var j := i + 2 + Len(cond);
      var k := j + 2 + BlockLen(body);
      && depth < MAX_DEPTH
      && s.Is(i, IF) && s.Is(i + 1, LPAREN) && ExprAt(s, i + 2, depth + 1, cond) && s.Is(j, RPAREN)
      && s.Is(j + 1, LBRACE) && BlockAt(s, j + 2, depth + 1, body) && s.Is(k, RBRACE)
      && ElseAt(s, k + 1, depth + 1, alternative)
  }

  predicate ElseAt(s: Source, i: nat, depth: nat, c: CElse)
    decreases c
  {
    match c
    case NoElse => true
    case ElseIf(rest) => s.Is(i, ELSE) && rest.CIf? && StmtAt(s, i + 1, depth, rest)
    case ElseBlock(body) =>
      s.Is(i, ELSE) && s.Is(i + 1, LBRACE) && BlockAt(s, i + 2, depth, body) && s.Is(i + 2 + BlockLen(body), RBRACE)
  }

  /** No two statements share a line. */
  predicate BlockAt(s: Source, i: nat, depth: nat, b: CBlock)
    decreases b
  {
    match b
    case NoMore => true
    case Blank(rest) => s.Is(i, NEWLINE) && BlockAt(s, i + 1, depth, rest)
    case Line(first, rest) => StmtAt(s, i, depth, first) && !rest.Line? && BlockAt(s, i + StmtLen(first), depth, rest)
  }

  // ---------- Meaning ----------

  function Meant(s: Source, c: Cst): Expr {
    if Legible(s, c) then Sem(s, c) else BadExpr
  }

  /** Blank lines, braces and the layout of else leave no trace. */
  function StmtMeans(s: Source, c: CStmt): Stmt {
    match c
    case CLet(name, value) => Let(Some(name), Meant(s, value))
    case CExpr(e) => ExprStmt(Meant(s, e))
    case CAssign(target, value) => Assign(Meant(s, target), Meant(s, value))
    case CIf(cond, body, alternative) => If(Some(Meant(s, cond)), BlockMeans(s, body), ElseMeans(s, alternative))
  }

  function ElseMeans(s: Source, c: CElse): Option<Stmt> {
    match c
    case NoElse => None
    case ElseIf(rest) => Some(StmtMeans(s, rest))
    case ElseBlock(body) => Some(Block(BlockMeans(s, body)))
  }

  function BlockMeans(s: Source, b: CBlock): seq<Stmt> {
    match b
    case NoMore => []
    case Blank(rest) => BlockMeans(s, rest)
    case Line(first, rest) => [StmtMeans(s, first)] + BlockMeans(s, rest)
  }

  /** The token after a statement neither extends its last expression nor makes it an assignment, nor is it an else. */
  predicate Stops(t: TokenType) {
    Prec(t) == LOWEST && t != ASSIGN && t != ELSE
  }

  lemma EndsStop(t: TokenType)
    requires EndsStmt(t)
    ensures Stops(t)
  {
  }

  // ---------- Expressions inside statements ----------

  /** An expression followed by a token that is no operator. */
  lemma ReadExpr(s: Source, i: nat, depth: nat, c: Cst)
    requires ExprAt(s, i, depth, c) && Prec(s.At(i + Len(c)).typ) == LOWEST
    ensures ParseExpr(s, i, LOWEST, depth) == Success((Meant(s, c), i + Len(c) - 1)) && i + Len(c) <= |s.toks|
  {
    hide Stratified, Matches, Legible, Height, Sem, Len, ParseExpr, Prec;
    assert Legible(s, c);
    Complete(s, i, LOWEST, depth, c);
  }

  lemma FoundExpr(s: Source, i: nat, depth: nat) returns (c: Cst)
    requires ParseExpr(s, i, LOWEST, depth).Success?
    ensures ExprAt(s, i, depth, c)
    ensures ParseExpr(s, i, LOWEST, depth).value == (Meant(s, c), i + Len(c) - 1)
  {
    hide Stratified, Matches, Legible, Height, Sem, Len, ParseExpr, Prec;
    c := Sound(s, i, LOWEST, depth);
    assert Legible(s, c);
  }

  lemma ClosersStop()
    ensures Prec(ASSIGN) == LOWEST && Prec(RPAREN) == LOWEST
  {
  }

  /** An expression does not start with a word that starts another statement. */
  lemma {:induction false} StartsPlain(s: Source, i: nat, c: Cst)
    requires Spells(s, i, c)
    ensures s.At(i).typ !in {LET, IF, CONST, INPUT, OUTPUT, NEWLINE, RBRACE, EOF}
  {
    hide Spells, NoOperand;
    if c.Bin? {
      BinHead(s, i, c);
      StartsPlain(s, i, c.left);
    } else if Postfix(c) {
      PostfixHead(s, i, c);
      StartsPlain(s, i, c.head);
    } else {
      AtomPlain(s, i, c);
    }
  }

  lemma AtomPlain(s: Source, i: nat, c: Cst)
    requires !c.Bin? && !Postfix(c) && Spells(s, i, c)
    ensures s.At(i).typ !in {LET, IF, CONST, INPUT, OUTPUT, NEWLINE, RBRACE, EOF}
  {
  }

  // ---------- Every derivation is read ----------

  lemma LetRead(s: Source, i: nat, depth: nat, c: CStmt)
    requires c.CLet? && StmtAt(s, i, depth, c) && Prec(s.At(i + StmtLen(c)).typ) == LOWEST
    ensures ParseStmt(s, i, depth) == Success((StmtMeans(s, c), i + StmtLen(c) - 1))
  {
    hide ExprAt, Meant, ParseExpr, Prec, Len;
    ReadExpr(s, i + 3, depth, c.value);
  }

  lemma ExprStmtRead(s: Source, i: nat, depth: nat, c: CStmt)
    requires c.CExpr? && StmtAt(s, i, depth, c) && Stops(s.At(i + StmtLen(c)).typ)
    ensures ParseStmt(s, i, depth) == Success((StmtMeans(s, c), i + StmtLen(c) - 1))
  {
    hide Stratified, Matches, Legible, Height, Meant, ParseExpr, Prec, Len;
    StartsPlain(s, i, c.expr);
    ReadExpr(s, i, depth, c.expr);
  }

  lemma AssignRead(s: Source, i: nat, depth: nat, c: CStmt)
    requires c.CAssign? && StmtAt(s, i, depth, c) && Prec(s.At(i + StmtLen(c)).typ) == LOWEST
    ensures ParseStmt(s, i, depth) == Success((StmtMeans(s, c), i + StmtLen(c) - 1))
  {
    hide Stratified, Matches, Legible, Height, Meant, ParseExpr, Prec, Len;
    ClosersStop();
    StartsPlain(s, i, c.target);
    ReadExpr(s, i, depth, c.target);
    ReadExpr(s, i + Len(c.target) + 1, depth, c.value);
  }

  lemma IfParts(s: Source, i: nat, depth: nat, c: CStmt)
    requires c.CIf? && StmtAt(s, i, depth, c)
    ensures var j := i + 2 + Len(c.cond);
      var k := j + 2 + BlockLen(c.body);
      && depth < MAX_DEPTH && s.Is(i, IF) && s.Is(i + 1, LPAREN) && ExprAt(s, i + 2, depth + 1, c.cond)
        && s.Is(j, RPAREN)
      && s.Is(j + 1, LBRACE) && BlockAt(s, j + 2, depth + 1, c.body) && s.Is(k, RBRACE)
      && ElseAt(s, k + 1, depth + 1, c.alternative) && StmtLen(c) == k + 1 + ElseLen(c.alternative) - i
    ensures StmtMeans(s, c) == If(Some(Meant(s, c.cond)), BlockMeans(s, c.body), ElseMeans(s, c.alternative))
  {
    hide ExprAt, Meant, BlockAt;
  }

  lemma IfParsed(s: Source, i: nat, depth: nat, cond: Expr, j: nat, body: seq<Stmt>, k: nat,
      alternative: Option<Stmt>, l: nat)
    requires depth < MAX_DEPTH && s.Is(i, IF) && s.Is(i + 1, LPAREN)
    requires ParseExpr(s, i + 2, LOWEST, depth + 1) == Success((cond, j)) && s.Is(j + 1, RPAREN) && s.Is(j + 2, LBRACE)
    requires ParseStmts(s, j + 3, [], depth + 1) == Success((body, k))
      && ParseElse(s, k, depth + 1) == Success((alternative, l))
    ensures ParseIf(s, i, depth) == Success((If(Some(cond), body, alternative), l))
  {
    hide ParseExpr, ParseStmts, ParseElse;
  }

  lemma {:induction false} IfRead(s: Source, i: nat, depth: nat, c: CStmt)
    requires c.CIf? && StmtAt(s, i, depth, c) && s.At(i + StmtLen(c)).typ != ELSE
    ensures ParseIf(s, i, depth) == Success((StmtMeans(s, c), i + StmtLen(c) - 1))
    decreases c, 0
  {
    hide ExprAt, StmtAt, StmtLen, StmtMeans, BlockAt, BlockLen, BlockMeans, ElseAt, ElseLen, ElseMeans, ParseIf;
    hide Meant, ParseExpr, Prec, Len, ParseStmts, ParseElse;
    ClosersStop();
    IfParts(s, i, depth, c);
    var j := i + 2 + Len(c.cond);
    var k := j + 2 + BlockLen(c.body);
    ReadExpr(s, i + 2, depth + 1, c.cond);
    BlockRead(s, j + 2, depth + 1, c.body, []);
    assert [] + BlockMeans(s, c.body) == BlockMeans(s, c.body);
    ElseRead(s, k, depth + 1, c.alternative);
    var l := k + ElseLen(c.alternative);
    IfParsed(s, i, depth, Meant(s, c.cond), j - 1, BlockMeans(s, c.body), k, ElseMeans(s, c.alternative), l);
  }

  /** What follows the `}` at k. */
  lemma {:induction false} ElseRead(s: Source, k: nat, depth: nat, c: CElse)
    requires s.Is(k, RBRACE) && ElseAt(s, k + 1, depth, c) && s.At(k + 1 + ElseLen(c)).typ != ELSE
    ensures ParseElse(s, k, depth) == Success((ElseMeans(s, c), k + ElseLen(c)))
    decreases c, 1
  {
    hide StmtAt, StmtMeans, StmtLen, BlockAt, BlockMeans, BlockLen, ParseStmts, ParseIf;
    match c
    case NoElse =>
    case ElseIf(rest) =>
      assert s.Is(k + 2, IF) by { IfStarts(s, k + 2, depth, rest); }
      IfRead(s, k + 2, depth, rest);
    case ElseBlock(body) =>
      BlockRead(s, k + 3, depth, body, []);
      assert [] + BlockMeans(s, body) == BlockMeans(s, body);
  }

  lemma {:induction false} StmtRead(s: Source, i: nat, depth: nat, c: CStmt)
    requires StmtAt(s, i, depth, c) && Stops(s.At(i + StmtLen(c)).typ)
    ensures ParseStmt(s, i, depth) == Success((StmtMeans(s, c), i + StmtLen(c) - 1))
    decreases c, 1
  {
    if c.CIf? {
      hide StmtAt, StmtMeans, StmtLen, ParseIf;
      IfRead(s, i, depth, c);
      assert s.Is(i, IF) by { IfStarts(s, i, depth, c); }
    } else {
      hide StmtAt, StmtMeans, ParseStmt;
      match c
      case CLet(_, _) => LetRead(s, i, depth, c);
      case CExpr(_) => ExprStmtRead(s, i, depth, c);
      case CAssign(_, _) => AssignRead(s, i, depth, c);
    }
  }

  lemma IfStarts(s: Source, i: nat, depth: nat, c: CStmt)
    requires c.CIf? && StmtAt(s, i, depth, c)
    ensures s.Is(i, IF)
  {
  }

  /** A statement does not start like a blank line or the end of a block. */
  lemma LineStarts(s: Source, i: nat, depth: nat, c: CStmt)
    requires StmtAt(s, i, depth, c)
    ensures s.At(i).typ !in {NEWLINE, RBRACE, EOF}
  {
    hide Stratified, Matches, Legible, Height, BlockAt, ElseAt, Len;
    match c
    case CExpr(e) => StartsPlain(s, i, e);
    case CAssign(target, _) => StartsPlain(s, i, target);
    case _ =>
  }

  /** The statements of a block up to its `}`, after those read already. */
  lemma {:induction false} BlockRead(s: Source, i: nat, depth: nat, b: CBlock, done: seq<Stmt>)
    requires BlockAt(s, i, depth, b) && s.Is(i + BlockLen(b), RBRACE)
    ensures ParseStmts(s, i, done, depth) == Success((done + BlockMeans(s, b), i + BlockLen(b)))
    decreases b, 2
  {
    hide StmtAt, StmtMeans, StmtLen, ParseStmt;
    match b
    case NoMore => assert done + [] == done;
    case Blank(rest) => BlockRead(s, i + 1, depth, rest, done);
    case Line(first, rest) =>
      var n := i + StmtLen(first);
      assert EndsStmt(s.At(n).typ);
      EndsStop(s.At(n).typ);
      StmtRead(s, i, depth, first);
      LineStarts(s, i, depth, first);
      BlockRead(s, n, depth, rest, done + [StmtMeans(s, first)]);
      assert (done + [StmtMeans(s, first)]) + BlockMeans(s, rest) == done
        + ([StmtMeans(s, first)] + BlockMeans(s, rest));
  }

  // ---------- Everything read has a derivation ----------

  lemma FoundLet(s: Source, i: nat, depth: nat) returns (c: CStmt)
    requires s.Is(i, LET) && ParseLet(s, i, depth).Success?
    ensures StmtAt(s, i, depth, c) && ParseLet(s, i, depth).value == (StmtMeans(s, c), i + StmtLen(c) - 1)
  {
    hide ExprAt, Meant, ParseExpr, Len;
    var e := FoundExpr(s, i + 3, depth);
    c := CLet(s.At(i + 1).lit, e);
  }

  lemma FoundExprOrAssign(s: Source, i: nat, depth: nat) returns (c: CStmt)
    requires ParseExprOrAssign(s, i, depth).Success?
    ensures StmtAt(s, i, depth, c) && ParseExprOrAssign(s, i, depth).value == (StmtMeans(s, c), i + StmtLen(c) - 1)
  {
    hide ExprAt, Meant, ParseExpr, Len;
    var e := FoundExpr(s, i, depth);
    if s.Is(i + Len(e), ASSIGN) {
      var v := FoundExpr(s, i + Len(e) + 1, depth);
      c := CAssign(e, v);
    } else {
      c := CExpr(e);
    }
  }

  /** The pieces of an if that was read. */
  lemma IfPieces(s: Source, i: nat, depth: nat) returns (j: nat, k: nat)
    requires s.Is(i, IF) && ParseIf(s, i, depth).Success?
    ensures depth < MAX_DEPTH && s.Is(i + 1, LPAREN)
    ensures ParseExpr(s, i + 2, LOWEST, depth + 1).Success? && j == ParseExpr(s, i + 2, LOWEST, depth + 1).value.1
    ensures s.Is(j + 1, RPAREN) && s.Is(j + 2, LBRACE)
    ensures ParseStmts(s, j + 3, [], depth + 1).Success? && k == ParseStmts(s, j + 3, [], depth + 1).value.1
    ensures s.Is(k, RBRACE) && ParseElse(s, k, depth + 1).Success?
    ensures var (body, alt) := (ParseStmts(s, j + 3, [], depth + 1).value.0, ParseElse(s, k, depth + 1).value);
      ParseIf(s, i, depth).value == (If(Some(ParseExpr(s, i + 2, LOWEST, depth + 1).value.0), body, alt.0), alt.1)
  {
    hide ParseExpr, ParseStmts, ParseElse;
    j := ParseExpr(s, i + 2, LOWEST, depth + 1).value.1;
    k := ParseStmts(s, j + 3, [], depth + 1).value.1;
  }

  lemma MakeIf(s: Source, i: nat, depth: nat, cond: Cst, body: CBlock, alternative: CElse)
    requires depth < MAX_DEPTH && s.Is(i, IF) && s.Is(i + 1, LPAREN) && ExprAt(s, i + 2, depth + 1, cond)
    requires var j := i + 2 + Len(cond);
      var k := j + 2 + BlockLen(body);
      && s.Is(j, RPAREN) && s.Is(j + 1, LBRACE) && BlockAt(s, j + 2, depth + 1, body) && s.Is(k, RBRACE)
      && ElseAt(s, k + 1, depth + 1, alternative)
    ensures StmtAt(s, i, depth, CIf(cond, body, alternative))
  {
    hide ExprAt, BlockAt, ElseAt;
  }

  lemma {:induction false} FoundIf(s: Source, i: nat, depth: nat) returns (c: CStmt)
    requires s.Is(i, IF) && ParseIf(s, i, depth).Success?
    ensures c.CIf? && StmtAt(s, i, depth, c) && ParseIf(s, i, depth).value == (StmtMeans(s, c), i + StmtLen(c) - 1)
    decreases Left(s, i), 1
  {
    hide ExprAt, StmtAt, BlockAt, ElseAt, Meant, ParseExpr, ParseStmts, ParseElse, ParseIf, Len, Prec;
    var j, k := IfPieces(s, i, depth);
    var cond := FoundExpr(s, i + 2, depth + 1);
    var body := FoundBlock(s, j + 3, depth + 1, []);
    assert [] + BlockMeans(s, body) == BlockMeans(s, body);
    var alternative := FoundElse(s, k, depth + 1);
    MakeIf(s, i, depth, cond, body, alternative);
    c := CIf(cond, body, alternative);
  }

  lemma {:induction false} FoundElse(s: Source, k: nat, depth: nat) returns (c: CElse)
    requires s.Is(k, RBRACE) && ParseElse(s, k, depth).Success?
    ensures ElseAt(s, k + 1, depth, c) && ParseElse(s, k, depth).value == (ElseMeans(s, c), k + ElseLen(c))
    decreases Left(s, k), 0
  {
    hide StmtAt, StmtMeans, StmtLen, BlockAt, BlockMeans, BlockLen, ParseStmts, ParseIf;
    if !s.Is(k + 1, ELSE) {
      c := NoElse;
    } else if s.Is(k + 2, IF) {
      var rest := FoundIf(s, k + 2, depth);
      c := ElseIf(rest);
    } else {
      var body := FoundBlock(s, k + 3, depth, []);
      assert [] + BlockMeans(s, body) == BlockMeans(s, body);
      c := ElseBlock(body);
    }
  }

  lemma {:induction false} FoundStmt(s: Source, i: nat, depth: nat) returns (c: CStmt)
    requires ParseStmt(s, i, depth).Success?
    ensures StmtAt(s, i, depth, c) && ParseStmt(s, i, depth).value == (StmtMeans(s, c), i + StmtLen(c) - 1)
    decreases Left(s, i), 2
  {
    hide StmtAt, StmtMeans, StmtLen, ParseIf, ParseLet, ParseExprOrAssign;
    if s.Is(i, LET) {
      c := FoundLet(s, i, depth);
    } else if s.Is(i, IF) {
      c := FoundIf(s, i, depth);
    } else {
      c := FoundExprOrAssign(s, i, depth);
    }
  }

  /** The rest of a block after a statement does not start with a statement. */
  lemma NewLineNext(s: Source, i: nat, depth: nat, b: CBlock)
    requires BlockAt(s, i, depth, b) && EndsStmt(s.At(i).typ)
    ensures !b.Line?
  {
    hide StmtAt;
    if b.Line? {
      LineStarts(s, i, depth, b.first);
    }
  }

  lemma {:induction false} FoundBlock(s: Source, i: nat, depth: nat, done: seq<Stmt>) returns (b: CBlock)
    requires ParseStmts(s, i, done, depth).Success?
    ensures BlockAt(s, i, depth, b) && s.Is(i + BlockLen(b), RBRACE)
    ensures ParseStmts(s, i, done, depth).value == (done + BlockMeans(s, b), i + BlockLen(b))
    decreases Left(s, i), 3
  {
    hide StmtAt, StmtMeans, StmtLen, ParseStmt;
    if s.Is(i, NEWLINE) {
      var rest := FoundBlock(s, i + 1, depth, done);
      b := Blank(rest);
    } else if s.Is(i, RBRACE) {
      b := NoMore;
      assert done + [] == done;
    } else {
      var first := FoundStmt(s, i, depth);
      var (stmt, j) := ParseStmt(s, i, depth).value;
      var rest := FoundBlock(s, j + 1, depth, done + [stmt]);
      NewLineNext(s, j + 1, depth, rest);
      b := Line(first, rest);
      assert (done + [stmt]) + BlockMeans(s, rest) == done + ([stmt] + BlockMeans(s, rest));
    }
  }

  // ---------- The correspondence ----------

  /** A block up to the `}` that closes it. */
  predicate BlockDerivation(s: Source, i: nat, depth: nat, b: CBlock) {
    BlockAt(s, i, depth, b) && s.Is(i + BlockLen(b), RBRACE)
  }

  /** The parser of blocks succeeds exactly where the grammar has a derivation, and returns what it means. */
  lemma BlocksAreGrammar(s: Source, i: nat, depth: nat)
    ensures ParseStmts(s, i, [], depth).Success? <==> exists b :: BlockDerivation(s, i, depth, b)
    ensures forall b | BlockDerivation(s, i, depth, b) ::
      ParseStmts(s, i, [], depth) == Success((BlockMeans(s, b), i + BlockLen(b)))
  {
    hide ParseStmts, BlockAt, BlockLen, BlockMeans;
    if ParseStmts(s, i, [], depth).Success? {
      var b := FoundBlock(s, i, depth, []);
      assert BlockDerivation(s, i, depth, b);
    }
    forall b | BlockDerivation(s, i, depth, b)
      ensures ParseStmts(s, i, [], depth) == Success((BlockMeans(s, b), i + BlockLen(b)))
    {
      BlockRead(s, i, depth, b, []);
      assert [] + BlockMeans(s, b) == BlockMeans(s, b);
    }
  }

  /** A statement and the end of its line or block after it. */
  predicate StmtDerivation(s: Source, i: nat, depth: nat, c: CStmt) {
    StmtAt(s, i, depth, c) && EndsStmt(s.At(i + StmtLen(c)).typ)
  }

  /**
   The parser reads a statement that ends with its line exactly where the grammar has one, and returns what it means.
   */
  lemma StatementsAreGrammar(s: Source, i: nat, depth: nat)
    ensures (ParseStmt(s, i, depth).Success? && EndsStmt(s.At(ParseStmt(s, i, depth).value.1 + 1).typ))
      <==> exists c :: StmtDerivation(s, i, depth, c)
    ensures forall c | StmtDerivation(s, i, depth, c) ::
      ParseStmt(s, i, depth) == Success((StmtMeans(s, c), i + StmtLen(c) - 1))
  {
    hide ParseStmt, StmtAt, StmtLen, StmtMeans;
    if ParseStmt(s, i, depth).Success? && EndsStmt(s.At(ParseStmt(s, i, depth).value.1 + 1).typ) {
      var c := FoundStmt(s, i, depth);
      assert StmtDerivation(s, i, depth, c);
    }
    forall c | StmtDerivation(s, i, depth, c)
      ensures ParseStmt(s, i, depth) == Success((StmtMeans(s, c), i + StmtLen(c) - 1))
    {
      EndsStop(s.At(i + StmtLen(c)).typ);
      StmtRead(s, i, depth, c);
    }
  }
}
