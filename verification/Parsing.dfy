/**
 The syntax of scripts as a parser that stops at the first error (package parser). It is the reference for the
 recovering parser of Parsers.dfy, and its expressions are proved to be exactly the stratified grammar of
 Grammar.dfy.
 */
module Parsing {
  import opened Wrappers
  import opened Tokens
  import opened Values
  import opened Ast

  // ---------- Token streams ----------

  /** The tokens of a script; past the last one there is EOF forever. */
  datatype Source = Source(toks: seq<Token>, end: Pos, readFloat: string -> Option<F64>)
  {
    function At(i: nat): Token {
      if i < |toks| then toks[i] else Token(end, EOF, "")
    }

    predicate Is(i: nat, t: TokenType) {
      At(i).typ == t
    }
  }

  datatype ParseCode =
    | ExpressionExpected | UnexpectedToken | TopDeclUnexpected | TopDeclMisplaced | DuplicateFunction | NumberOutOfRange
    | TypeExpected | EmptyCustomType | ForbiddenFunction | EmptyFunction | ArgOrderInvalid | MissingRun | NestingTooDeep

  datatype Diag = Diag(code: ParseCode, at: Pos)

  /** What was read and the position of its last token, or the first error. */
  type Parse<T> = Result<(T, nat), Diag>

  function Fail<T>(s: Source, code: ParseCode, i: nat): Result<T, Diag> {
    Failure(Diag(code, s.At(i).pos))
  }

  function Expect(s: Source, i: nat, t: TokenType): Result<(), Diag> {
    if s.Is(i, t) then Success(()) else Fail(s, UnexpectedToken, i)
  }

  // ---------- Precedence (parser/precedence.go) ----------

  const LOWEST := 0
  const PREFIX := 7
  const CALL := 8
  const MAX_DEPTH := 64

  function Prec(t: TokenType): (p: nat)
    ensures p <= CALL && p != PREFIX
  {
    if t.OR? then 1
    else if t.AND? then 2
    else if t.EQ? || t.NEQ? then 3
    else if t.LT? || t.GT? || t.LTEQ? || t.GTEQ? then 4
    else if t.PLUS? || t.MINUS? then 5
    else if t.ASTERISK? || t.SLASH? || t.PERCENT? then 6
    else if t.LPAREN? || t.DOT? || t.LBRACKET? then CALL
    else LOWEST
  }

  predicate Closing(t: TokenType) {
    t in {RPAREN, RBRACKET, RBRACE, COMMA}
  }

  /** No operand can start here. */
  predicate NoOperand(s: Source, i: nat) {
    Closing(s.At(i).typ) || s.Is(i, EOF)
  }

  // ---------- Literals ----------

  function Decimal(digits: string): nat {
    if digits == "" then 0
    else Decimal(digits[..|digits| - 1]) * 10 + if IsDigit(digits[|digits| - 1])
      then (digits[|digits| - 1] - '0') as nat else 0
  }

  /** An unsigned decimal that fits a 64-bit integer. */
  function Atoi(lit: string): Option<Int64> {
    if lit == "" || exists c | c in lit :: !IsDigit(c) then None
    else if Decimal(lit) < TWO_TO_THE_63 then Some(Decimal(lit)) else None
  }

  /** The expression a single token denotes, if it denotes one. */
  function Literal(s: Source, t: TokenType, lit: string): Option<Expr> {
    match t
    case IDENT => Some(Ident(lit))
    case INTEGER => (match Atoi(lit) case Some(n) => Some(IntLit(n)) case None => None)
    case FLOAT => (match s.readFloat(lit) case Some(f) => Some(FloatLit(f)) case None => None)
    case STRING => Some(StrLit(lit))
    case TRUE => Some(BoolLit(true))
    case FALSE => Some(BoolLit(false))
    case _ => None
  }

  // ---------- Expressions (parser/expr.go) ----------

  /** An expression of operators binding tighter than prec, from token i; depth is the nesting around it. */
  function ParseExpr(s: Source, i: nat, prec: nat, depth: nat): (r: Parse<Expr>)
    ensures r.Success? ==> i <= r.value.1 < |s.toks| && !r.value.0.BadExpr?
    decreases MAX_DEPTH - depth, 2, 0
  {
    if depth >= MAX_DEPTH then Fail(s, NestingTooDeep, i) else
    var (left, j) :- ParsePrefix(s, i, depth + 1);
    ParseLoop(s, left, j, prec, depth + 1)
  }

  function ParsePrefix(s: Source, i: nat, depth: nat): (r: Parse<Expr>)
    requires depth <= MAX_DEPTH
    ensures r.Success? ==> i <= r.value.1 < |s.toks| && !r.value.0.BadExpr?
    decreases MAX_DEPTH + 1 - depth, 1, 0
  {
    var t := s.At(i);
    match t.typ
    case MINUS => ParseUnary(s, i, depth)
    case BANG => ParseUnary(s, i, depth)
    case LPAREN =>
      var (e, j) :- ParseExpr(s, i + 1, LOWEST, depth);
      var _ :- Expect(s, j + 1, RPAREN);
      Success((e, j + 1))
    case _ =>
      match Literal(s, t.typ, t.lit)
      case Some(e) => Success((e, i))
      case None => Fail(s, if t.typ in {INTEGER, FLOAT} then NumberOutOfRange else ExpressionExpected, i)
  }

  function ParseUnary(s: Source, i: nat, depth: nat): (r: Parse<Expr>)
    requires depth <= MAX_DEPTH
    ensures r.Success? ==> i <= r.value.1 < |s.toks| && !r.value.0.BadExpr?
    decreases MAX_DEPTH + 1 - depth, 0, 0
  {
    if NoOperand(s, i + 1) then Fail(s, ExpressionExpected, i + 1) else
    var (right, j) :- ParseExpr(s, i + 1, PREFIX, depth);
    Success((Prefix(s.At(i).typ, right), j))
  }

  /** Extends left, whose last token is j, while the next operator binds tighter than prec. */
  function ParseLoop(s: Source, left: Expr, j: nat, prec: nat, depth: nat): (r: Parse<Expr>)
    requires depth <= MAX_DEPTH && j < |s.toks|
    ensures r.Success? ==> j <= r.value.1 < |s.toks| && (!left.BadExpr? ==> !r.value.0.BadExpr?)
    decreases MAX_DEPTH + 1 - depth, 1, |s.toks| - j
  {
    if prec >= Prec(s.At(j + 1).typ) then Success((left, j)) else
    var (next, k) :- ParseInfix(s, left, j + 1, depth);
    ParseLoop(s, next, k, prec, depth)
  }

  /** One operator, at token i, applied to left. */
  function ParseInfix(s: Source, left: Expr, i: nat, depth: nat): (r: Parse<Expr>)
    requires depth <= MAX_DEPTH && Prec(s.At(i).typ) > 0
    ensures r.Success? ==> i <= r.value.1 < |s.toks| && !r.value.0.BadExpr?
    decreases MAX_DEPTH + 1 - depth, 0, |s.toks| + 1
  {
    var op := s.At(i).typ;
    if op == DOT then
      var _ :- Expect(s, i + 1, IDENT);
      Success((Member(left, s.At(i + 1).lit), i + 1))
    else if op == LBRACKET then
      var (index, j) :- ParseExpr(s, i + 1, LOWEST, depth);
      var _ :- Expect(s, j + 1, RBRACKET);
      Success((Index(left, index), j + 1))
    else if op == LPAREN then ParseCall(s, left, i, depth)
    else if NoOperand(s, i + 1) then Fail(s, ExpressionExpected, i + 1)
    else
      var (right, j) :- ParseExpr(s, i + 1, Prec(op), depth);
      Success((Infix(op, left, right), j))
  }

  /** A call of callee, whose `(` is token i. */
  function ParseCall(s: Source, callee: Expr, i: nat, depth: nat): (r: Parse<Expr>)
    requires depth <= MAX_DEPTH && s.Is(i, LPAREN)
    ensures r.Success? ==> i <= r.value.1 < |s.toks| && !r.value.0.BadExpr?
    decreases MAX_DEPTH + 1 - depth, 0, |s.toks| + 1, 0
  {
    if s.Is(i + 1, RPAREN) then Success((Call(callee, [], []), i + 1)) else
    var (parts, j) :- ParseArgs(s, i, [], [], depth);
    Success((Call(callee, parts.0, parts.1), j))
  }

  /** The arguments after the `(` or `,` at token i, up to and including the `)`. */
  function ParseArgs(s: Source, i: nat, args: seq<Expr>, kwargs: seq<Kwarg>,
      depth: nat): (r: Parse<(seq<Expr>, seq<Kwarg>)>)
    requires depth <= MAX_DEPTH && i < |s.toks|
    ensures r.Success? ==> i <= r.value.1 < |s.toks|
    decreases MAX_DEPTH + 1 - depth, 0, |s.toks| - i
  {
    var named := s.Is(i + 1, IDENT) && s.Is(i + 2, ASSIGN);
    if !named && kwargs != [] then Fail(s, ArgOrderInvalid, i + 1) else
    var (value, j) :- ParseExpr(s, if named then i + 3 else i + 1, LOWEST, depth);
    var args' := if named then args else args + [value];
    var kwargs' := if named then kwargs + [Kwarg(s.At(i + 1).lit, value)] else kwargs;
    if s.Is(j + 1, COMMA) && !s.Is(j + 2, RPAREN) then ParseArgs(s, j + 1, args', kwargs', depth) else
    var end := if s.Is(j + 1, COMMA) then j + 2 else j + 1;
    var _ :- Expect(s, end, RPAREN);
    Success(((args', kwargs'), end))
  }

  // ---------- Statements (parser/stmt.go) ----------

  /** How many tokens there are from i on: what reading forward uses up. */
  function Left(s: Source, i: nat): nat {
    if i < |s.toks| then |s.toks| - i else 0
  }

  predicate EndsLine(t: TokenType) {
    t == NEWLINE || t == EOF
  }

  predicate EndsStmt(t: TokenType) {
    EndsLine(t) || t == RBRACE
  }

  /** The first token from i on that is not a newline. */
  function SkipNewlines(s: Source, i: nat): (j: nat)
    ensures i <= j && !s.Is(j, NEWLINE)
    decreases Left(s, i)
  {
    if s.Is(i, NEWLINE) then SkipNewlines(s, i + 1) else i
  }

  /** The statements from token i up to the `}` that closes their block, after those read already. */
  function ParseStmts(s: Source, i: nat, stmts: seq<Stmt>, depth: nat): (r: Parse<seq<Stmt>>)
    ensures r.Success? ==> i <= r.value.1 < |s.toks| && s.Is(r.value.1, RBRACE)
    decreases Left(s, i), 3
  {
    if s.Is(i, NEWLINE) then ParseStmts(s, i + 1, stmts, depth)
    else if s.Is(i, RBRACE) then Success((stmts, i))
    else if s.Is(i, EOF) then Fail(s, UnexpectedToken, i)
    else
      var (stmt, j) :- ParseStmt(s, i, depth);
      if !EndsStmt(s.At(j + 1).typ) then Fail(s, UnexpectedToken, j + 1)
      else ParseStmts(s, j + 1, stmts + [stmt], depth)
  }

  function ParseStmt(s: Source, i: nat, depth: nat): (r: Parse<Stmt>)
    ensures r.Success? ==> i <= r.value.1 < |s.toks|
    decreases Left(s, i), 2
  {
    match s.At(i).typ
    case LET => ParseLet(s, i, depth)
    case IF => ParseIf(s, i, depth)
    case CONST => Fail(s, TopDeclMisplaced, i)
    case INPUT => Fail(s, TopDeclMisplaced, i)
    case OUTPUT => Fail(s, TopDeclMisplaced, i)
    case _ => ParseExprOrAssign(s, i, depth)
  }

  function ParseLet(s: Source, i: nat, depth: nat): (r: Parse<Stmt>)
    ensures r.Success? ==> i <= r.value.1 < |s.toks|
  {
    var _ :- Expect(s, i + 1, IDENT);
    var _ :- Expect(s, i + 2, ASSIGN);
    var (value, j) :- ParseExpr(s, i + 3, LOWEST, depth);
    Success((Let(Some(s.At(i + 1).lit), value), j))
  }

  function ParseExprOrAssign(s: Source, i: nat, depth: nat): (r: Parse<Stmt>)
    ensures r.Success? ==> i <= r.value.1 < |s.toks|
  {
    var (target, j) :- ParseExpr(s, i, LOWEST, depth);
    if !s.Is(j + 1, ASSIGN) then Success((ExprStmt(target), j)) else
    var (value, k) :- ParseExpr(s, j + 2, LOWEST, depth);
    Success((Assign(target, value), k))
  }

  function ParseIf(s: Source, i: nat, depth: nat): (r: Parse<Stmt>)
    requires s.Is(i, IF)
    ensures r.Success? ==> i <= r.value.1 < |s.toks|
    decreases Left(s, i), 1
  {
    if depth >= MAX_DEPTH then Fail(s, NestingTooDeep, i) else
    var _ :- Expect(s, i + 1, LPAREN);
    var (cond, j) :- ParseExpr(s, i + 2, LOWEST, depth + 1);
    var _ :- Expect(s, j + 1, RPAREN);
    var _ :- Expect(s, j + 2, LBRACE);
    var (body, k) :- ParseStmts(s, j + 3, [], depth + 1);
    var (alternative, l) :- ParseElse(s, k, depth + 1);
    Success((If(Some(cond), body, alternative), l))
  }

  /** What may follow the `}` at token k: another if, a block or nothing. */
  function ParseElse(s: Source, k: nat, depth: nat): (r: Parse<Option<Stmt>>)
    requires s.Is(k, RBRACE)
    ensures r.Success? ==> k <= r.value.1 < |s.toks|
    decreases Left(s, k), 0
  {
    if !s.Is(k + 1, ELSE) then Success((None, k))
    else if s.Is(k + 2, IF) then
      var (rest, l) :- ParseIf(s, k + 2, depth);
      Success((Some(rest), l))
    else
      var _ :- Expect(s, k + 2, LBRACE);
      var (rest, l) :- ParseStmts(s, k + 3, [], depth);
      Success((Some(Block(rest)), l))
  }

  // ---------- Declarations (parser/parser.go) ----------

  const INIT := "Init"
  const RUN := "Run"

  /** Fields of an inline type: the next is expected at token i. The result ends at the `}`. */
  function ParseFields(s: Source, i: nat, fields: seq<FieldDecl>): (r: Parse<seq<FieldDecl>>)
    ensures r.Success? ==> i <= r.value.1 < |s.toks|
    decreases Left(s, i)
  {
    var n := SkipNewlines(s, i);
    var _ :- Expect(s, n, IDENT);
    var _ :- Expect(s, n + 1, COLON);
    var _ :- Expect(s, n + 2, IDENT);
    var fields' := fields + [FieldDecl(s.At(n).lit, s.At(n + 2).lit)];
    var more := s.Is(n + 3, COMMA);
    var m := SkipNewlines(s, if more then n + 4 else n + 3);
    if s.Is(m, RBRACE) then Success((fields', m))
    else if more then ParseFields(s, m, fields')
    else Fail(s, UnexpectedToken, m)
  }

  function ParseTypeDecl(s: Source, i: nat): (r: Parse<TypeDecl>)
    ensures r.Success? ==> i <= r.value.1 < |s.toks|
  {
    match s.At(i).typ
    case IDENT => Success((Named(s.At(i).lit), i))
    case LBRACE =>
      if s.Is(SkipNewlines(s, i + 1), RBRACE) then Fail(s, EmptyCustomType, i) else
      var (fields, j) :- ParseFields(s, SkipNewlines(s, i + 1), []);
      Success((Structural(fields), j))
    case _ => Fail(s, TypeExpected, i)
  }

  /** The name and type of the input or output declared at token i. */
  function ParsePort(s: Source, i: nat): (r: Parse<(string, TypeDecl)>)
    ensures r.Success? ==> i <= r.value.1 < |s.toks|
  {
    var _ :- Expect(s, i + 1, IDENT);
    var _ :- Expect(s, i + 2, COLON);
    var (t, j) :- ParseTypeDecl(s, i + 3);
    Success(((s.At(i + 1).lit, t), j))
  }

  function ParseConst(s: Source, i: nat): (r: Parse<Decl>)
    ensures r.Success? ==> i <= r.value.1 < |s.toks|
  {
    var _ :- Expect(s, i + 1, IDENT);
    var _ :- Expect(s, i + 2, ASSIGN);
    var (value, j) :- ParseExpr(s, i + 3, LOWEST, 0);
    Success((Const(Some(s.At(i + 1).lit), Some(value)), j))
  }

  function ParseKind(s: Source, i: nat): (r: Parse<Decl>)
    requires s.Is(i, IDENT) && s.Is(i + 1, IDENT)
    ensures r.Success? ==> i <= r.value.1 < |s.toks|
  {
    var typed := s.Is(i + 2, COLON);
    if typed && !s.Is(i + 3, IDENT) then Fail(s, TypeExpected, i + 3) else
    var e := if typed then i + 3 else i + 1;
    var t := if typed then Some(s.At(i + 3).lit) else None;
    if !s.Is(e + 1, ASSIGN) then Success((Kind(s.At(i).lit, s.At(i + 1).lit, t, None), e)) else
    var (value, j) :- ParseExpr(s, e + 2, LOWEST, 0);
    Success((Kind(s.At(i).lit, s.At(i + 1).lit, t, Some(value)), j))
  }

  /** The name and body of the function at token i. Only Run may not be empty. */
  function ParseFunction(s: Source, i: nat): (r: Parse<(string, seq<Stmt>)>)
    ensures r.Success? ==> i <= r.value.1 < |s.toks|
  {
    var _ :- Expect(s, i + 1, IDENT);
    var name := s.At(i + 1).lit;
    if name != INIT && name != RUN then Fail(s, ForbiddenFunction, i + 1) else
    var _ :- Expect(s, i + 2, LPAREN);
    var _ :- Expect(s, i + 3, RPAREN);
    var _ :- Expect(s, i + 4, LBRACE);
    var (body, j) :- ParseStmts(s, i + 5, [], 0);
    if body == [] && name == RUN then Fail(s, EmptyFunction, j) else Success(((name, body), j))
  }

  /** p with the declaration at token i. */
  function ParseTop(s: Source, i: nat, p: Program): (r: Parse<Program>)
    ensures r.Success? ==> i <= r.value.1 < |s.toks|
  {
    match s.At(i).typ
    case CONST =>
      var (d, j) :- ParseConst(s, i);
      Success((p.(decls := p.decls + [d]), j))
    case INPUT =>
      var (d, j) :- ParsePort(s, i);
      Success((p.(decls := p.decls + [Input(Some(d.0), Some(d.1))]), j))
    case OUTPUT =>
      var (d, j) :- ParsePort(s, i);
      Success((p.(decls := p.decls + [Output(Some(d.0), Some(d.1))]), j))
    case IDENT =>
      if !s.Is(i + 1, IDENT) then Fail(s, TopDeclUnexpected, i) else
      var (d, j) :- ParseKind(s, i);
      Success((p.(decls := p.decls + [d]), j))
    case FUNCTION =>
      var (f, j) :- ParseFunction(s, i);
      if f.0 == INIT then
        if p.initFn.Some? then Fail(s, DuplicateFunction, i) else Success((p.(initFn := Some(f.1)), j))
      else
        if p.runFn.Some? then Fail(s, DuplicateFunction, i) else Success((p.(runFn := Some(f.1)), j))
    case _ => Fail(s, TopDeclUnexpected, i)
  }

  function ParseTops(s: Source, i: nat, p: Program): Result<Program, Diag>
    decreases Left(s, i)
  {
    if s.Is(i, EOF) then if p.runFn.None? then Fail(s, MissingRun, i) else Success(p)
    else if s.Is(i, NEWLINE) then ParseTops(s, i + 1, p)
    else
      var (p', j) :- ParseTop(s, i, p);
      if !EndsLine(s.At(j + 1).typ) then Fail(s, UnexpectedToken, j + 1)
      else ParseTops(s, j + 1, p')
  }

  const EMPTY_PROGRAM := Program([], None, None)

  function ParseProgram(s: Source): Result<Program, Diag> {
    ParseTops(s, 0, EMPTY_PROGRAM)
  }
}
