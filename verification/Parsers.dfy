/**
 The recovering parser (package parser): it goes on after an error, so it keeps a list of diagnostics and may
 build bad nodes, yet it agrees with the parser of Parsing.dfy that stops at the first error. Without
 errors the tree and the last token read are the same; otherwise the first new diagnostic is that first error.
 */
module Parsers {
  import opened Wrappers
  import opened Tokens
  import opened Values
  import opened Ast
  import opened Parsing

  const MAX_PARSE_ERRORS := 100

  /** The diagnostics kept of all those reported. */
  function Capped(all: seq<Diag>): (kept: seq<Diag>)
    ensures |kept| <= MAX_PARSE_ERRORS
  {
    if |all| <= MAX_PARSE_ERRORS then all else all[..MAX_PARSE_ERRORS]
  }

  /**
   Reading reported after instead of before and returned r with pos on its last token: does the strict parser concur?
   */
  ghost predicate Agrees<T>(before: seq<Diag>, after: seq<Diag>, strict: Parse<T>, r: T, pos: nat) {
    && before <= after
    && (strict.Success? ==> after == before && strict.value == (r, pos))
    && (strict.Failure? ==> |after| > |before| && after[|before|] == strict.error)
  }

  /** As long as nothing is reported what strict reads is what rest will read; the first report is its error. */
  ghost predicate Tracks<T>(before: seq<Diag>, after: seq<Diag>, strict: Result<T, Diag>, rest: Result<T, Diag>) {
    && before <= after
    && (if |after| == |before| then strict == rest else strict == Failure(after[|before|]))
  }

  /** What remains of an argument list after its last argument or trailing comma, token i. */
  function CloseArgs(s: Source, i: nat, args: seq<Expr>, kwargs: seq<Kwarg>): Parse<(seq<Expr>, seq<Kwarg>)> {
    var _ :- Expect(s, i + 1, RPAREN);
    Success(((args, kwargs), i + 1))
  }

  /** What remains of an argument list after an argument that ends at token j. */
  function AfterArg(s: Source, j: nat, args: seq<Expr>, kwargs: seq<Kwarg>, depth: nat): Parse<(seq<Expr>, seq<Kwarg>)>
    requires depth <= MAX_DEPTH && j < |s.toks|
  {
    if !s.Is(j + 1, COMMA) then CloseArgs(s, j, args, kwargs)
    else if s.Is(j + 2, RPAREN) then CloseArgs(s, j + 1, args, kwargs)
    else ParseArgs(s, j + 1, args, kwargs, depth)
  }

  lemma ArgsUnfold(s: Source, i: nat, args: seq<Expr>, kwargs: seq<Kwarg>, depth: nat)
    requires depth <= MAX_DEPTH && i < |s.toks|
    ensures
      var named := s.Is(i + 1, IDENT) && s.Is(i + 2, ASSIGN);
      var value := ParseExpr(s, if named then i + 3 else i + 1, LOWEST, depth);
      ParseArgs(s, i, args, kwargs, depth) ==
        if !named && kwargs != [] then Fail(s, ArgOrderInvalid, i + 1)
        else if value.Failure? then Failure(value.error)
        else if named then AfterArg(s, value.value.1, args, kwargs + [Kwarg(s.At(i + 1).lit, value.value.0)], depth)
        else AfterArg(s, value.value.1, args + [value.value.0], kwargs, depth)
  {
    hide ParseExpr;
  }

  lemma IndexUnfold(s: Source, left: Expr, i: nat, depth: nat)
    requires depth <= MAX_DEPTH && s.Is(i, LBRACKET)
    ensures
      var index := ParseExpr(s, i + 1, LOWEST, depth);
      ParseInfix(s, left, i, depth) ==
        if index.Failure? then Failure(index.error)
        else if s.Is(index.value.1 + 1, RBRACKET) then Success((Index(left, index.value.0), index.value.1 + 1))
        else Fail(s, UnexpectedToken, index.value.1 + 1)
  {
    hide ParseExpr, ParseArgs;
  }

  /** The parenthesised condition of the if at token i. */
  function Condition(s: Source, i: nat, depth: nat): (r: Parse<Option<Expr>>)
    ensures r.Success? ==> i <= r.value.1
  {
    var _ :- Expect(s, i + 1, LPAREN);
    var (cond, j) :- ParseExpr(s, i + 2, LOWEST, depth);
    var _ :- Expect(s, j + 1, RPAREN);
    Success((Some(cond), j + 1))
  }

  /** The same, up to the `{` of the block: the second component says that it was found. */
  function IfHead(s: Source, i: nat, depth: nat): (r: Parse<(Option<Expr>, bool)>)
    ensures r.Success? ==> i <= r.value.1 && s.Is(r.value.1, LBRACE) && r.value.0.1
  {
    var (cond, j) :- Condition(s, i, depth);
    var _ :- Expect(s, j + 1, LBRACE);
    Success(((cond, true), j + 1))
  }

  lemma StmtsUnfold(s: Source, i: nat, stmts: seq<Stmt>, depth: nat)
    ensures s.Is(i, NEWLINE) ==> ParseStmts(s, i, stmts, depth) == ParseStmts(s, i + 1, stmts, depth)
    ensures s.Is(i, RBRACE) ==> ParseStmts(s, i, stmts, depth) == Success((stmts, i))
    ensures s.Is(i, EOF) ==> ParseStmts(s, i, stmts, depth) == Fail(s, UnexpectedToken, i)
  {
    hide ParseStmt;
  }

  lemma IfUnfold(s: Source, i: nat, depth: nat)
    requires s.Is(i, IF)
    ensures ParseIf(s, i, depth) ==
      if depth >= MAX_DEPTH then Fail(s, NestingTooDeep, i)
      else
        var (head, j) :- IfHead(s, i, depth + 1);
        var (body, k) :- ParseStmts(s, j + 1, [], depth + 1);
        var (alternative, l) :- ParseElse(s, k, depth + 1);
        Success((If(head.0, body, alternative), l))
  {
    hide ParseExpr, ParseStmts, ParseElse;
  }

  /** The block after the `else` at token i. */
  function ElseBlock(s: Source, i: nat, depth: nat): Parse<Option<Stmt>> {
    var _ :- Expect(s, i + 1, LBRACE);
    var (rest, l) :- ParseStmts(s, i + 2, [], depth);
    Success((Some(Block(rest)), l))
  }

  lemma ElseUnfold(s: Source, k: nat, depth: nat)
    requires s.Is(k, RBRACE)
    ensures ParseElse(s, k, depth) ==
      if !s.Is(k + 1, ELSE) then Success((None, k))
      else if s.Is(k + 2, IF) then
        var (rest, l) :- ParseIf(s, k + 2, depth);
        Success((Some(rest), l))
      else ElseBlock(s, k + 1, depth)
  {
    hide ParseIf, ParseStmts;
  }

  /** Tokens with a prefix production. */
  predicate StartsOperand(t: TokenType) {
    t in {IDENT, INTEGER, FLOAT, STRING, MINUS, BANG, TRUE, FALSE, LPAREN}
  }

  function PortRead(s: Source, i: nat): Parse<(Option<string>, Option<TypeDecl>)> {
    var (d, j) :- ParsePort(s, i);
    Success(((Some(d.0), Some(d.1)), j))
  }

  function TypeRead(s: Source, i: nat): Parse<Option<TypeDecl>> {
    var (t, j) :- ParseTypeDecl(s, i);
    Success((Some(t), j))
  }

  /** The fields of the inline type whose `{` is token i. */
  function InlineType(s: Source, i: nat): Parse<seq<FieldDecl>> {
    if s.Is(SkipNewlines(s, i + 1), RBRACE) then Fail(s, EmptyCustomType, i)
    else ParseFields(s, SkipNewlines(s, i + 1), [])
  }

  function FieldAt(s: Source, n: nat): Result<FieldDecl, Diag> {
    var _ :- Expect(s, n, IDENT);
    var _ :- Expect(s, n + 1, COLON);
    var _ :- Expect(s, n + 2, IDENT);
    Success(FieldDecl(s.At(n).lit, s.At(n + 2).lit))
  }

  /** What remains of an inline type after a field that ends at token j. */
  function AfterField(s: Source, j: nat, fields: seq<FieldDecl>): Parse<seq<FieldDecl>> {
    var more := s.Is(j + 1, COMMA);
    var m := SkipNewlines(s, if more then j + 2 else j + 1);
    if s.Is(m, RBRACE) then Success((fields, m))
    else if more then ParseFields(s, m, fields)
    else Fail(s, UnexpectedToken, m)
  }

  lemma FieldsUnfold(s: Source, i: nat, fields: seq<FieldDecl>)
    ensures var n := SkipNewlines(s, i);
      ParseFields(s, i, fields) == (var f :- FieldAt(s, n); AfterField(s, n + 2, fields + [f]))
  {
    hide SkipNewlines;
  }

  lemma SkippedAlready(s: Source, i: nat)
    ensures !s.Is(i, NEWLINE) ==> SkipNewlines(s, i) == i
  {
  }

  function FunctionName(s: Source, i: nat): Result<string, Diag> {
    var _ :- Expect(s, i + 1, IDENT);
    var name := s.At(i + 1).lit;
    if name != INIT && name != RUN then Fail(s, ForbiddenFunction, i + 1) else Success(name)
  }

  /** The name of the function at token i, up to its `{`; the second component says that it was found. */
  function FunctionHead(s: Source, i: nat): (r: Parse<(string, bool)>)
    ensures r.Success? ==> r.value.0.1 && r.value.1 == i + 4
  {
    var name :- FunctionName(s, i);
    var _ :- Expect(s, i + 2, LPAREN);
    var _ :- Expect(s, i + 3, RPAREN);
    var _ :- Expect(s, i + 4, LBRACE);
    Success(((name, true), i + 4))
  }

  lemma FunctionUnfold(s: Source, i: nat)
    ensures ParseFunction(s, i) ==
      (var (head, k) :- FunctionHead(s, i);
       var (body, j) :- ParseStmts(s, k + 1, [], 0);
       if body == [] && head.0 == RUN then Fail(s, EmptyFunction, j) else Success(((head.0, body), j)))
  {
    hide ParseStmts;
  }

  lemma TopsUnfold(s: Source, i: nat, p: Program)
    ensures ParseTops(s, i, p) ==
      if s.Is(i, EOF) then if p.runFn.None? then Fail(s, MissingRun, i) else Success(p)
      else if s.Is(i, NEWLINE) then ParseTops(s, i + 1, p)
      else
        var (p', j) :- ParseTop(s, i, p);
        if !EndsLine(s.At(j + 1).typ) then Fail(s, UnexpectedToken, j + 1) else ParseTops(s, j + 1, p')
  {
    hide ParseTop;
  }

  /** How many of the braces in tokens i to j are left open. */
  function Opened(s: Source, i: nat, j: nat): int
    requires i <= j
  {
    if i == j then 0
    else Opened(s, i, j - 1) + if s.Is(j - 1, LBRACE) then 1 else if s.Is(j - 1, RBRACE) then -1 else 0
  }

  /** Tokens i to j close no brace they do not open. */
  predicate NeverCloses(s: Source, i: nat, j: nat) {
    forall k | i <= k <= j :: Opened(s, i, k) >= 0
  }

  /**
   Scanning a broken statement from start, its end is next to k: EOF, or a newline, `}` or EOF outside inner braces.
   */
  predicate EndsAt(s: Source, start: nat, k: nat)
    requires start <= k
  {
    || s.Is(k, EOF)
    || (Opened(s, start + 1, k + 1) == 0
      && (s.Is(k, NEWLINE) || s.Is(k + 1, EOF) || s.Is(k + 1, RBRACE) || s.Is(k + 1, NEWLINE)))
  }

  predicate FirstEnd(s: Source, start: nat, k: nat) {
    start <= k && EndsAt(s, start, k) && forall j | start <= j < k :: !EndsAt(s, start, j)
  }

  /** A newline that ends the statement becomes the current token; a `}` or EOF stays the next one. */
  function Landing(s: Source, k: nat): nat {
    if !s.Is(k, EOF) && !s.Is(k, NEWLINE) && s.Is(k + 1, NEWLINE) then k + 1 else k
  }

  /** Where the search for a block on this line stops. */
  predicate StopsHead(t: TokenType) {
    t == LBRACE || t == NEWLINE || t == RBRACE || t == EOF
  }

  class Parser {
    const src: Source
    /** The current token; the one after it is the peek token. */
    var pos: nat
    var errors: seq<Diag>
    var errCount: nat
    var depth: nat
    /** Every diagnostic, those past the cap included. */
    ghost var all: seq<Diag>
    /** The highest value depth has had. */
    ghost var peak: nat

    ghost predicate Valid()
      reads this
    {
      errCount == |all| && errors == Capped(all) && depth <= peak <= MAX_DEPTH + 1
    }

    constructor (src: Source)
      ensures Valid() && this.src == src && pos == 0 && depth == 0 && all == []
    {
      this.src := src;
      pos, errors, errCount, depth := 0, [], 0, 0;
      all, peak := [], 0;
    }

    function Peek(): TokenType
      reads this
    {
      src.At(pos + 1).typ
    }

    method AddDiag(code: ParseCode, i: nat)
      requires Valid()
      modifies this`errors, this`errCount, this`all
      ensures Valid() && all == old(all) + [Diag(code, src.At(i).pos)]
    {
      var d := Diag(code, src.At(i).pos);
      errCount := errCount + 1;
      if |errors| < MAX_PARSE_ERRORS {
        errors := errors + [d];
      }
      all := all + [d];
    }

    method Enter()
      requires Valid() && depth <= MAX_DEPTH
      modifies this`depth, this`peak
      ensures Valid() && depth == old(depth) + 1
    {
      depth := depth + 1;
      peak := if depth > peak then depth else peak;
    }

    // ---------- Expressions (parser/expr.go) ----------

    method ParseExpression(prec: nat) returns (e: Expr)
      requires Valid() && depth <= MAX_DEPTH
      modifies this
      ensures Valid() && depth == old(depth) && old(pos) <= pos
      ensures Agrees(old(all), all, ParseExpr(src, old(pos), prec, depth), e, pos)
      decreases MAX_DEPTH - depth, 2, 0
    {
      hide ParsePrefix, ParseInfix, Capped;
      Enter();
      if depth > MAX_DEPTH {
        AddDiag(NestingTooDeep, pos);
        depth := depth - 1;
        return BadExpr;
      }
      ghost var strict := ParseExpr(src, pos, prec, depth - 1);
      e := ParseOperand();
      while !e.BadExpr? && Peek() != NEWLINE && prec < Prec(Peek())
        invariant Valid() && depth == old(depth) + 1 && old(pos) <= pos
        invariant |all| == |old(all)| ==> pos < |src.toks| && !e.BadExpr?
        invariant |all| == |old(all)| ==> strict == ParseLoop(src, e, pos, prec, depth)
        invariant old(all) <= all
        invariant |all| > |old(all)| ==> strict == Failure(all[|old(all)|])
        decreases |src.toks| - pos
      {
        pos := pos + 1;
        e := ParseInfixAt(e);
      }
      depth := depth - 1;
    }

    /** The prefix production of the current token. */
    method ParseOperand() returns (e: Expr)
      requires Valid() && 0 < depth <= MAX_DEPTH
      modifies this
      ensures Valid() && depth == old(depth) && old(pos) <= pos
      ensures Agrees(old(all), all, ParsePrefix(src, old(pos), depth), e, pos)
      decreases MAX_DEPTH + 1 - depth, 1, 0
    {
      hide ParseExpr, Capped;
      var t := src.At(pos);
      if t.typ == MINUS || t.typ == BANG {
        e := ParsePrefixExpr();
      } else if t.typ == LPAREN {
        e := ParseGroupExpr();
      } else {
        var lit := Literal(src, t.typ, t.lit);
        if lit.Some? {
          return lit.value;
        }
        AddDiag(if t.typ == INTEGER || t.typ == FLOAT then NumberOutOfRange else ExpressionExpected, pos);
        e := BadExpr;
      }
    }

    method ParsePrefixExpr() returns (e: Expr)
      requires Valid() && 0 < depth <= MAX_DEPTH && src.At(pos).typ in {MINUS, BANG}
      modifies this
      ensures Valid() && depth == old(depth) && old(pos) <= pos
      ensures Agrees(old(all), all, ParsePrefix(src, old(pos), depth), e, pos)
      decreases MAX_DEPTH + 1 - depth, 0, 0
    {
      hide ParseExpr, Capped;
      var op := src.At(pos).typ;
      if Closing(Peek()) || Peek() == EOF {
        AddDiag(ExpressionExpected, pos + 1);
        return Prefix(op, BadExpr);
      }
      pos := pos + 1;
      var right := ParseExpression(PREFIX);
      e := Prefix(op, right);
    }

    method ParseGroupExpr() returns (e: Expr)
      requires Valid() && 0 < depth <= MAX_DEPTH && src.Is(pos, LPAREN)
      modifies this
      ensures Valid() && depth == old(depth) && old(pos) <= pos
      ensures Agrees(old(all), all, ParsePrefix(src, old(pos), depth), e, pos)
      decreases MAX_DEPTH + 1 - depth, 0, 0
    {
      hide ParseExpr, Capped;
      pos := pos + 1;
      e := ParseExpression(LOWEST);
      if e.BadExpr? {
        return;
      }
      if Peek() == RPAREN {
        pos := pos + 1;
      } else {
        AddDiag(UnexpectedToken, pos + 1);
        e := BadExpr;
      }
    }

    /** The infix production of the current token, applied to left. */
    method ParseInfixAt(left: Expr) returns (e: Expr)
      requires Valid() && 0 < depth <= MAX_DEPTH && Prec(src.At(pos).typ) > 0
      modifies this
      ensures Valid() && depth == old(depth) && old(pos) <= pos
      ensures Agrees(old(all), all, ParseInfix(src, left, old(pos), depth), e, pos)
      decreases MAX_DEPTH + 1 - depth, 1, 0
    {
      hide ParseInfix, Capped;
      var op := src.At(pos).typ;
      if op == DOT {
        e := ParseMemberExpr(left);
      } else if op == LBRACKET {
        e := ParseIndexExpr(left);
      } else if op == LPAREN {
        e := ParseCallExpr(left);
      } else {
        e := ParseInfixExpr(left);
      }
    }

    method ParseInfixExpr(left: Expr) returns (e: Expr)
      requires Valid() && 0 < depth <= MAX_DEPTH && Prec(src.At(pos).typ) > 0
      requires src.At(pos).typ !in {DOT, LBRACKET, LPAREN}
      modifies this
      ensures Valid() && depth == old(depth) && old(pos) <= pos
      ensures Agrees(old(all), all, ParseInfix(src, left, old(pos), depth), e, pos)
      decreases MAX_DEPTH + 1 - depth, 0, 0
    {
      hide ParseExpr, Capped, ParseArgs, Prec;
      var op := src.At(pos).typ;
      if Closing(Peek()) || Peek() == EOF {
        AddDiag(ExpressionExpected, pos + 1);
        return Infix(op, left, BadExpr);
      }
      pos := pos + 1;
      var right := ParseExpression(Prec(op));
      e := Infix(op, left, right);
    }

    method ParseMemberExpr(left: Expr) returns (e: Expr)
      requires Valid() && 0 < depth <= MAX_DEPTH && src.Is(pos, DOT)
      modifies this
      ensures Valid() && depth == old(depth) && old(pos) <= pos
      ensures Agrees(old(all), all, ParseInfix(src, left, old(pos), depth), e, pos)
      decreases MAX_DEPTH + 1 - depth, 0, 0
    {
      hide ParseExpr, Capped, ParseArgs;
      pos := pos + 1;
      if !src.Is(pos, IDENT) {
        AddDiag(UnexpectedToken, pos);
        return BadExpr;
      }
      e := Member(left, src.At(pos).lit);
    }

    method ParseIndexExpr(left: Expr) returns (e: Expr)
      requires Valid() && 0 < depth <= MAX_DEPTH && src.Is(pos, LBRACKET)
      modifies this
      ensures Valid() && depth == old(depth) && old(pos) <= pos
      ensures Agrees(old(all), all, ParseInfix(src, left, old(pos), depth), e, pos)
      decreases MAX_DEPTH + 1 - depth, 0, 0
    {
      hide ParseExpr, Capped, ParseInfix;
      IndexUnfold(src, left, pos, depth);
      pos := pos + 1;
      var index := ParseExpression(LOWEST);
      if index.BadExpr? {
        return index;
      }
      if Peek() == RBRACKET {
        pos := pos + 1;
      } else {
        AddDiag(UnexpectedToken, pos + 1);
        return BadExpr;
      }
      e := Index(left, index);
    }

    method ParseCallExpr(callee: Expr) returns (e: Expr)
      requires Valid() && 0 < depth <= MAX_DEPTH && src.Is(pos, LPAREN)
      modifies this
      ensures Valid() && depth == old(depth) && old(pos) <= pos
      ensures Agrees(old(all), all, ParseInfix(src, callee, old(pos), depth), e, pos)
      decreases MAX_DEPTH + 1 - depth, 0, 1
    {
      hide ParseExpr, Capped, ParseArgs;
      if Peek() == RPAREN {
        pos := pos + 1;
        return Call(callee, [], []);
      }
      var args, kwargs, closed := ParseArguments();
      e := if closed then Call(callee, args, kwargs) else BadExpr;
    }

    /** The loop over the arguments; closed says whether the `)` was found. */
    method ParseArguments() returns (args: seq<Expr>, kwargs: seq<Kwarg>, closed: bool)
      requires Valid() && 0 < depth <= MAX_DEPTH && pos < |src.toks|
      modifies this
      ensures Valid() && depth == old(depth) && old(pos) <= pos
      ensures Agrees(old(all), all, ParseArgs(src, old(pos), [], [], depth), (args, kwargs), pos)
      ensures !closed ==> |all| > |old(all)|
      decreases MAX_DEPTH + 1 - depth, 0, 0
    {
      hide ParseExpr, Capped, ParseArgs, Prec, NoOperand;
      args, kwargs := [], [];
      ghost var strict := ParseArgs(src, pos, [], [], depth);
      var kwargSeen, more := false, true;
      while more
        invariant Valid() && depth == old(depth) && old(pos) <= pos && (more ==> pos < |src.toks|)
        invariant |all| == |old(all)| ==> kwargSeen == (kwargs != [])
        invariant Tracks(old(all), all, strict, if more && pos < |src.toks|
          then ParseArgs(src, pos, args, kwargs, depth) else CloseArgs(src, pos, args, kwargs))
        decreases more, |src.toks| - pos
      {
        args, kwargs, kwargSeen, more := ParseArgument(args, kwargs, kwargSeen);
      }
      closed := Peek() == RPAREN;
      if closed {
        pos := pos + 1;
      } else {
        AddDiag(UnexpectedToken, pos + 1);
      }
    }

    /** One argument after the `(` or `,` that is the current token; more says whether another one follows. */
    method ParseArgument(args: seq<Expr>, kwargs: seq<Kwarg>, kwargSeen: bool)
      returns (args': seq<Expr>, kwargs': seq<Kwarg>, kwargSeen': bool, more: bool)
      requires Valid() && 0 < depth <= MAX_DEPTH && pos < |src.toks|
      modifies this
      ensures Valid() && depth == old(depth) && old(pos) < pos && (more ==> pos < |src.toks|) && old(all) <= all
      ensures |all| == |old(all)| && kwargSeen == (kwargs != []) ==> kwargSeen' == (kwargs' != [])
      ensures kwargSeen == (kwargs != []) ==>
        Tracks(old(all), all, ParseArgs(src, old(pos), args, kwargs, depth),
               if more && pos < |src.toks| then ParseArgs(src, pos, args', kwargs', depth)
                 else CloseArgs(src, pos, args', kwargs'))
      decreases MAX_DEPTH + 1 - depth, 0, 0, 0
    {
      hide ParseExpr, Capped, ParseArgs, CloseArgs, AfterArg;
      ArgsUnfold(src, pos, args, kwargs, depth);
      args', kwargs', kwargSeen', more := args, kwargs, kwargSeen, false;
      pos := pos + 1;
      var errsBefore := errCount;
      if src.Is(pos, IDENT) && Peek() == ASSIGN {
        kwargSeen' := true;
        var key := src.At(pos).lit;
        pos := pos + 2;
        var value := ParseExpression(LOWEST);
        if errCount == errsBefore {
          kwargs' := kwargs + [Kwarg(key, value)];
        }
      } else {
        if kwargSeen {
          AddDiag(ArgOrderInvalid, pos);
          return;
        }
        var arg := ParseExpression(LOWEST);
        if errCount == errsBefore {
          args' := args + [arg];
        }
      }
      more := SkipComma(args', kwargs');
    }

    /** Moves onto a comma; more says whether an argument follows it. */
    method SkipComma(ghost args: seq<Expr>, ghost kwargs: seq<Kwarg>) returns (more: bool)
      requires Valid() && depth <= MAX_DEPTH
      modifies this`pos
      ensures Valid() && old(pos) <= pos && (more ==> pos < |src.toks|)
      ensures old(pos) < |src.toks| ==>
        (AfterArg(src, old(pos), args, kwargs, depth)
          == if more then ParseArgs(src, pos, args, kwargs, depth) else CloseArgs(src, pos, args, kwargs))
    {
      hide ParseArgs, CloseArgs, Capped;
      more := false;
      if Peek() == COMMA {
        pos := pos + 1;
        more := Peek() != RPAREN;
      }
    }

    // ---------- Recovery (parser/helpers.go) ----------

    /** Goes to the first newline from the current token on, or stops where the next token is EOF. */
    method SyncToNewLine()
      requires Valid()
      modifies this`pos
      ensures Valid() && old(pos) <= pos && (src.Is(pos, NEWLINE) || Peek() == EOF)
      ensures forall k | old(pos) <= k < pos :: !src.Is(k, NEWLINE) && !src.Is(k + 1, EOF)
    {
      while !src.Is(pos, NEWLINE) && Peek() != EOF
        invariant old(pos) <= pos
        invariant forall k | old(pos) <= k < pos :: !src.Is(k, NEWLINE) && !src.Is(k + 1, EOF)
        decreases |src.toks| - pos
      {
        pos := pos + 1;
      }
    }

    /**
     Goes to the end of a broken statement: the last token before a newline, `}` or EOF that is not inside
     braces opened on the way. Never leaves the block the statement is in.
     */
    method SyncToStmtEnd()
      requires Valid()
      modifies this`pos
      ensures Valid() && old(pos) <= pos
      ensures NeverCloses(src, old(pos) + 1, pos + 1)
      ensures src.Is(pos, EOF) ||
        (Opened(src, old(pos) + 1, pos + 1) == 0 && (src.Is(pos, NEWLINE) || Peek() == EOF || Peek() == RBRACE))
      ensures exists k :: FirstEnd(src, old(pos), k) && pos == Landing(src, k)
    {
      var braces := 0;
      while !src.Is(pos, EOF)
        invariant old(pos) <= pos && braces == Opened(src, old(pos) + 1, pos + 1) >= 0
        invariant forall j | old(pos) <= j < pos :: !EndsAt(src, old(pos), j)
        invariant NeverCloses(src, old(pos) + 1, pos + 1)
        decreases Left(src, pos)
      {
        if braces == 0 {
          if src.Is(pos, NEWLINE) || Peek() == EOF || Peek() == RBRACE {
            assert FirstEnd(src, old(pos), pos);
            return;
          }
          if Peek() == NEWLINE {
            assert FirstEnd(src, old(pos), pos);
            pos := pos + 1;
            return;
          }
        }
        if Peek() == LBRACE {
          braces := braces + 1;
        } else if Peek() == RBRACE {
          braces := braces - 1;
        }
        pos := pos + 1;
      }
      assert FirstEnd(src, old(pos), pos);
    }

    /**
     Goes to the first `{`, newline, `}` or EOF, and says whether it is a `{`: one on this line, before the block ends.
     */
    method AdvanceToLBrace() returns (found: bool)
      requires Valid()
      modifies this`pos
      ensures Valid() && old(pos) <= pos && (found ==> src.Is(pos, LBRACE))
      ensures found <==> exists k | old(pos) <= k <= pos ::
        src.Is(k, LBRACE) && forall l | old(pos) <= l < k :: !StopsHead(src.At(l).typ)
      ensures StopsHead(src.At(pos).typ) && forall l | old(pos) <= l < pos :: !StopsHead(src.At(l).typ)
    {
      while !src.Is(pos, LBRACE)
        invariant old(pos) <= pos && forall l | old(pos) <= l < pos :: !StopsHead(src.At(l).typ)
        decreases |src.toks| - pos
      {
        if src.Is(pos, NEWLINE) || src.Is(pos, RBRACE) || src.Is(pos, EOF) {
          return false;
        }
        pos := pos + 1;
      }
      found := true;
    }

    method SkipPeekNewLines()
      requires Valid()
      modifies this`pos
      ensures Valid() && old(pos) <= pos && pos + 1 == SkipNewlines(src, old(pos) + 1)
    {
      while Peek() == NEWLINE
        invariant old(pos) <= pos && SkipNewlines(src, pos + 1) == SkipNewlines(src, old(pos) + 1)
        decreases |src.toks| - pos
      {
        pos := pos + 1;
      }
    }

    // ---------- Statements (parser/stmt.go) ----------

    /** The block whose `{` is the current token; ends on its `}`, or at EOF. */
    method ParseBlock() returns (stmts: seq<Stmt>)
      requires Valid() && depth <= MAX_DEPTH && src.Is(pos, LBRACE)
      modifies this
      ensures Valid() && depth == old(depth) && old(pos) < pos
      ensures Agrees(old(all), all, ParseStmts(src, old(pos) + 1, [], depth), stmts, pos)
      decreases Left(src, pos), 0
    {
      hide Capped, ParseStmts;
      stmts := [];
      pos := pos + 1;
      ghost var strict := ParseStmts(src, pos, [], depth);
      while !src.Is(pos, RBRACE) && !src.Is(pos, EOF)
        invariant Valid() && depth == old(depth) && old(pos) < pos
        invariant Tracks(old(all), all, strict, ParseStmts(src, pos, stmts, depth))
        decreases Left(src, pos)
      {
        StmtsUnfold(src, pos, stmts, depth);
        if src.Is(pos, NEWLINE) {
          pos := pos + 1;
        } else {
          var stmt := ParseLine(stmts);
          stmts := stmts + [stmt];
        }
      }
      StmtsUnfold(src, pos, stmts, depth);
      if src.Is(pos, EOF) {
        AddDiag(UnexpectedToken, pos);
      }
    }

    /** One statement and what must follow it; after an error, everything up to the end of the statement. */
    method ParseLine(ghost stmts: seq<Stmt>) returns (stmt: Stmt)
      requires Valid() && depth <= MAX_DEPTH && src.At(pos).typ !in {NEWLINE, RBRACE, EOF}
      modifies this
      ensures Valid() && depth == old(depth) && old(pos) < pos
      ensures Tracks(old(all), all, ParseStmts(src, old(pos), stmts, depth),
        ParseStmts(src, pos, stmts + [stmt], depth))
      decreases Left(src, pos), 3
    {
      hide Capped, ParseStmt;
      var errsBefore := errCount;
      stmt := ParseStatement();
      if errCount != errsBefore {
        SyncToStmtEnd();
      } else if Peek() != NEWLINE && Peek() != RBRACE && Peek() != EOF {
        AddDiag(UnexpectedToken, pos + 1);
        SyncToStmtEnd();
      }
      pos := pos + 1;
    }

    method ParseStatement() returns (stmt: Stmt)
      requires Valid() && depth <= MAX_DEPTH
      modifies this
      ensures Valid() && depth == old(depth) && old(pos) <= pos
      ensures Agrees(old(all), all, ParseStmt(src, old(pos), depth), stmt, pos)
      decreases Left(src, pos), 2
    {
      hide Capped, ParseLet, ParseIf, ParseExprOrAssign;
      var t := src.At(pos).typ;
      if t == LET {
        stmt := ParseLetStmt();
      } else if t == IF {
        stmt := ParseIfStmt();
      } else if t == CONST || t == INPUT || t == OUTPUT {
        AddDiag(TopDeclMisplaced, pos);
        stmt := BadStmt;
      } else {
        stmt := ParseExprOrAssignStmt();
      }
    }

    method ParseLetStmt() returns (stmt: Stmt)
      requires Valid() && depth <= MAX_DEPTH
      modifies this
      ensures Valid() && depth == old(depth) && old(pos) <= pos
      ensures Agrees(old(all), all, ParseLet(src, old(pos), depth), stmt, pos)
    {
      hide Capped, ParseExpr;
      var name := None;
      pos := pos + 1;
      if src.Is(pos, IDENT) {
        name := Some(src.At(pos).lit);
        pos := pos + 1;
      } else {
        AddDiag(UnexpectedToken, pos);
      }
      if src.Is(pos, ASSIGN) {
        pos := pos + 1;
      } else if name.Some? {
        AddDiag(UnexpectedToken, pos);
      }
      var value := ParseExpression(LOWEST);
      stmt := Let(name, value);
    }

    method ParseExprOrAssignStmt() returns (stmt: Stmt)
      requires Valid() && depth <= MAX_DEPTH
      modifies this
      ensures Valid() && depth == old(depth) && old(pos) <= pos
      ensures Agrees(old(all), all, ParseExprOrAssign(src, old(pos), depth), stmt, pos)
    {
      hide Capped, ParseExpr;
      var target := ParseExpression(LOWEST);
      if Peek() != ASSIGN {
        return ExprStmt(target);
      }
      pos := pos + 2;
      var value := ParseExpression(LOWEST);
      stmt := Assign(target, value);
    }

    method ParseIfStmt() returns (stmt: Stmt)
      requires Valid() && depth <= MAX_DEPTH && src.Is(pos, IF)
      modifies this
      ensures Valid() && depth == old(depth) && old(pos) <= pos
      ensures Agrees(old(all), all, ParseIf(src, old(pos), depth), stmt, pos)
      decreases Left(src, pos), 1
    {
      hide Capped, ParseStmts, ParseElse, ParseIf, IfHead, Source.Is;
      IfUnfold(src, pos, depth);
      Enter();
      if depth > MAX_DEPTH {
        AddDiag(NestingTooDeep, pos);
        depth := depth - 1;
        return BadStmt;
      }
      var cond, found := ParseIfHead();
      if !found {
        depth := depth - 1;
        return BadStmt;
      }
      var body := ParseBlock();
      var alternative := ParseElseClause();
      stmt := If(cond, body, alternative);
      depth := depth - 1;
    }

    /** From the `if` to the `{` of its block, if that is found. */
    method ParseIfHead() returns (cond: Option<Expr>, found: bool)
      requires Valid() && depth <= MAX_DEPTH && src.Is(pos, IF)
      modifies this
      ensures Valid() && depth == old(depth) && old(pos) <= pos
      ensures found ==> old(pos) < pos && src.Is(pos, LBRACE)
      ensures Agrees(old(all), all, IfHead(src, old(pos), depth), (cond, found), pos)
    {
      hide Capped, Condition;
      var errsBefore := errCount;
      cond := ParseCondition();
      found := true;
      if Peek() == LBRACE {
        pos := pos + 1;
      } else {
        if errCount == errsBefore {
          AddDiag(UnexpectedToken, pos + 1);
        }
        found := AdvanceToLBrace();
      }
    }

    method ParseCondition() returns (cond: Option<Expr>)
      requires Valid() && depth <= MAX_DEPTH && src.Is(pos, IF)
      modifies this
      ensures Valid() && depth == old(depth) && old(pos) <= pos
      ensures Agrees(old(all), all, Condition(src, old(pos), depth), cond, pos)
    {
      hide Capped, ParseExpr;
      var errsBefore := errCount;
      if Peek() != LPAREN {
        AddDiag(UnexpectedToken, pos + 1);
        return None;
      }
      pos := pos + 2;
      var e := ParseExpression(LOWEST);
      cond := Some(e);
      if Peek() == RPAREN {
        pos := pos + 1;
      } else if errCount == errsBefore {
        AddDiag(UnexpectedToken, pos + 1);
      }
    }

    /** What follows the `}` of an if: another if, a block or nothing. */
    method ParseElseClause() returns (alternative: Option<Stmt>)
      requires Valid() && depth <= MAX_DEPTH
      modifies this
      ensures Valid() && depth == old(depth) && old(pos) <= pos && old(all) <= all
      ensures src.Is(old(pos), RBRACE) ==> Agrees(old(all), all, ParseElse(src, old(pos), depth), alternative, pos)
      decreases Left(src, pos), 0
    {
      hide Capped, ElseBlock, ParseIf, ParseElse;
      if src.Is(pos, RBRACE) {
        ElseUnfold(src, pos, depth);
      }
      alternative := None;
      if Peek() != ELSE {
        return;
      }
      pos := pos + 1;
      if Peek() == IF {
        pos := pos + 1;
        var rest := ParseIfStmt();
        alternative := Some(rest);
      } else {
        alternative := ParseElseBlock();
      }
    }

    method ParseElseBlock() returns (alternative: Option<Stmt>)
      requires Valid() && depth <= MAX_DEPTH && src.Is(pos, ELSE)
      modifies this
      ensures Valid() && depth == old(depth) && old(pos) <= pos
      ensures Agrees(old(all), all, ElseBlock(src, old(pos), depth), alternative, pos)
      decreases Left(src, pos), 0
    {
      hide Capped, ParseStmts;
      var found := true;
      if Peek() == LBRACE {
        pos := pos + 1;
      } else {
        AddDiag(UnexpectedToken, pos + 1);
        found := AdvanceToLBrace();
      }
      if !found {
        return None;
      }
      var rest := ParseBlock();
      alternative := Some(Block(rest));
    }

    // ---------- Declarations (parser/parser.go) ----------

    method ParsePortDecl() returns (name: Option<string>, portType: Option<TypeDecl>)
      requires Valid() && depth <= MAX_DEPTH
      modifies this
      ensures Valid() && depth == old(depth) && old(pos) <= pos
      ensures Agrees(old(all), all, PortRead(src, old(pos)), (name, portType), pos)
    {
      hide Capped, ParseTypeDecl;
      name, portType := None, None;
      pos := pos + 1;
      if src.Is(pos, IDENT) {
        name := Some(src.At(pos).lit);
        pos := pos + 1;
      } else {
        AddDiag(UnexpectedToken, pos);
      }
      if !src.Is(pos, COLON) {
        if name.Some? {
          AddDiag(UnexpectedToken, pos);
        }
        return;
      }
      pos := pos + 1;
      portType := ParseTypeDeclAt();
    }

    method ParseTypeDeclAt() returns (t: Option<TypeDecl>)
      requires Valid()
      modifies this
      ensures Valid() && depth == old(depth) && old(pos) <= pos && old(all) <= all
      ensures Agrees(old(all), all, TypeRead(src, old(pos)), t, pos)
    {
      hide Capped, ParseFields;
      if src.Is(pos, IDENT) {
        t := Some(Named(src.At(pos).lit));
      } else if src.Is(pos, LBRACE) {
        var fields := ParseInlineTypeExpr();
        t := Some(Structural(fields));
      } else {
        AddDiag(TypeExpected, pos);
        t := None;
      }
    }

    method ParseInlineTypeExpr() returns (fields: seq<FieldDecl>)
      requires Valid() && src.Is(pos, LBRACE)
      modifies this
      ensures Valid() && depth == old(depth) && old(pos) <= pos
      ensures Agrees(old(all), all, InlineType(src, old(pos)), fields, pos)
    {
      hide Capped, ParseFields;
      fields := [];
      ghost var strict := InlineType(src, pos);
      var open := pos;
      SkipPeekNewLines();
      if Peek() == RBRACE {
        pos := pos + 1;
        AddDiag(EmptyCustomType, open);
        return;
      }
      var more := true;
      while more
        invariant Valid() && depth == old(depth) && old(pos) <= pos
        invariant Tracks(old(all), all, strict, if more then ParseFields(src, pos + 1, fields)
          else Success((fields, pos)))
        decreases more, Left(src, pos)
      {
        fields, more := ParseField(fields);
      }
    }

    /** One field of an inline type; more says whether another one is to follow. */
    method ParseField(fields: seq<FieldDecl>) returns (fields': seq<FieldDecl>, more: bool)
      requires Valid()
      modifies this
      ensures Valid() && depth == old(depth) && old(pos) <= pos && (more ==> Left(src, pos) < Left(src, old(pos)))
      ensures Tracks(old(all), all, ParseFields(src, old(pos) + 1, fields),
                     if more then ParseFields(src, pos + 1, fields') else Success((fields', pos)))
    {
      hide Capped, ParseFields, FieldAt, AfterField;
      FieldsUnfold(src, pos + 1, fields);
      fields', more := fields, false;
      SkipPeekNewLines();
      SkippedAlready(src, pos + 1);
      var field := ParseFieldDecl();
      if field.Some? {
        fields' := fields + [field.value];
        more := ParseFieldEnd(fields');
      }
    }

    method ParseFieldDecl() returns (field: Option<FieldDecl>)
      requires Valid()
      modifies this
      ensures Valid() && depth == old(depth) && old(pos) <= pos
        && (field.Some? ==> Left(src, pos) < Left(src, old(pos)))
      ensures field.Some? ==>
        all == old(all) && pos == old(pos) + 3 && FieldAt(src, old(pos) + 1) == Success(field.value)
      ensures field.None? ==>
        |all| > |old(all)| && old(all) <= all && FieldAt(src, old(pos) + 1) == Failure(all[|old(all)|])
    {
      hide Capped;
      if Peek() != IDENT {
        AddDiag(UnexpectedToken, pos + 1);
        return None;
      }
      pos := pos + 1;
      var name := src.At(pos).lit;
      if Peek() != COLON {
        AddDiag(UnexpectedToken, pos + 1);
        return None;
      }
      pos := pos + 1;
      if Peek() != IDENT {
        AddDiag(UnexpectedToken, pos + 1);
        return None;
      }
      pos := pos + 1;
      field := Some(FieldDecl(name, src.At(pos).lit));
    }

    method ParseFieldEnd(ghost fields: seq<FieldDecl>) returns (more: bool)
      requires Valid()
      modifies this
      ensures Valid() && depth == old(depth) && old(pos) <= pos
      ensures Tracks(old(all), all, AfterField(src, old(pos), fields),
                     if more then ParseFields(src, pos + 1, fields) else Success((fields, pos)))
    {
      hide Capped, ParseFields;
      more := false;
      if Peek() == COMMA {
        pos := pos + 1;
        SkipPeekNewLines();
        if Peek() == RBRACE {
          pos := pos + 1;
        } else {
          more := true;
        }
        return;
      }
      SkipPeekNewLines();
      if Peek() == RBRACE {
        pos := pos + 1;
      } else {
        AddDiag(UnexpectedToken, pos + 1);
      }
    }

    method ParseConstDecl() returns (d: Decl)
      requires Valid() && depth == 0
      modifies this
      ensures Valid() && depth == 0 && old(pos) <= pos
      ensures Agrees(old(all), all, ParseConst(src, old(pos)), d, pos)
    {
      hide Capped, ParseExpr;
      var name := None;
      pos := pos + 1;
      if src.Is(pos, IDENT) {
        name := Some(src.At(pos).lit);
        pos := pos + 1;
      } else {
        AddDiag(UnexpectedToken, pos);
      }
      if src.Is(pos, ASSIGN) {
        pos := pos + 1;
      } else {
        if name.Some? {
          AddDiag(UnexpectedToken, pos);
        }
        if !StartsOperand(src.At(pos).typ) {
          return Const(name, None);
        }
      }
      var value := ParseExpression(LOWEST);
      d := Const(name, Some(value));
    }

    /** The caller has seen that both the word and the name are identifiers. */
    method ParseKindDecl() returns (d: Decl)
      requires Valid() && depth == 0 && src.Is(pos, IDENT) && src.Is(pos + 1, IDENT)
      modifies this
      ensures Valid() && depth == 0 && old(pos) <= pos
      ensures Agrees(old(all), all, ParseKind(src, old(pos)), d, pos)
    {
      hide Capped, ParseExpr;
      var word := src.At(pos).lit;
      pos := pos + 1;
      var name := src.At(pos).lit;
      var slotType, init := None, None;
      if Peek() == COLON {
        pos := pos + 2;
        if !src.Is(pos, IDENT) {
          AddDiag(TypeExpected, pos);
          return Kind(word, name, None, None);
        }
        slotType := Some(src.At(pos).lit);
      }
      if Peek() == ASSIGN {
        pos := pos + 2;
        var value := ParseExpression(LOWEST);
        init := Some(value);
      }
      d := Kind(word, name, slotType, init);
    }

    /** The name is empty when there is none. */
    method ParseFunctionDecl() returns (name: string, body: seq<Stmt>)
      requires Valid() && depth == 0
      modifies this
      ensures Valid() && depth == 0 && old(pos) <= pos
      ensures Agrees(old(all), all, ParseFunction(src, old(pos)), (name, body), pos)
    {
      hide Capped, ParseStmts, FunctionHead, Source.Is;
      FunctionUnfold(src, pos);
      var errsBefore := errCount;
      var found;
      name, found := ParseFunctionHead();
      body := [];
      if !found {
        return;
      }
      body := ParseBlock();
      if body == [] && errCount == errsBefore && name == RUN {
        AddDiag(EmptyFunction, pos);
      }
    }

    /** From `function` to the `{`, if that is found. */
    method ParseFunctionHead() returns (name: string, found: bool)
      requires Valid()
      modifies this
      ensures Valid() && depth == old(depth) && old(pos) <= pos && (found ==> src.Is(pos, LBRACE))
      ensures Agrees(old(all), all, FunctionHead(src, old(pos)), (name, found), pos)
    {
      hide Capped, FunctionName;
      var errsBefore := errCount;
      name := ParseFunctionName();
      found := true;
      if src.Is(pos, LPAREN) {
        pos := pos + 1;
      } else if errCount == errsBefore {
        AddDiag(UnexpectedToken, pos);
      }
      if src.Is(pos, RPAREN) {
        pos := pos + 1;
      } else if errCount == errsBefore {
        AddDiag(UnexpectedToken, pos);
      }
      if !src.Is(pos, LBRACE) {
        found := false;
        if errCount == errsBefore {
          AddDiag(UnexpectedToken, pos);
        }
      }
    }

    /** Ends after the name. */
    method ParseFunctionName() returns (name: string)
      requires Valid()
      modifies this
      ensures Valid() && depth == old(depth) && old(pos) <= pos
      ensures Tracks(old(all), all, FunctionName(src, old(pos)), Success(name))
        && (all == old(all) ==> pos == old(pos) + 2)
    {
      hide Capped;
      name := "";
      pos := pos + 1;
      if src.Is(pos, IDENT) {
        name := src.At(pos).lit;
        if name != INIT && name != RUN {
          AddDiag(ForbiddenFunction, pos);
        }
        pos := pos + 1;
      } else {
        AddDiag(UnexpectedToken, pos);
      }
    }

    /** One declaration, added to p if it has no error. */
    method ParseTopDecl(p: Program) returns (p': Program)
      requires Valid() && depth == 0
      modifies this
      ensures Valid() && depth == 0 && old(pos) <= pos
      ensures Agrees(old(all), all, ParseTop(src, old(pos), p), p', pos)
    {
      hide Capped, ParseConst, ParsePort, ParseKind, ParseFunction;
      p' := p;
      var errsBefore, start := errCount, pos;
      match src.At(pos).typ {
        case CONST =>
          var d := ParseConstDecl();
          if errCount == errsBefore {
            p' := p.(decls := p.decls + [d]);
          }
        case INPUT =>
          var name, t := ParsePortDecl();
          if errCount == errsBefore {
            p' := p.(decls := p.decls + [Input(name, t)]);
          }
        case OUTPUT =>
          var name, t := ParsePortDecl();
          if errCount == errsBefore {
            p' := p.(decls := p.decls + [Output(name, t)]);
          }
        case IDENT =>
          p' := ParseTopKind(p);
        case FUNCTION =>
          p' := ParseTopFunction(p);
        case _ =>
          AddDiag(TopDeclUnexpected, pos);
      }
    }

    method ParseTopKind(p: Program) returns (p': Program)
      requires Valid() && depth == 0 && src.Is(pos, IDENT)
      modifies this
      ensures Valid() && depth == 0 && old(pos) <= pos
      ensures Agrees(old(all), all, ParseTop(src, old(pos), p), p', pos)
    {
      hide Capped, ParseKind;
      p' := p;
      if Peek() == IDENT {
        var errsBefore := errCount;
        var d := ParseKindDecl();
        if errCount == errsBefore {
          p' := p.(decls := p.decls + [d]);
        }
      } else {
        AddDiag(TopDeclUnexpected, pos);
      }
    }

    method ParseTopFunction(p: Program) returns (p': Program)
      requires Valid() && depth == 0 && src.Is(pos, FUNCTION)
      modifies this
      ensures Valid() && depth == 0 && old(pos) <= pos
      ensures Agrees(old(all), all, ParseTop(src, old(pos), p), p', pos)
    {
      hide Capped, ParseFunction;
      p' := p;
      var errsBefore, start := errCount, pos;
      var name, body := ParseFunctionDecl();
      if errCount != errsBefore {
        return;
      }
      if name == INIT {
        if p.initFn.Some? {
          AddDiag(DuplicateFunction, start);
        } else {
          p' := p.(initFn := Some(body));
        }
      } else {
        if p.runFn.Some? {
          AddDiag(DuplicateFunction, start);
        } else {
          p' := p.(runFn := Some(body));
        }
      }
    }

    /**
     The whole script. It is valid exactly when nothing is reported, and then the strict parser reads the same
     program; otherwise the first of the at most 100 diagnostics is the strict parser's error.
     */
    method Parse() returns (prog: Program, valid: bool)
      requires Valid() && pos == 0 && depth == 0 && all == []
      modifies this
      ensures Valid() && depth == 0 && |errors| <= MAX_PARSE_ERRORS
      ensures valid <==> errors == []
      ensures match ParseProgram(src)
        case Success(p) => valid && prog == p
        case Failure(d) => errors != [] && errors[0] == d
    {
      hide ParseTops, ParseTop;
      prog, valid := EMPTY_PROGRAM, true;
      while !src.Is(pos, EOF)
        invariant Valid() && depth == 0 && (valid <==> all == [])
        invariant all == [] ==> ParseProgram(src) == ParseTops(src, pos, prog)
        invariant all != [] ==> ParseProgram(src) == Failure(all[0])
        decreases Left(src, pos)
      {
        TopsUnfold(src, pos, prog);
        if src.Is(pos, NEWLINE) {
          pos := pos + 1;
        } else {
          var errsBefore := errCount;
          prog := ParseTopDecl(prog);
          if errCount == errsBefore && Peek() != NEWLINE && Peek() != EOF {
            AddDiag(UnexpectedToken, pos + 1);
          }
          if errCount > errsBefore {
            valid := false;
            if errCount >= MAX_PARSE_ERRORS {
              break;
            }
            SyncToNewLine();
          }
          pos := pos + 1;
        }
      }
      if errCount == 0 {
        TopsUnfold(src, pos, prog);
        if prog.runFn.None? {
          valid := false;
          AddDiag(MissingRun, pos);
        }
      }
    }
  }
}
