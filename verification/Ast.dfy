/**
 The syntax tree (ast/ast.go). A child the parser could not read is None or a bad node; Clean says a tree
 has neither, and that no identifier holds a dot, which the lexer never puts in one.
 */
module Ast {
  import opened Wrappers
  import opened Tokens
  import opened Values

  datatype Expr =
    | BadExpr
    | Ident(name: string)
    | IntLit(n: Int64)
    | FloatLit(f: F64)
    | StrLit(s: string)
    | BoolLit(b: bool)
    | Infix(op: TokenType, left: Expr, right: Expr)
    | Prefix(op: TokenType, right: Expr)
    | Member(receiver: Expr, name: string)
    | Index(left: Expr, index: Expr)
    | Call(callee: Expr, args: seq<Expr>, kwargs: seq<Kwarg>)

  datatype Kwarg = Kwarg(key: string, value: Expr)

  datatype Stmt =
    | BadStmt
    | Let(letName: Option<string>, value: Expr)
    | Assign(target: Expr, value: Expr)
    | ExprStmt(expr: Expr)
    | Block(stmts: seq<Stmt>)
    | If(cond: Option<Expr>, consequence: seq<Stmt>, alternative: Option<Stmt>)

  datatype FieldDecl = FieldDecl(name: string, typ: string)
  datatype TypeDecl = Named(typ: string) | Structural(fields: seq<FieldDecl>)

  datatype Decl =
    | Const(name: Option<string>, constValue: Option<Expr>)
    | Input(name: Option<string>, portType: Option<TypeDecl>)
    | Output(name: Option<string>, portType: Option<TypeDecl>)
    | Kind(word: string, slotName: string, slotType: Option<string>, init: Option<Expr>)

  datatype Program = Program(decls: seq<Decl>, initFn: Option<seq<Stmt>>, runFn: Option<seq<Stmt>>)

  predicate Plain(name: string) {
    '.' !in name
  }

  predicate CleanExpr(e: Expr)
    decreases e
  {
    match e
    case BadExpr => false
    case Ident(name) => Plain(name)
    case Infix(_, left, right) => CleanExpr(left) && CleanExpr(right)
    case Prefix(_, right) => CleanExpr(right)
    case Member(receiver, name) => CleanExpr(receiver) && Plain(name)
    case Index(left, index) => CleanExpr(left) && CleanExpr(index)
    case Call(callee, args, kwargs) =>
      && CleanExpr(callee)
      && (forall a | a in args :: CleanExpr(a))
      && (forall k | k in kwargs :: Plain(k.key) && CleanExpr(k.value))
    case _ => true
  }

  predicate CleanStmt(s: Stmt)
    decreases s
  {
    match s
    case BadStmt => false
    case Let(name, value) => name.Some? && Plain(name.value) && CleanExpr(value)
    case Assign(target, value) => CleanExpr(target) && CleanExpr(value)
    case ExprStmt(e) => CleanExpr(e)
    case Block(stmts) => forall t | t in stmts :: CleanStmt(t)
    case If(cond, consequence, alternative) =>
      && cond.Some? && CleanExpr(cond.value)
      && (forall t | t in consequence :: CleanStmt(t))
      && (alternative.Some? ==> (alternative.value.Block? || alternative.value.If?) && CleanStmt(alternative.value))
  }

  predicate CleanBlock(stmts: seq<Stmt>) {
    forall t | t in stmts :: CleanStmt(t)
  }

  predicate CleanDecl(d: Decl) {
    match d
    case Const(name, value) => name.Some? && Plain(name.value) && value.Some? && CleanExpr(value.value)
    case Input(name, t) => name.Some? && Plain(name.value) && t.Some?
    case Output(name, t) => name.Some? && Plain(name.value) && t.Some?
    case Kind(word, name, _, init) => Plain(word) && Plain(name) && (init.Some? ==> CleanExpr(init.value))
  }

  predicate CleanProgram(p: Program) {
    && (forall d | d in p.decls :: CleanDecl(d))
    && (p.initFn.Some? ==> CleanBlock(p.initFn.value))
    && p.runFn.Some? && CleanBlock(p.runFn.value)
  }
}
