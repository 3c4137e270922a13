/**
 The grammar of types, declarations and whole programs as derivation trees (parser/parser.go, the declaration rules of
 the language description), over the grammars of expressions and statements. The parser of programs is proved to accept
 exactly these derivations.
 */
module ProgramGrammar {
  import opened Wrappers
  import opened Tokens
  import opened Ast
  import opened Parsing
  import opened Grammar
  import opened StatementGrammar

  /** The fields of an inline type, each with the blank lines after it; a comma may follow the last one. */
  datatype CFields =
    | LastField(name: string, typ: string, trailing: bool, blanks: nat)
    | OneField(name: string, typ: string, blanks: nat, rest: CFields)

  datatype CType = CNamed(typ: string) | CInline(blanks: nat, fields: CFields)

  datatype CDecl =
    | CConst(name: string, value: Cst)
    | CPort(isInput: bool, name: string, typ: CType)
    | CKind(word: string, name: string, slotType: Option<string>, init: Option<Cst>)
    | CFunction(name: string, body: CBlock)

  /** Declarations, each on lines of its own, and blank lines. */
  datatype CProgram = NoTops | BlankTop(rest: CProgram) | Top(first: CDecl, rest: CProgram)

  // ---------- Spelling ----------

  function FieldsLen(f: CFields): (n: nat)
    ensures n >= 3
  {
    match f
    case LastField(_, _, trailing, blanks) => 3 + (if trailing then 1 else 0) + blanks
    case OneField(_, _, blanks, rest) => 4 + blanks + FieldsLen(rest)
  }

  function TypeLen(t: CType): (n: nat)
    ensures n > 0
  {
    match t
    case CNamed(_) => 1
    case CInline(blanks, fields) => 1 + blanks + FieldsLen(fields) + 1
  }

  function DeclLen(d: CDecl): (n: nat)
    ensures n > 0
  {
    match d
    case CConst(_, value) => 3 + Len(value)
    case CPort(_, _, t) => 3 + TypeLen(t)
    case CKind(_, _, t, init) => 2 + (if t.Some? then 2 else 0) + if init.Some? then 1 + Len(init.value) else 0
    case CFunction(_, body) => 5 + BlockLen(body) + 1
  }

  predicate NewLines(s: Source, i: nat, n: nat) {
    forall k | i <= k < i + n :: s.Is(k, NEWLINE)
  }

  predicate Word(s: Source, i: nat, name: string) {
    s.Is(i, IDENT) && s.At(i).lit == name
  }

  predicate FieldAt(s: Source, i: nat, name: string, typ: string) {
    Word(s, i, name) && s.Is(i + 1, COLON) && Word(s, i + 2, typ)
  }

  /** The tokens of f are those of s from i on. */
  predicate FieldsAt(s: Source, i: nat, f: CFields)
    decreases f
  {
    match f
    case LastField(name, typ, trailing, blanks) =>
      FieldAt(s, i, name, typ) && (trailing ==> s.Is(i + 3, COMMA))
        && NewLines(s, if trailing then i + 4 else i + 3, blanks)
    case OneField(name, typ, blanks, rest) =>
      FieldAt(s, i, name, typ) && s.Is(i + 3, COMMA) && NewLines(s, i + 4, blanks) && FieldsAt(s, i + 4 + blanks, rest)
  }

  predicate TypeAt(s: Source, i: nat, t: CType) {
    match t
    case CNamed(typ) => Word(s, i, typ)
    case CInline(blanks, fields) =>
      && s.Is(i, LBRACE) && NewLines(s, i + 1, blanks) && FieldsAt(s, i + 1 + blanks, fields)
      && s.Is(i + 1 + blanks + FieldsLen(fields), RBRACE)
  }

  predicate DeclAt(s: Source, i: nat, d: CDecl) {
    match d
    case CConst(name, value) => s.Is(i, CONST) && Word(s, i + 1, name) && s.Is(i + 2, ASSIGN)
      && ExprAt(s, i + 3, 0, value)
    case CPort(isInput, name, t) =>
      s.Is(i, if isInput then INPUT else OUTPUT) && Word(s, i + 1, name) && s.Is(i + 2, COLON) && TypeAt(s, i + 3, t)
    case CKind(word, name, t, init) =>
      var e := if t.Some? then i + 4 else i + 2;
      && Word(s, i, word) && Word(s, i + 1, name)
      && (t.Some? ==> s.Is(i + 2, COLON) && Word(s, i + 3, t.value))
      && (init.Some? ==> s.Is(e, ASSIGN) && ExprAt(s, e + 1, 0, init.value))
    case CFunction(name, body) =>
      && s.Is(i, FUNCTION) && Word(s, i + 1, name) && s.Is(i + 2, LPAREN) && s.Is(i + 3, RPAREN) && s.Is(i + 4, LBRACE)
      && BlockAt(s, i + 5, 0, body) && s.Is(i + 5 + BlockLen(body), RBRACE)
      && (name == INIT || (name == RUN && BlockMeans(s, body) != []))
  }

  /** No two declarations share a line, and the program is all of s from i on. */
  predicate TopsAt(s: Source, i: nat, c: CProgram)
    decreases c
  {
    match c
    case NoTops => s.Is(i, EOF)
    case BlankTop(rest) => s.Is(i, NEWLINE) && TopsAt(s, i + 1, rest)
    case Top(first, rest) => DeclAt(s, i, first) && !rest.Top? && TopsAt(s, i + DeclLen(first), rest)
  }

  // ---------- Meaning ----------

  function FieldsMean(f: CFields): seq<FieldDecl> {
    match f
    case LastField(name, typ, _, _) => [FieldDecl(name, typ)]
    case OneField(name, typ, _, rest) => [FieldDecl(name, typ)] + FieldsMean(rest)
  }

  function TypeMeans(t: CType): TypeDecl {
    match t case CNamed(typ) => Named(typ) case CInline(_, fields) => Structural(FieldsMean(fields))
  }

  function DeclMeans(s: Source, d: CDecl): Decl
    requires !d.CFunction?
  {
    match d
    case CConst(name, value) => Const(Some(name), Some(Meant(s, value)))
    case CPort(isInput, name, t) => if isInput then Input(Some(name), Some(TypeMeans(t)))
      else Output(Some(name), Some(TypeMeans(t)))
    case CKind(word, name, t, init) =>
      Kind(word, name, t, match init case Some(e) => Some(Meant(s, e)) case None => None)
  }

  /** The declarations in order, and the bodies of the two functions. */
  function DeclsMean(s: Source, c: CProgram): seq<Decl> {
    match c
    case NoTops => []
    case BlankTop(rest) => DeclsMean(s, rest)
    case Top(first, rest) => (if first.CFunction? then [] else [DeclMeans(s, first)]) + DeclsMean(s, rest)
  }

  /** The bodies of the functions of that name. */
  function Bodies(s: Source, c: CProgram, name: string): seq<seq<Stmt>> {
    match c
    case NoTops => []
    case BlankTop(rest) => Bodies(s, rest, name)
    case Top(first, rest) =>
      (if first.CFunction? && first.name == name then [BlockMeans(s, first.body)] else []) + Bodies(s, rest, name)
  }

  /** A whole program: one Run and at most one Init. */
  predicate ProgramDerivation(s: Source, c: CProgram) {
    TopsAt(s, 0, c) && |Bodies(s, c, RUN)| == 1 && |Bodies(s, c, INIT)| <= 1
  }

  function First<T>(xs: seq<T>): Option<T> {
    if xs == [] then None else Some(xs[0])
  }

  function ProgramMeans(s: Source, c: CProgram): Program {
    Program(DeclsMean(s, c), First(Bodies(s, c, INIT)), First(Bodies(s, c, RUN)))
  }

  // ---------- Blank lines ----------

  lemma {:induction false} Skips(s: Source, i: nat, n: nat)
    requires NewLines(s, i, n) && !s.Is(i + n, NEWLINE)
    ensures SkipNewlines(s, i) == i + n
    decreases n
  {
    if n > 0 {
      assert s.Is(i, NEWLINE);
      Skips(s, i + 1, n - 1);
    }
  }

  lemma {:induction false} Skipped(s: Source, i: nat)
    ensures SkipNewlines(s, i) >= i && NewLines(s, i, SkipNewlines(s, i) - i)
    decreases Left(s, i)
  {
    if s.Is(i, NEWLINE) {
      Skipped(s, i + 1);
    }
  }

  // ---------- Types ----------

  /** One step over the fields: whether another one is due, and the first token after the blank lines. */
  lemma FieldsUnfold(s: Source, i: nat, done: seq<FieldDecl>, more: bool, m: nat)
    requires !s.Is(i, NEWLINE) && more == s.Is(i + 3, COMMA) && m == SkipNewlines(s, if more then i + 4 else i + 3)
    ensures ParseFields(s, i, done).Success? ==>
      FieldAt(s, i, s.At(i).lit, s.At(i + 2).lit) && (s.Is(m, RBRACE) || more)
    ensures FieldAt(s, i, s.At(i).lit, s.At(i + 2).lit) && s.Is(m, RBRACE) ==>
      ParseFields(s, i, done) == Success((done + [FieldDecl(s.At(i).lit, s.At(i + 2).lit)], m))
    ensures FieldAt(s, i, s.At(i).lit, s.At(i + 2).lit) && !s.Is(m, RBRACE) && more ==>
      ParseFields(s, i, done) == ParseFields(s, m, done + [FieldDecl(s.At(i).lit, s.At(i + 2).lit)])
  {
    Skips(s, i, 0);
  }

  lemma LastRead(s: Source, i: nat, f: CFields, done: seq<FieldDecl>)
    requires f.LastField? && FieldsAt(s, i, f) && s.Is(i + FieldsLen(f), RBRACE)
    ensures ParseFields(s, i, done) == Success((done + FieldsMean(f), i + FieldsLen(f)))
  {
    hide ParseFields, SkipNewlines, NewLines;
    var from := if f.trailing then i + 4 else i + 3;
    Skips(s, from, f.blanks);
    if !f.trailing && f.blanks > 0 {
      BlankNext(s, from, f.blanks);
    }
    FieldsUnfold(s, i, done, f.trailing, from + f.blanks);
  }

  lemma OneRead(s: Source, i: nat, f: CFields, done: seq<FieldDecl>)
    requires f.OneField? && FieldsAt(s, i, f)
    ensures ParseFields(s, i, done) == ParseFields(s, i + 4 + f.blanks, done + [FieldDecl(f.name, f.typ)])
  {
    hide ParseFields, SkipNewlines, NewLines, FieldsLen, FieldsMean;
    var m := i + 4 + f.blanks;
    FieldStarts(s, m, f.rest);
    Skips(s, i + 4, f.blanks);
    FieldsUnfold(s, i, done, true, m);
  }

  /** The fields up to the `}`, after those read already. */
  lemma {:induction false} FieldsRead(s: Source, i: nat, f: CFields, done: seq<FieldDecl>)
    requires FieldsAt(s, i, f) && s.Is(i + FieldsLen(f), RBRACE)
    ensures ParseFields(s, i, done) == Success((done + FieldsMean(f), i + FieldsLen(f)))
    decreases f
  {
    hide ParseFields, NewLines, FieldAt;
    if f.LastField? {
      LastRead(s, i, f, done);
    } else {
      OneRead(s, i, f, done);
      var next := done + [FieldDecl(f.name, f.typ)];
      FieldsRead(s, i + 4 + f.blanks, f.rest, next);
      assert next + FieldsMean(f.rest) == done + FieldsMean(f);
    }
  }

  lemma BlankNext(s: Source, i: nat, n: nat)
    requires NewLines(s, i, n) && n > 0
    ensures s.Is(i, NEWLINE)
  {
  }

  lemma FieldStarts(s: Source, i: nat, f: CFields)
    requires FieldsAt(s, i, f)
    ensures s.Is(i, IDENT)
  {
  }

  lemma {:induction false} FoundFields(s: Source, i: nat, done: seq<FieldDecl>) returns (f: CFields)
    requires ParseFields(s, i, done).Success? && !s.Is(i, NEWLINE)
    ensures FieldsAt(s, i, f) && s.Is(i + FieldsLen(f), RBRACE)
    ensures ParseFields(s, i, done).value == (done + FieldsMean(f), i + FieldsLen(f))
    decreases Left(s, i)
  {
    hide ParseFields, SkipNewlines, NewLines;
    var name, typ := s.At(i).lit, s.At(i + 2).lit;
    var more := s.Is(i + 3, COMMA);
    var from := if more then i + 4 else i + 3;
    var m := SkipNewlines(s, from);
    Skipped(s, from);
    FieldsUnfold(s, i, done, more, m);
    if s.Is(m, RBRACE) {
      f := LastField(name, typ, more, m - from);
    } else {
      var rest := FoundFields(s, m, done + [FieldDecl(name, typ)]);
      f := OneField(name, typ, m - from, rest);
      assert (done + [FieldDecl(name, typ)]) + FieldsMean(rest) == done + FieldsMean(f);
    }
  }

  lemma TypeRead(s: Source, i: nat, t: CType)
    requires TypeAt(s, i, t)
    ensures ParseTypeDecl(s, i) == Success((TypeMeans(t), i + TypeLen(t) - 1))
  {
    hide ParseFields, FieldsAt, FieldsLen;
    if t.CInline? {
      var n := i + 1 + t.blanks;
      FieldStarts(s, n, t.fields);
      Skips(s, i + 1, t.blanks);
      FieldsRead(s, n, t.fields, []);
      assert [] + FieldsMean(t.fields) == FieldsMean(t.fields);
    }
  }

  lemma FoundType(s: Source, i: nat) returns (t: CType)
    requires ParseTypeDecl(s, i).Success?
    ensures TypeAt(s, i, t) && ParseTypeDecl(s, i).value == (TypeMeans(t), i + TypeLen(t) - 1)
  {
    hide ParseFields, FieldsAt, FieldsLen;
    if s.Is(i, IDENT) {
      t := CNamed(s.At(i).lit);
    } else {
      var n := SkipNewlines(s, i + 1);
      Skipped(s, i + 1);
      var f := FoundFields(s, n, []);
      assert [] + FieldsMean(f) == FieldsMean(f);
      t := CInline(n - i - 1, f);
    }
  }

  // ---------- Declarations ----------

  /** p with a declaration, or with the body of a function that it does not have yet. */
  function With(s: Source, p: Program, d: CDecl): Option<Program> {
    if !d.CFunction? then Some(p.(decls := p.decls + [DeclMeans(s, d)]))
    else if d.name == INIT then if p.initFn.Some? then None else Some(p.(initFn := Some(BlockMeans(s, d.body))))
    else if p.runFn.Some? then None else Some(p.(runFn := Some(BlockMeans(s, d.body))))
  }

  lemma LineEnds(t: TokenType)
    requires EndsLine(t)
    ensures Prec(t) == LOWEST && t != ASSIGN && t != COLON
  {
  }

  lemma ConstRead(s: Source, i: nat, d: CDecl)
    requires d.CConst? && DeclAt(s, i, d) && EndsLine(s.At(i + DeclLen(d)).typ)
    ensures ParseConst(s, i) == Success((DeclMeans(s, d), i + DeclLen(d) - 1))
  {
    hide ExprAt, Meant, ParseExpr, Prec, Len;
    LineEnds(s.At(i + DeclLen(d)).typ);
    ReadExpr(s, i + 3, 0, d.value);
  }

  lemma KindRead(s: Source, i: nat, d: CDecl)
    requires d.CKind? && DeclAt(s, i, d) && EndsLine(s.At(i + DeclLen(d)).typ)
    ensures ParseKind(s, i) == Success((DeclMeans(s, d), i + DeclLen(d) - 1))
  {
    hide ExprAt, Meant, ParseExpr, Prec, Len;
    LineEnds(s.At(i + DeclLen(d)).typ);
    if d.init.Some? {
      ReadExpr(s, if d.slotType.Some? then i + 5 else i + 3, 0, d.init.value);
    }
  }

  lemma FunctionRead(s: Source, i: nat, d: CDecl)
    requires d.CFunction? && DeclAt(s, i, d)
    ensures ParseFunction(s, i) == Success(((d.name, BlockMeans(s, d.body)), i + DeclLen(d) - 1))
  {
    hide BlockAt, BlockMeans, BlockLen, ParseStmts;
    BlockRead(s, i + 5, 0, d.body, []);
    assert [] + BlockMeans(s, d.body) == BlockMeans(s, d.body);
  }

  lemma PortRead(s: Source, i: nat, d: CDecl)
    requires d.CPort? && DeclAt(s, i, d)
    ensures ParsePort(s, i) == Success(((d.name, TypeMeans(d.typ)), i + DeclLen(d) - 1))
  {
    hide TypeAt, TypeMeans, ParseTypeDecl;
    TypeRead(s, i + 3, d.typ);
  }

  lemma DeclStarts(s: Source, i: nat, d: CDecl)
    requires DeclAt(s, i, d)
    ensures match d
      case CConst(_, _) => s.Is(i, CONST)
      case CPort(isInput, _, _) => s.Is(i, if isInput then INPUT else OUTPUT)
      case CKind(_, _, _, _) => s.Is(i, IDENT) && s.Is(i + 1, IDENT)
      case CFunction(name, _) => s.Is(i, FUNCTION) && name in {INIT, RUN}
  {
    hide ExprAt, BlockAt, BlockMeans, TypeAt;
  }

  lemma DeclRead(s: Source, i: nat, d: CDecl, p: Program)
    requires DeclAt(s, i, d) && EndsLine(s.At(i + DeclLen(d)).typ)
    ensures match With(s, p, d)
      case Some(p') => ParseTop(s, i, p) == Success((p', i + DeclLen(d) - 1))
      case None => ParseTop(s, i, p).Failure?
  {
    hide DeclAt, DeclLen, BlockMeans, TypeMeans, Meant, ParseConst, ParsePort, ParseKind, ParseFunction;
    DeclStarts(s, i, d);
    match d
    case CConst(_, _) => ConstRead(s, i, d);
    case CPort(_, _, _) => PortRead(s, i, d);
    case CKind(_, _, _, _) => KindRead(s, i, d);
    case CFunction(_, _) => FunctionRead(s, i, d);
  }

  lemma FoundConst(s: Source, i: nat) returns (d: CDecl)
    requires s.Is(i, CONST) && ParseConst(s, i).Success?
    ensures d.CConst? && DeclAt(s, i, d) && ParseConst(s, i).value == (DeclMeans(s, d), i + DeclLen(d) - 1)
  {
    hide ExprAt, Meant, ParseExpr, Len;
    var e := FoundExpr(s, i + 3, 0);
    d := CConst(s.At(i + 1).lit, e);
  }

  lemma FoundPort(s: Source, i: nat) returns (d: CDecl)
    requires (s.Is(i, INPUT) || s.Is(i, OUTPUT)) && ParsePort(s, i).Success?
    ensures d.CPort? && DeclAt(s, i, d) && d.isInput == s.Is(i, INPUT)
    ensures ParsePort(s, i).value == ((d.name, TypeMeans(d.typ)), i + DeclLen(d) - 1)
  {
    hide TypeAt, TypeMeans, ParseTypeDecl;
    var t := FoundType(s, i + 3);
    d := CPort(s.Is(i, INPUT), s.At(i + 1).lit, t);
  }

  lemma FoundKind(s: Source, i: nat) returns (d: CDecl)
    requires s.Is(i, IDENT) && s.Is(i + 1, IDENT) && ParseKind(s, i).Success?
    ensures d.CKind? && DeclAt(s, i, d) && ParseKind(s, i).value == (DeclMeans(s, d), i + DeclLen(d) - 1)
  {
    hide ExprAt, Meant, ParseExpr, Len;
    var t := if s.Is(i + 2, COLON) then Some(s.At(i + 3).lit) else None;
    var e := if t.Some? then i + 3 else i + 1;
    if s.Is(e + 1, ASSIGN) {
      var v := FoundExpr(s, e + 2, 0);
      d := CKind(s.At(i).lit, s.At(i + 1).lit, t, Some(v));
    } else {
      d := CKind(s.At(i).lit, s.At(i + 1).lit, t, None);
    }
  }

  lemma FoundFunction(s: Source, i: nat) returns (d: CDecl)
    requires s.Is(i, FUNCTION) && ParseFunction(s, i).Success?
    ensures d.CFunction? && DeclAt(s, i, d)
    ensures ParseFunction(s, i).value == ((d.name, BlockMeans(s, d.body)), i + DeclLen(d) - 1)
  {
    hide BlockAt, BlockMeans, BlockLen, ParseStmts;
    var body := FoundBlock(s, i + 5, 0, []);
    assert [] + BlockMeans(s, body) == BlockMeans(s, body);
    d := CFunction(s.At(i + 1).lit, body);
  }

  lemma FoundDecl(s: Source, i: nat, p: Program) returns (d: CDecl)
    requires ParseTop(s, i, p).Success?
    ensures DeclAt(s, i, d) && With(s, p, d).Some?
      && ParseTop(s, i, p).value == (With(s, p, d).value, i + DeclLen(d) - 1)
  {
    hide DeclAt, DeclLen, BlockMeans, TypeMeans, Meant, ParseConst, ParsePort, ParseKind, ParseFunction;
    if s.Is(i, CONST) {
      d := FoundConst(s, i);
    } else if s.Is(i, INPUT) || s.Is(i, OUTPUT) {
      d := FoundPort(s, i);
    } else if s.Is(i, IDENT) {
      d := FoundKind(s, i);
    } else {
      d := FoundFunction(s, i);
    }
  }

  // ---------- Programs ----------

  /** A declaration does not start like a blank line or the end of the program. */
  lemma TopStarts(s: Source, i: nat, d: CDecl)
    requires DeclAt(s, i, d)
    ensures s.At(i).typ !in {NEWLINE, EOF}
  {
    hide DeclAt;
    DeclStarts(s, i, d);
  }

  /** p with everything in c. */
  function WithAll(s: Source, p: Program, c: CProgram): Option<Program>
    decreases c
  {
    match c
    case NoTops => Some(p)
    case BlankTop(rest) => WithAll(s, p, rest)
    case Top(first, rest) => match With(s, p, first) case None => None case Some(p') => WithAll(s, p', rest)
  }

  lemma {:induction false} TopsRead(s: Source, i: nat, c: CProgram, p: Program)
    requires TopsAt(s, i, c)
    ensures match WithAll(s, p, c)
      case Some(all) => if all.runFn.Some? then ParseTops(s, i, p) == Success(all) else ParseTops(s, i, p).Failure?
      case None => ParseTops(s, i, p).Failure?
    decreases c
  {
    hide DeclAt, DeclLen, With, ParseTop;
    match c
    case NoTops =>
    case BlankTop(rest) => TopsRead(s, i + 1, rest, p);
    case Top(first, rest) =>
      var n := i + DeclLen(first);
      assert EndsLine(s.At(n).typ);
      TopStarts(s, i, first);
      DeclRead(s, i, first, p);
      if With(s, p, first).Some? {
        TopsRead(s, n, rest, With(s, p, first).value);
      }
  }

  lemma TopNext(s: Source, i: nat, c: CProgram)
    requires TopsAt(s, i, c) && EndsLine(s.At(i).typ)
    ensures !c.Top?
  {
    hide DeclAt;
    if c.Top? {
      TopStarts(s, i, c.first);
    }
  }

  lemma {:induction false} FoundTops(s: Source, i: nat, p: Program) returns (c: CProgram)
    requires ParseTops(s, i, p).Success?
    ensures TopsAt(s, i, c) && WithAll(s, p, c) == Some(ParseTops(s, i, p).value)
      && ParseTops(s, i, p).value.runFn.Some?
    decreases Left(s, i)
  {
    hide DeclAt, DeclLen, With, ParseTop;
    if s.Is(i, EOF) {
      c := NoTops;
    } else if s.Is(i, NEWLINE) {
      var rest := FoundTops(s, i + 1, p);
      c := BlankTop(rest);
    } else {
      var first := FoundDecl(s, i, p);
      var (p', j) := ParseTop(s, i, p).value;
      var rest := FoundTops(s, j + 1, p');
      TopNext(s, j + 1, rest);
      c := Top(first, rest);
    }
  }

  /** Adding everything in c to p succeeds exactly if no function comes twice, and adds what c means. */
  lemma {:induction false} WithAllIs(s: Source, i: nat, p: Program, c: CProgram)
    requires TopsAt(s, i, c)
    ensures var inits, runs := Bodies(s, c, INIT), Bodies(s, c, RUN);
      && (WithAll(s, p, c).Some? <==>
            |inits| <= (if p.initFn.Some? then 0 else 1) && |runs| <= (if p.runFn.Some? then 0 else 1))
      && (WithAll(s, p, c).Some? ==>
            WithAll(s, p, c).value == Program(p.decls + DeclsMean(s, c),
              if p.initFn.Some? then p.initFn else First(inits), if p.runFn.Some? then p.runFn else First(runs)))
    decreases c
  {
    hide DeclAt, DeclLen, DeclMeans, BlockMeans;
    match c
    case NoTops => assert p.decls + [] == p.decls;
    case BlankTop(rest) => WithAllIs(s, i + 1, p, rest);
    case Top(first, rest) =>
      DeclStarts(s, i, first);
      if With(s, p, first).Some? {
        var p' := With(s, p, first).value;
        WithAllIs(s, i + DeclLen(first), p', rest);
        assert p'.decls + DeclsMean(s, rest) == p.decls + DeclsMean(s, c);
      }
  }

  /**
   The parser accepts a script exactly if the grammar has a derivation of all its tokens, and returns what it means.
   */
  lemma ProgramsAreGrammar(s: Source)
    ensures ParseProgram(s).Success? <==> exists c :: ProgramDerivation(s, c)
    ensures forall c | ProgramDerivation(s, c) :: ParseProgram(s) == Success(ProgramMeans(s, c))
  {
    hide ParseTops, TopsAt, WithAll, Bodies, DeclsMean;
    if ParseProgram(s).Success? {
      var c := FoundTops(s, 0, EMPTY_PROGRAM);
      WithAllIs(s, 0, EMPTY_PROGRAM, c);
      assert ProgramDerivation(s, c);
    }
    forall c | ProgramDerivation(s, c) ensures ParseProgram(s) == Success(ProgramMeans(s, c)) {
      WithAllIs(s, 0, EMPTY_PROGRAM, c);
      assert [] + DeclsMean(s, c) == DeclsMean(s, c);
      TopsRead(s, 0, c, EMPTY_PROGRAM);
    }
  }
}
