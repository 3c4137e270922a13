/**
 The printer of expressions (ast/ast.go) at the level of tokens, and what the parser makes of what it prints:
 the same tree, unless a prefix expression is the head of a member access, an index or a call. Those are
 printed without the parentheses that would keep them together.
 */
module Printing {
  import opened Wrappers
  import opened Tokens
  import opened Values
  import opened Ast
  import opened Parsing
  import opened Grammar
  import Unambiguity

  datatype Lexeme = Lexeme(typ: TokenType, lit: string)

  /** How floats are written. */
  type FloatText = F64 -> string

  // ---------- Integers ----------

  function Render(n: nat): string {
    var digit := [('0' as int + n % 10) as char];
    if n < 10 then digit else Render(n / 10) + digit
  }

  lemma {:induction false} DecimalRender(n: nat)
    ensures Decimal(Render(n)) == n && Render(n) != "" && forall c | c in Render(n) :: IsDigit(c)
  {
    var digit := ('0' as int + n % 10) as char;
    if n < 10 {
      assert Render(n)[..0] == "";
      assert Decimal("") == 0;
    } else {
      DecimalRender(n / 10);
      assert Render(n)[..|Render(n)| - 1] == Render(n / 10);
    }
    assert IsDigit(digit);
  }

  // ---------- The printer ----------

  function Printed(e: Expr, ft: FloatText): (r: seq<Lexeme>)
    decreases e, 1
  {
    match e
    case BadExpr => [Lexeme(ILLEGAL, "<error>")]
    case Ident(name) => [Lexeme(IDENT, name)]
    case IntLit(n) => if n < 0 then [Lexeme(MINUS, "-"), Lexeme(INTEGER, Render(-(n as int)))]
      else [Lexeme(INTEGER, Render(n))]
    case FloatLit(f) => [Lexeme(FLOAT, ft(f))]
    case StrLit(s) => [Lexeme(STRING, s)]
    case BoolLit(b) => [if b then Lexeme(TRUE, "true") else Lexeme(FALSE, "false")]
    case Infix(op, l, r) =>
      [Lexeme(LPAREN, "(")] + Printed(l, ft) + [Lexeme(op, "")] + Printed(r, ft) + [Lexeme(RPAREN, ")")]
    case Prefix(op, x) => [Lexeme(op, "")] + Printed(x, ft)
    case Member(x, name) => Printed(x, ft) + [Lexeme(DOT, "."), Lexeme(IDENT, name)]
    case Index(x, y) => Printed(x, ft) + [Lexeme(LBRACKET, "[")] + Printed(y, ft) + [Lexeme(RBRACKET, "]")]
    case Call(callee, args, kwargs) =>
      Printed(callee, ft) + [Lexeme(LPAREN, "(")] + (PrintedArgs(args, kwargs != [], ft) + PrintedKwargs(kwargs, ft))
      + [Lexeme(RPAREN, ")")]
  }

  function Comma(more: bool): seq<Lexeme> {
    if more then [Lexeme(COMMA, ",")] else []
  }

  function PrintedArgs(args: seq<Expr>, more: bool, ft: FloatText): seq<Lexeme>
    decreases args, 0
  {
    if args == [] then []
    else Printed(args[0], ft) + Comma(|args| > 1 || more) + PrintedArgs(args[1..], more, ft)
  }

  function PrintedKwargs(kwargs: seq<Kwarg>, ft: FloatText): seq<Lexeme>
    decreases kwargs, 0
  {
    if kwargs == [] then []
    else PrintedKwarg(kwargs[0], ft) + Comma(|kwargs| > 1) + PrintedKwargs(kwargs[1..], ft)
  }

  function PrintedKwarg(k: Kwarg, ft: FloatText): seq<Lexeme>
    decreases k, 2
  {
    [Lexeme(IDENT, k.key), Lexeme(ASSIGN, "=")] + Printed(k.value, ft)
  }

  /**
   Trees as the parser builds them: no bad node, known operators, no negative literal, and floats whose text
   the lexer reads as that float.
   */
  predicate Printable(e: Expr, ft: FloatText, s: Source)
    decreases e
  {
    match e
    case BadExpr => false
    case IntLit(n) => n >= 0
    case FloatLit(f) => s.readFloat(ft(f)) == Some(f)
    case Infix(op, l, r) => IsBinary(op) && Printable(l, ft, s) && Printable(r, ft, s)
    case Prefix(op, x) => op in {MINUS, BANG} && Printable(x, ft, s)
    case Member(x, _) => Printable(x, ft, s)
    case Index(x, y) => Printable(x, ft, s) && Printable(y, ft, s)
    case Call(callee, args, kwargs) =>
      && Printable(callee, ft, s)
      && (forall a | a in args :: Printable(a, ft, s))
      && (forall k | k in kwargs :: Printable(k.value, ft, s))
    case _ => true
  }

  // ---------- What printing means ----------

  /** A member access, index or call, without its head. */
  datatype Suffix = DotSuffix(name: string) | IdxSuffix(index: Expr) | AppSuffix(args: seq<Expr>, kwargs: seq<Kwarg>)

  function Applied(e: Expr, x: Suffix): Expr {
    match x
    case DotSuffix(name) => Member(e, name)
    case IdxSuffix(index) => Index(e, index)
    case AppSuffix(args, kwargs) => Call(e, args, kwargs)
  }

  /** A suffix printed after a prefix expression belongs to the operand of the prefix. */
  function Push(e: Expr, x: Suffix): (r: Expr)
    ensures r.Prefix? == e.Prefix?
  {
    if e.Prefix? then Prefix(e.op, Push(e.right, x)) else Applied(e, x)
  }

  /** The tree that the printed text of e denotes. */
  function Norm(e: Expr): (r: Expr)
    decreases e, 1
  {
    match e
    case Infix(op, l, r) => Infix(op, Norm(l), Norm(r))
    case Prefix(op, x) => Prefix(op, Norm(x))
    case Member(x, name) => Push(Norm(x), DotSuffix(name))
    case Index(x, y) => Push(Norm(x), IdxSuffix(Norm(y)))
    case Call(callee, args, kwargs) => Push(Norm(callee), AppSuffix(NormArgs(args), NormKwargs(kwargs)))
    case _ => e
  }

  function NormArgs(args: seq<Expr>): seq<Expr>
    decreases args, 0
  {
    if args == [] then [] else [Norm(args[0])] + NormArgs(args[1..])
  }

  function NormKwargs(kwargs: seq<Kwarg>): seq<Kwarg>
    decreases kwargs, 0
  {
    if kwargs == [] then [] else [NormKwarg(kwargs[0])] + NormKwargs(kwargs[1..])
  }

  function NormKwarg(k: Kwarg): Kwarg
    decreases k, 2
  {
    Kwarg(k.key, Norm(k.value))
  }

  /** No prefix expression is the head of a member access, an index or a call. */
  predicate HeadsOk(e: Expr)
    decreases e
  {
    match e
    case Infix(_, l, r) => HeadsOk(l) && HeadsOk(r)
    case Prefix(_, x) => HeadsOk(x)
    case Member(x, _) => !x.Prefix? && HeadsOk(x)
    case Index(x, y) => !x.Prefix? && HeadsOk(x) && HeadsOk(y)
    case Call(callee, args, kwargs) =>
      && !callee.Prefix? && HeadsOk(callee)
      && (forall a | a in args :: HeadsOk(a))
      && (forall k | k in kwargs :: HeadsOk(k.value))
    case _ => true
  }

  /** Printing keeps a tree's meaning exactly when its heads are not prefix expressions. */
  lemma {:induction false} NormIsIdentity(e: Expr)
    ensures Norm(e) == e <==> HeadsOk(e)
    decreases e, 1
  {
    match e
    case Infix(_, l, r) => NormIsIdentity(l); NormIsIdentity(r);
    case Prefix(_, x) => NormIsIdentity(x);
    case Member(x, _) => NormIsIdentity(x);
    case Index(x, y) => NormIsIdentity(x); NormIsIdentity(y);
    case Call(callee, args, kwargs) =>
      NormIsIdentity(callee);
      NormArgsIsIdentity(args);
      NormKwargsIsIdentity(kwargs);
    case _ =>
  }

  lemma {:induction false} NormArgsIsIdentity(args: seq<Expr>)
    ensures NormArgs(args) == args <==> forall a | a in args :: HeadsOk(a)
    decreases args, 0
  {
    if args != [] {
      NormIsIdentity(args[0]);
      NormArgsIsIdentity(args[1..]);
      assert args == [args[0]] + args[1..];
      assert NormArgs(args)[0] == Norm(args[0]) && NormArgs(args)[1..] == NormArgs(args[1..]);
    }
  }

  lemma {:induction false} NormKwargsIsIdentity(kwargs: seq<Kwarg>)
    ensures NormKwargs(kwargs) == kwargs <==> forall k | k in kwargs :: HeadsOk(k.value)
    decreases kwargs, 0
  {
    if kwargs != [] {
      var k := kwargs[0];
      assert k.value < k;
      NormIsIdentity(k.value);
      NormKwargsIsIdentity(kwargs[1..]);
      assert kwargs == [k] + kwargs[1..];
      assert NormKwargs(kwargs)[0] == NormKwarg(k) && NormKwargs(kwargs)[1..] == NormKwargs(kwargs[1..]);
    }
  }

  // ---------- The derivation of the printed text ----------

  datatype CSuffix = CDot(name: string) | CIdx(index: Cst) | CApp(args: seq<CArg>)

  function SuffixLen(x: CSuffix): nat {
    match x
    case CDot(_) => 2
    case CIdx(index) => Len(index) + 2
    case CApp(args) => ArgsLen(args) + 2
  }

  function WithSuffix(c: Cst, x: CSuffix): Cst {
    match x
    case CDot(name) => Dot(c, name)
    case CIdx(index) => Idx(c, index)
    case CApp(args) => App(c, args, false)
  }

  /** c with a suffix, which goes to the operand when c is a prefix expression. */
  function Attach(c: Cst, x: CSuffix): (r: Cst)
    ensures r.Un? == c.Un?
    ensures Len(r) == Len(c) + SuffixLen(x)
  {
    if c.Un? then Un(c.op, Attach(c.right, x)) else WithSuffix(c, x)
  }

  function CstOf(e: Expr, ft: FloatText): (c: Cst)
    decreases e, 1
  {
    match e
    case BadExpr => Leaf(ILLEGAL, "<error>")
    case Ident(name) => Leaf(IDENT, name)
    case IntLit(n) => if n < 0 then Un(MINUS, Leaf(INTEGER, Render(-(n as int)))) else Leaf(INTEGER, Render(n))
    case FloatLit(f) => Leaf(FLOAT, ft(f))
    case StrLit(s) => Leaf(STRING, s)
    case BoolLit(b) => if b then Leaf(TRUE, "true") else Leaf(FALSE, "false")
    case Infix(op, l, r) => Paren(Bin(op, CstOf(l, ft), CstOf(r, ft)))
    case Prefix(op, x) => Un(op, CstOf(x, ft))
    case Member(x, name) => Attach(CstOf(x, ft), CDot(name))
    case Index(x, y) => Attach(CstOf(x, ft), CIdx(CstOf(y, ft)))
    case Call(callee, args, kwargs) => Attach(CstOf(callee, ft), CApp(ArgsOf(args, ft) + KwargsOf(kwargs, ft)))
  }

  function ArgsOf(args: seq<Expr>, ft: FloatText): (r: seq<CArg>)
    ensures |r| == |args|
    decreases args, 0
  {
    if args == [] then [] else [CArg(None, CstOf(args[0], ft))] + ArgsOf(args[1..], ft)
  }

  function KwargsOf(kwargs: seq<Kwarg>, ft: FloatText): (r: seq<CArg>)
    ensures |r| == |kwargs|
    decreases kwargs, 0
  {
    if kwargs == [] then [] else [KwargOf(kwargs[0], ft)] + KwargsOf(kwargs[1..], ft)
  }

  function KwargOf(k: Kwarg, ft: FloatText): CArg
    decreases k, 2
  {
    CArg(Some(k.key), CstOf(k.value, ft))
  }

  // ---------- It is a derivation, and it denotes Norm(e) ----------

  /** The printer puts parentheses around binary operators only. */
  predicate Sparing(c: Cst) {
    (c.Paren? ==> c.inner.Bin?) && (c.Un? ==> Sparing(c.right))
  }

  /** c is an operand, as printed: a derivation of one of the two tightest tiers. */
  predicate Operand(s: Source, c: Cst) {
    Stratified(c) && Legible(s, c) && Tier(c) >= PREFIX && Sparing(c)
  }

  predicate SuffixOk(s: Source, x: CSuffix) {
    match x
    case CDot(_) => true
    case CIdx(index) => Stratified(index) && Legible(s, index)
    case CApp(args) => Ordered(args) && (forall a | a in args :: Stratified(a.value)) && LegibleArgs(s, args)
  }

  function SemSuffix(s: Source, x: CSuffix): Suffix
    requires SuffixOk(s, x)
  {
    match x
    case CDot(name) => DotSuffix(name)
    case CIdx(index) => IdxSuffix(Sem(s, index))
    case CApp(args) => AppSuffix(Positional(s, args), Keyword(s, args))
  }

  lemma {:induction false} AttachMeans(s: Source, c: Cst, x: CSuffix)
    requires Operand(s, c) && SuffixOk(s, x)
    ensures Operand(s, Attach(c, x)) && Sem(s, Attach(c, x)) == Push(Sem(s, c), SemSuffix(s, x))
  {
    if c.Un? {
      AttachMeans(s, c.right, x);
    } else {
      NotPrefix(s, c);
      SuffixMeans(s, c, x);
    }
  }

  lemma NotPrefix(s: Source, c: Cst)
    requires Operand(s, c) && !c.Un?
    ensures Tier(c) == CALL
    ensures !Sem(s, c).Prefix?
  {
  }

  lemma SuffixMeans(s: Source, c: Cst, x: CSuffix)
    requires Operand(s, c) && Tier(c) == CALL && SuffixOk(s, x)
    ensures Operand(s, WithSuffix(c, x)) && Sem(s, WithSuffix(c, x)) == Applied(Sem(s, c), SemSuffix(s, x))
  {
    hide Prec, Literal;
  }

  lemma {:induction false} CstOfMeans(s: Source, e: Expr, ft: FloatText)
    requires Printable(e, ft, s)
    ensures var c := CstOf(e, ft); Operand(s, c) && Sem(s, c) == Norm(e)
    decreases e, 1
  {
    hide Stratified, Legible, Sem, Literal;
    match e
    case BadExpr =>
    case Infix(op, l, r) =>
      CstOfMeans(s, l, ft);
      CstOfMeans(s, r, ft);
      BinMeans(s, op, CstOf(l, ft), CstOf(r, ft));
    case Prefix(op, x) =>
      CstOfMeans(s, x, ft);
      UnMeans(s, op, CstOf(x, ft));
    case Member(x, name) =>
      CstOfMeans(s, x, ft);
      AttachMeans(s, CstOf(x, ft), CDot(name));
    case Index(x, y) =>
      CstOfMeans(s, x, ft);
      CstOfMeans(s, y, ft);
      AttachMeans(s, CstOf(x, ft), CIdx(CstOf(y, ft)));
    case Call(callee, args, kwargs) =>
      CstOfMeans(s, callee, ft);
      KwargsOfMeans(s, kwargs, ft);
      ArgsOfMeans(s, args, kwargs, ft);
      AttachMeans(s, CstOf(callee, ft), CApp(ArgsOf(args, ft) + KwargsOf(kwargs, ft)));
    case _ => LeafMeans(s, e, ft);
  }

  lemma LeafMeans(s: Source, e: Expr, ft: FloatText)
    requires Printable(e, ft, s) && (e.Ident? || e.IntLit? || e.FloatLit? || e.StrLit? || e.BoolLit?)
    ensures var c := CstOf(e, ft); Operand(s, c) && Sem(s, c) == e
  {
    if e.IntLit? {
      DecimalRender(e.n);
    }
  }

  lemma BinMeans(s: Source, op: TokenType, l: Cst, r: Cst)
    requires IsBinary(op) && Operand(s, l) && Operand(s, r)
    ensures Operand(s, Paren(Bin(op, l, r))) && Sem(s, Paren(Bin(op, l, r))) == Infix(op, Sem(s, l), Sem(s, r))
  {
    hide Prec, Literal;
    assert Stratified(Bin(op, l, r));
    assert Legible(s, Bin(op, l, r));
  }

  lemma UnMeans(s: Source, op: TokenType, x: Cst)
    requires op in {MINUS, BANG} && Operand(s, x)
    ensures Operand(s, Un(op, x)) && Sem(s, Un(op, x)) == Prefix(op, Sem(s, x))
  {
    hide Prec, Literal;
  }

  /** The keyword arguments alone. */
  predicate KwargsMean(s: Source, kwargs: seq<Kwarg>, ft: FloatText) {
    var all := KwargsOf(kwargs, ft);
    && SuffixOk(s, CApp(all)) && Positional(s, all) == [] && Keyword(s, all) == NormKwargs(kwargs)
    && (forall a | a in all :: a.key.Some?)
  }

  /** One more argument in front. */
  lemma ArgsCons(s: Source, a: CArg, rest: seq<CArg>)
    requires Stratified(a.value) && Legible(s, a.value) && SuffixOk(s, CApp(rest))
    requires a.key.Some? ==> forall b | b in rest :: b.key.Some?
    ensures SuffixOk(s, CApp([a] + rest))
    ensures Positional(s, [a] + rest)
         == if a.key.None? then [Sem(s, a.value)] + Positional(s, rest) else Positional(s, rest)
    ensures Keyword(s, [a] + rest)
         == if a.key.Some? then [Kwarg(a.key.value, Sem(s, a.value))] + Keyword(s, rest) else Keyword(s, rest)
  {
    hide Stratified, Legible, Sem;
    var all := [a] + rest;
    assert all[0] == a && all[1..] == rest;
    assert [] + Positional(s, rest) == Positional(s, rest);
    assert [] + Keyword(s, rest) == Keyword(s, rest);
  }

  lemma {:induction false} ArgsOfMeans(s: Source, args: seq<Expr>, kwargs: seq<Kwarg>, ft: FloatText)
    requires (forall a | a in args :: Printable(a, ft, s)) && KwargsMean(s, kwargs, ft)
    ensures var all := ArgsOf(args, ft) + KwargsOf(kwargs, ft);
      && SuffixOk(s, CApp(all)) && Positional(s, all) == NormArgs(args) && Keyword(s, all) == NormKwargs(kwargs)
    decreases args, 0
  {
    hide Stratified, Legible, Sem, Literal, Printable, CstOf, Norm, SuffixOk, Positional, Keyword;
    if args == [] {
      assert ArgsOf(args, ft) + KwargsOf(kwargs, ft) == KwargsOf(kwargs, ft);
    } else {
      var a, rest := CArg(None, CstOf(args[0], ft)), ArgsOf(args[1..], ft) + KwargsOf(kwargs, ft);
      CstOfMeans(s, args[0], ft);
      ArgsOfMeans(s, args[1..], kwargs, ft);
      ArgsCons(s, a, rest);
      assert ArgsOf(args, ft) + KwargsOf(kwargs, ft) == [a] + rest;
    }
  }

  lemma {:induction false} KwargsOfMeans(s: Source, kwargs: seq<Kwarg>, ft: FloatText)
    requires forall k | k in kwargs :: Printable(k.value, ft, s)
    ensures KwargsMean(s, kwargs, ft)
    decreases kwargs, 0
  {
    if kwargs == [] {
      assert KwargsOf(kwargs, ft) == [];
    } else {
      hide Stratified, Legible, Sem, Literal, Printable, CstOf, Norm, SuffixOk, Positional, Keyword;
      var k, rest := kwargs[0], KwargsOf(kwargs[1..], ft);
      assert k.value < k;
      CstOfMeans(s, k.value, ft);
      KwargsOfMeans(s, kwargs[1..], ft);
      ArgsCons(s, KwargOf(k, ft), rest);
      assert KwargsOf(kwargs, ft) == [KwargOf(k, ft)] + rest;
      var all := KwargsOf(kwargs, ft);
      assert SuffixOk(s, CApp(all));
      assert forall a | a in all :: a == KwargOf(k, ft) || a in rest;
      assert forall a | a in all :: a.key.Some?;
      assert NormKwargs(kwargs) == [NormKwarg(k)] + NormKwargs(kwargs[1..]);
    }
  }

  // ---------- It spells the printed text ----------

  /** The parser looks at the text of these tokens only. */
  predicate Worded(t: TokenType) {
    t in {IDENT, INTEGER, FLOAT, STRING, TRUE, FALSE}
  }

  predicate Reads(t: Token, x: Lexeme) {
    t.typ == x.typ && (Worded(x.typ) ==> t.lit == x.lit)
  }

  /** From token i on, s holds these lexemes. */
  predicate Holds(s: Source, i: nat, text: seq<Lexeme>) {
    forall k | 0 <= k < |text| :: Reads(s.At(i + k), text[k])
  }

  lemma HoldsParts(s: Source, i: nat, a: seq<Lexeme>, b: seq<Lexeme>)
    requires Holds(s, i, a + b)
    ensures Holds(s, i, a) && Holds(s, i + |a|, b)
  {
    forall k | 0 <= k < |a| ensures Reads(s.At(i + k), a[k]) {
      assert (a + b)[k] == a[k];
    }
    forall k | 0 <= k < |b| ensures Reads(s.At(i + |a| + k), b[k]) {
      assert (a + b)[|a| + k] == b[k];
    }
  }

  lemma HoldsOne(s: Source, i: nat, x: Lexeme)
    requires Holds(s, i, [x])
    ensures Reads(s.At(i), x)
  {
    assert Reads(s.At(i + 0), [x][0]);
  }

  lemma HoldsTwo(s: Source, i: nat, x: Lexeme, y: Lexeme)
    requires Holds(s, i, [x, y])
    ensures Reads(s.At(i), x) && Reads(s.At(i + 1), y)
  {
    assert [x, y] == [x] + [y];
    HoldsParts(s, i, [x], [y]);
    HoldsOne(s, i, x);
    HoldsOne(s, i + 1, y);
  }

  /** x is what follows a head that ends before token i. */
  predicate SuffixMatches(s: Source, i: nat, x: CSuffix) {
    match x
    case CDot(name) => s.Is(i, DOT) && s.Is(i + 1, IDENT) && s.At(i + 1).lit == name
    case CIdx(index) => s.Is(i, LBRACKET) && Matches(s, i + 1, index) && s.Is(i + 1 + Len(index), RBRACKET)
    case CApp(args) => s.Is(i, LPAREN) && MatchesArgs(s, i + 1, args) && s.Is(i + 1 + ArgsLen(args), RPAREN)
  }

  lemma {:induction false} AttachMatches(s: Source, i: nat, c: Cst, x: CSuffix)
    requires Matches(s, i, c) && SuffixMatches(s, i + Len(c), x)
    ensures Matches(s, i, Attach(c, x))
    decreases c
  {
    hide Prec;
    if c.Un? {
      assert Matches(s, i + 1, c.right) && s.Is(i, c.op);
      hide SuffixMatches;
      AttachMatches(s, i + 1, c.right, x);
      hide Attach;
    } else {
      SuffixFollows(s, i, c, x);
      hide Matches, SuffixMatches;
    }
  }

  lemma SuffixFollows(s: Source, i: nat, c: Cst, x: CSuffix)
    requires Matches(s, i, c) && SuffixMatches(s, i + Len(c), x)
    ensures Matches(s, i, WithSuffix(c, x))
  {
    hide Matches, Len;
    match x
    case CDot(name) => DotSpelling(s, i, c, name);
    case CIdx(index) => IdxSpelling(s, i, c, index);
    case CApp(args) => AppSpelling(s, i, c, args, false);
  }

  /** The printed text of e, read from token i on, spells its derivation. */
  predicate Spelt(s: Source, i: nat, e: Expr, ft: FloatText) {
    Matches(s, i, CstOf(e, ft)) && Len(CstOf(e, ft)) == |Printed(e, ft)|
  }

  lemma {:induction false} CstOfMatches(s: Source, i: nat, e: Expr, ft: FloatText)
    requires Printable(e, ft, s) && Holds(s, i, Printed(e, ft))
    ensures Spelt(s, i, e, ft)
    decreases e, 1
  {
    hide Holds, Matches, Len, Spelt;
    match e
    case BadExpr =>
    case Infix(op, l, r) => InfixMatches(s, i, e, ft);
    case Prefix(op, x) => PrefixMatches(s, i, e, ft);
    case Member(x, name) => MemberMatches(s, i, e, ft);
    case Index(x, y) => IndexMatches(s, i, e, ft);
    case Call(callee, args, kwargs) => CallMatches(s, i, e, ft);
    case _ => LeafMatches(s, i, e, ft);
  }

  lemma LeafMatches(s: Source, i: nat, e: Expr, ft: FloatText)
    requires (e.Ident? || e.IntLit? || e.FloatLit? || e.StrLit? || e.BoolLit?)
    requires Printable(e, ft, s) && Holds(s, i, Printed(e, ft))
    ensures Spelt(s, i, e, ft)
  {
    HoldsOne(s, i, Printed(e, ft)[0]);
  }

  lemma {:induction false} InfixMatches(s: Source, i: nat, e: Expr, ft: FloatText)
    requires e.Infix? && Printable(e, ft, s) && Holds(s, i, Printed(e, ft))
    ensures Spelt(s, i, e, ft)
    decreases e, 0
  {
    hide Holds, Prec;
    var l, r := Printed(e.left, ft), Printed(e.right, ft);
    var open, op, close := [Lexeme(LPAREN, "(")], [Lexeme(e.op, "")], [Lexeme(RPAREN, ")")];
    HoldsParts(s, i, open + l + op + r, close);
    HoldsParts(s, i, open + l + op, r);
    HoldsParts(s, i, open + l, op);
    HoldsParts(s, i, open, l);
    HoldsOne(s, i, open[0]);
    HoldsOne(s, i + 1 + |l|, op[0]);
    HoldsOne(s, i + 2 + |l| + |r|, close[0]);
    CstOfMatches(s, i + 1, e.left, ft);
    CstOfMatches(s, i + 2 + |l|, e.right, ft);
    assert Matches(s, i + 1, Bin(e.op, CstOf(e.left, ft), CstOf(e.right, ft)));
  }

  lemma {:induction false} PrefixMatches(s: Source, i: nat, e: Expr, ft: FloatText)
    requires e.Prefix? && Printable(e, ft, s) && Holds(s, i, Printed(e, ft))
    ensures Spelt(s, i, e, ft)
    decreases e, 0
  {
    hide Holds;
    HoldsParts(s, i, [Lexeme(e.op, "")], Printed(e.right, ft));
    HoldsOne(s, i, Lexeme(e.op, ""));
    CstOfMatches(s, i + 1, e.right, ft);
  }

  lemma {:induction false} MemberMatches(s: Source, i: nat, e: Expr, ft: FloatText)
    requires e.Member? && Printable(e, ft, s) && Holds(s, i, Printed(e, ft))
    ensures Spelt(s, i, e, ft)
    decreases e, 0
  {
    hide Holds, Matches, Len;
    var x, dot, name := Printed(e.receiver, ft), Lexeme(DOT, "."), Lexeme(IDENT, e.name);
    HoldsParts(s, i, x, [dot, name]);
    HoldsTwo(s, i + |x|, dot, name);
    CstOfMatches(s, i, e.receiver, ft);
    AttachMatches(s, i, CstOf(e.receiver, ft), CDot(e.name));
  }

  lemma {:induction false} IndexMatches(s: Source, i: nat, e: Expr, ft: FloatText)
    requires e.Index? && Printable(e, ft, s) && Holds(s, i, Printed(e, ft))
    ensures Spelt(s, i, e, ft)
    decreases e, 0
  {
    hide Holds, Matches, Len;
    var x, y := Printed(e.left, ft), Printed(e.index, ft);
    var open, close := [Lexeme(LBRACKET, "[")], [Lexeme(RBRACKET, "]")];
    HoldsParts(s, i, x + open + y, close);
    HoldsParts(s, i, x + open, y);
    HoldsParts(s, i, x, open);
    HoldsOne(s, i + |x|, open[0]);
    HoldsOne(s, i + |x| + 1 + |y|, close[0]);
    CstOfMatches(s, i, e.left, ft);
    CstOfMatches(s, i + |x| + 1, e.index, ft);
    AttachMatches(s, i, CstOf(e.left, ft), CIdx(CstOf(e.index, ft)));
  }

  lemma {:induction false} CallMatches(s: Source, i: nat, e: Expr, ft: FloatText)
    requires e.Call? && Printable(e, ft, s) && Holds(s, i, Printed(e, ft))
    ensures Spelt(s, i, e, ft)
    decreases e, 0
  {
    hide Holds, Matches, Len, PrintedArgs, PrintedKwargs;
    var x, inner := Printed(e.callee, ft), PrintedArgs(e.args, e.kwargs != [], ft) + PrintedKwargs(e.kwargs, ft);
    var open, close := [Lexeme(LPAREN, "(")], [Lexeme(RPAREN, ")")];
    HoldsParts(s, i, x + open + inner, close);
    HoldsParts(s, i, x + open, inner);
    HoldsParts(s, i, x, open);
    HoldsOne(s, i + |x|, open[0]);
    HoldsOne(s, i + |x| + 1 + |inner|, close[0]);
    CstOfMatches(s, i, e.callee, ft);
    var args, kwargs := PrintedArgs(e.args, e.kwargs != [], ft), PrintedKwargs(e.kwargs, ft);
    HoldsParts(s, i + |x| + 1, args, kwargs);
    KwargsMatch(s, i + |x| + 1 + |args|, e.kwargs, ft);
    ArgsMatch(s, i + |x| + 1, e.args, e.kwargs, ft);
    AttachMatches(s, i, CstOf(e.callee, ft), CApp(ArgsOf(e.args, ft) + KwargsOf(e.kwargs, ft)));
  }

  /** Keyword arguments of a call spell what they print. */
  predicate KwargsSpelt(s: Source, i: nat, kwargs: seq<Kwarg>, ft: FloatText) {
    var all := KwargsOf(kwargs, ft);
    MatchesArgs(s, i, all) && ArgsLen(all) == |PrintedKwargs(kwargs, ft)|
  }

  lemma {:induction false} KwargMatches(s: Source, i: nat, k: Kwarg, ft: FloatText)
    requires Printable(k.value, ft, s) && Holds(s, i, PrintedKwarg(k, ft))
    ensures MatchesArg(s, i, KwargOf(k, ft)) && ArgLen(KwargOf(k, ft)) == |PrintedKwarg(k, ft)|
    decreases k, 0
  {
    hide Holds, Matches, Len, Printable, CstOf, Printed;
    HoldsParts(s, i, [Lexeme(IDENT, k.key), Lexeme(ASSIGN, "=")], Printed(k.value, ft));
    HoldsTwo(s, i, Lexeme(IDENT, k.key), Lexeme(ASSIGN, "="));
    CstOfMatches(s, i + 2, k.value, ft);
  }

  lemma NoKwargsSpelt(s: Source, i: nat, ft: FloatText)
    ensures KwargsSpelt(s, i, [], ft)
  {
  }

  lemma {:induction false} KwargsMatch(s: Source, i: nat, kwargs: seq<Kwarg>, ft: FloatText)
    requires (forall k | k in kwargs :: Printable(k.value, ft, s)) && Holds(s, i, PrintedKwargs(kwargs, ft))
    ensures KwargsSpelt(s, i, kwargs, ft)
    decreases kwargs, 0
  {
    hide Holds, Matches, Len, Printable, CstOf, Printed, MatchesArgs, MatchesArg, ArgsLen, KwargOf, ArgLen,
      PrintedKwarg;
    if kwargs == [] {
      NoKwargsSpelt(s, i, ft);
    } else {
      var k := kwargs[0];
      var first, comma, rest := PrintedKwarg(k, ft), Comma(|kwargs| > 1), PrintedKwargs(kwargs[1..], ft);
      HoldsParts(s, i, first + comma, rest);
      HoldsParts(s, i, first, comma);
      KwargMatches(s, i, k, ft);
      if |kwargs| > 1 {
        HoldsOne(s, i + |first|, comma[0]);
      }
      KwargsMatch(s, i + |first| + |comma|, kwargs[1..], ft);
      MatchesCons(s, i, KwargOf(k, ft), KwargsOf(kwargs[1..], ft));
      assert KwargsOf(kwargs, ft) == [KwargOf(k, ft)] + KwargsOf(kwargs[1..], ft);
      assert |kwargs| == 1 ==> rest == [];
    }
  }

  lemma {:induction false} ArgsMatch(s: Source, i: nat, args: seq<Expr>, kwargs: seq<Kwarg>, ft: FloatText)
    requires (forall a | a in args :: Printable(a, ft, s)) && Holds(s, i, PrintedArgs(args, kwargs != [], ft))
    requires KwargsSpelt(s, i + |PrintedArgs(args, kwargs != [], ft)|, kwargs, ft)
    ensures var all := ArgsOf(args, ft) + KwargsOf(kwargs, ft);
      MatchesArgs(s, i, all) && ArgsLen(all) == |PrintedArgs(args, kwargs != [], ft)| + |PrintedKwargs(kwargs, ft)|
    decreases args, 0
  {
    hide Holds, Matches, Len, Printable, CstOf, Printed, MatchesArgs, ArgsLen, PrintedKwargs;
    if args == [] {
      assert ArgsOf(args, ft) + KwargsOf(kwargs, ft) == KwargsOf(kwargs, ft);
    } else {
      var more := |args| > 1 || kwargs != [];
      var first, comma, rest := Printed(args[0], ft), Comma(more), PrintedArgs(args[1..], kwargs != [], ft);
      HoldsParts(s, i, first + comma, rest);
      HoldsParts(s, i, first, comma);
      CstOfMatches(s, i, args[0], ft);
      if more {
        HoldsOne(s, i + |first|, comma[0]);
      }
      ArgsMatch(s, i + |first| + |comma|, args[1..], kwargs, ft);
      var a, others := CArg(None, CstOf(args[0], ft)), ArgsOf(args[1..], ft) + KwargsOf(kwargs, ft);
      MatchesCons(s, i, a, others);
      assert ArgsOf(args, ft) + KwargsOf(kwargs, ft) == [a] + others;
      NonePrinted(kwargs, ft);
      assert |args| == 1 ==> rest == [];
    }
  }

  lemma NonePrinted(kwargs: seq<Kwarg>, ft: FloatText)
    ensures kwargs == [] ==> PrintedKwargs(kwargs, ft) == []
  {
  }

  // ---------- The round trip ----------

  /** How deep the printed form of e nests. */
  function Nesting(e: Expr, ft: FloatText): nat {
    Height(CstOf(e, ft))
  }

  /**
   Reading back what was printed, when no operator follows it: the result is Norm(e), or an error if the text
   nests too deep.
   */
  lemma ParsePrinted(s: Source, i: nat, e: Expr, ft: FloatText)
    requires Printable(e, ft, s) && Holds(s, i, Printed(e, ft)) && Prec(s.At(i + |Printed(e, ft)|).typ) == LOWEST
    ensures Nesting(e, ft) <= MAX_DEPTH ==> ParseExpr(s, i, LOWEST, 0) == Success((Norm(e), i + |Printed(e, ft)| - 1))
    ensures Nesting(e, ft) > MAX_DEPTH ==> ParseExpr(s, i, LOWEST, 0).Failure?
  {
    hide ParseExpr, Stratified, Matches, Legible, Height, Sem, Len, Holds, Printable;
    var c := CstOf(e, ft);
    CstOfMeans(s, e, ft);
    CstOfMatches(s, i, e, ft);
    FitsLowest(c);
    if Nesting(e, ft) <= MAX_DEPTH {
      Complete(s, i, LOWEST, 0, c);
    } else if ParseExpr(s, i, LOWEST, 0).Success? {
      var d := Sound(s, i, LOWEST, 0);
      Unambiguity.Unique(s, i, LOWEST, c, d);
      assert false;
    }
  }

  /**
   Printing and reading back gives the same tree exactly when its heads are not prefix expressions and it is not too
   deep.
   */
  lemma RoundTrip(s: Source, i: nat, e: Expr, ft: FloatText)
    requires Printable(e, ft, s) && Holds(s, i, Printed(e, ft)) && Prec(s.At(i + |Printed(e, ft)|).typ) == LOWEST
    ensures ParseExpr(s, i, LOWEST, 0) == Success((e, i + |Printed(e, ft)| - 1))
       <==> HeadsOk(e) && Nesting(e, ft) <= MAX_DEPTH
  {
    hide ParseExpr, Printed, Norm, HeadsOk, Nesting, Holds, Printable;
    ParsePrinted(s, i, e, ft);
    NormIsIdentity(e);
  }

  /** `(-a).b` is printed as `-a.b`, which is `-(a.b)`. */
  lemma PrefixHeadIsLost(s: Source, ft: FloatText)
    ensures var e := Member(Prefix(MINUS, Ident("a")), "b");
      && Printed(e, ft) == Printed(Prefix(MINUS, Member(Ident("a"), "b")), ft)
      && Norm(e) == Prefix(MINUS, Member(Ident("a"), "b")) != e
  {
    var a := Ident("a");
    assert Printed(Prefix(MINUS, a), ft) == [Lexeme(MINUS, "")] + Printed(a, ft);
    assert Printed(Member(a, "b"), ft) == Printed(a, ft) + [Lexeme(DOT, "."), Lexeme(IDENT, "b")];
    assert Push(a, DotSuffix("b")) == Member(a, "b");
  }
}
