/**
 The expression grammar (the precedence table of the language description) as derivation trees, independent of any
 parsing method: each tier's operands come from tighter tiers, binary operators associate to the left, prefix
 operators to the right, and a member access, index or call applies to the tightest tier only.
 */
module Grammar {
  import opened Wrappers
  import opened Tokens
  import opened Values
  import opened Ast
  import opened Parsing

  datatype Cst =
    | Leaf(typ: TokenType, lit: string)
    | Paren(inner: Cst)
    | Un(op: TokenType, right: Cst)
    | Bin(op: TokenType, left: Cst, right: Cst)
    | Dot(head: Cst, name: string)
    | Idx(head: Cst, index: Cst)
    | App(head: Cst, args: seq<CArg>, trailing: bool)

  datatype CArg = CArg(key: Option<string>, value: Cst)

  // ---------- Tiers ----------

  /** How tightly the outermost production of c binds; calls, atoms and groups bind tightest. */
  function Tier(c: Cst): (t: nat)
    ensures t <= CALL
  {
    match c
    case Bin(op, _, _) => Prec(op)
    case Un(_, _) => PREFIX
    case _ => CALL
  }

  predicate IsBinary(op: TokenType) {
    0 < Prec(op) < PREFIX
  }

  /** c is a derivation of the stratified grammar. */
  predicate Stratified(c: Cst)
    decreases c
  {
    match c
    case Leaf(t, _) => t in {IDENT, INTEGER, FLOAT, STRING, TRUE, FALSE}
    case Paren(x) => Stratified(x)
    case Un(op, x) => op in {MINUS, BANG} && Stratified(x) && Tier(x) >= PREFIX
    case Bin(op, l, r) => IsBinary(op) && Stratified(l) && Stratified(r) && Tier(l) >= Prec(op) && Tier(r) > Prec(op)
    case Dot(h, _) => Stratified(h) && Tier(h) == CALL
    case Idx(h, x) => Stratified(h) && Tier(h) == CALL && Stratified(x)
    case App(h, args, trailing) =>
      && Stratified(h) && Tier(h) == CALL
      && Ordered(args) && (trailing ==> args != [])
      && (forall a | a in args :: Stratified(a.value))
  }

  /** Keyword arguments come last. */
  predicate Ordered(args: seq<CArg>) {
    forall i, j | 0 <= i < j < |args| :: args[i].key.Some? ==> args[j].key.Some?
  }

  /** c uses only operators tighter than prec; a prefix operator may repeat. */
  predicate Fits(c: Cst, prec: nat) {
    Tier(c) > prec || Tier(c) == PREFIX
  }

  // ---------- Spelling ----------

  function Len(c: Cst): (n: nat)
    ensures n > 0
    decreases c, 0
  {
    match c
    case Leaf(_, _) => 1
    case Paren(x) => Len(x) + 2
    case Un(_, x) => Len(x) + 1
    case Bin(_, l, r) => Len(l) + 1 + Len(r)
    case Dot(h, _) => Len(h) + 2
    case Idx(h, x) => Len(h) + Len(x) + 2
    case App(h, args, trailing) => Len(h) + 2 + ArgsLen(args) + if trailing then 1 else 0
  }

  function ArgLen(a: CArg): (n: nat)
    ensures n > 0
    decreases a, 1
  {
    Len(a.value) + if a.key.Some? then 2 else 0
  }

  /** With the commas between them. */
  function ArgsLen(args: seq<CArg>): nat
    decreases args, 0
  {
    if args == [] then 0
    else if |args| == 1 then ArgLen(args[0])
    else ArgLen(args[0]) + 1 + ArgsLen(args[1..])
  }

  /** The tokens of c are those of s from i on. */
  predicate Matches(s: Source, i: nat, c: Cst)
    decreases c, 0
  {
    match c
    case Leaf(t, lit) => s.At(i).typ == t && s.At(i).lit == lit
    case Paren(x) => s.Is(i, LPAREN) && Matches(s, i + 1, x) && s.Is(i + 1 + Len(x), RPAREN)
    case Un(op, x) => s.Is(i, op) && Matches(s, i + 1, x)
    case Bin(op, l, r) => Matches(s, i, l) && s.Is(i + Len(l), op) && Matches(s, i + Len(l) + 1, r)
    case Dot(h, name) =>
      var p := i + Len(h);
      Matches(s, i, h) && s.Is(p, DOT) && s.Is(p + 1, IDENT) && s.At(p + 1).lit == name
    case Idx(h, x) =>
      var p := i + Len(h);
      Matches(s, i, h) && s.Is(p, LBRACKET) && Matches(s, p + 1, x) && s.Is(p + 1 + Len(x), RBRACKET)
    case App(h, args, trailing) =>
      var p := i + Len(h);
      var q := p + 1 + ArgsLen(args);
      && Matches(s, i, h) && s.Is(p, LPAREN) && MatchesArgs(s, p + 1, args)
      && (if trailing then s.Is(q, COMMA) && s.Is(q + 1, RPAREN) else s.Is(q, RPAREN))
  }

  predicate MatchesArg(s: Source, i: nat, a: CArg)
    decreases a, 1
  {
    match a.key
    case None => Matches(s, i, a.value)
    case Some(key) => s.Is(i, IDENT) && s.At(i).lit == key && s.Is(i + 1, ASSIGN) && Matches(s, i + 2, a.value)
  }

  predicate MatchesArgs(s: Source, i: nat, args: seq<CArg>)
    decreases args, 0
  {
    args == [] ||
    (MatchesArg(s, i, args[0]) &&
     (|args| > 1 ==> s.Is(i + ArgLen(args[0]), COMMA) && MatchesArgs(s, i + ArgLen(args[0]) + 1, args[1..])))
  }

  // ---------- Meaning ----------

  /** Every number in c can be represented. */
  predicate Legible(s: Source, c: Cst)
    decreases c
  {
    match c
    case Leaf(t, lit) => Literal(s, t, lit).Some?
    case Paren(x) => Legible(s, x)
    case Un(_, x) => Legible(s, x)
    case Bin(_, l, r) => Legible(s, l) && Legible(s, r)
    case Dot(h, _) => Legible(s, h)
    case Idx(h, x) => Legible(s, h) && Legible(s, x)
    case App(h, args, _) => Legible(s, h) && (forall a | a in args :: Legible(s, a.value))
  }

  predicate LegibleArgs(s: Source, args: seq<CArg>) {
    forall a | a in args :: Legible(s, a.value)
  }

  /** The tree c denotes: groups and commas leave no trace. */
  function Sem(s: Source, c: Cst): Expr
    requires Legible(s, c)
    decreases c, 0
  {
    match c
    case Leaf(t, lit) => Literal(s, t, lit).value
    case Paren(x) => Sem(s, x)
    case Un(op, x) => Prefix(op, Sem(s, x))
    case Bin(op, l, r) => Infix(op, Sem(s, l), Sem(s, r))
    case Dot(h, name) => Member(Sem(s, h), name)
    case Idx(h, x) => Index(Sem(s, h), Sem(s, x))
    case App(h, args, _) => Call(Sem(s, h), Positional(s, args), Keyword(s, args))
  }

  function Positional(s: Source, args: seq<CArg>): seq<Expr>
    requires LegibleArgs(s, args)
    decreases args, 1
  {
    if args == [] then []
    else
      var a := args[0];
      assert a.value < a;
      (if a.key.None? then [Sem(s, a.value)] else []) + Positional(s, args[1..])
  }

  function Keyword(s: Source, args: seq<CArg>): seq<Kwarg>
    requires LegibleArgs(s, args)
    decreases args, 1
  {
    if args == [] then []
    else
      var a := args[0];
      assert a.value < a;
      (if a.key.Some? then [Kwarg(a.key.value, Sem(s, a.value))] else []) + Keyword(s, args[1..])
  }

  // ---------- Nesting ----------

  function Max(a: nat, b: nat): nat {
    if a < b then b else a
  }

  /** How many expressions nest inside one another; the left operand and the head of a postfix do not nest. */
  function Height(c: Cst): (n: nat)
    ensures n > 0
    decreases c, 0
  {
    match c
    case Leaf(_, _) => 1
    case Paren(x) => 1 + Height(x)
    case Un(_, x) => 1 + Height(x)
    case Bin(_, l, r) => Max(Height(l), 1 + Height(r))
    case Dot(h, _) => Height(h)
    case Idx(h, x) => Max(Height(h), 1 + Height(x))
    case App(h, args, _) => Max(Height(h), 1 + ArgsHeight(args))
  }

  function ArgsHeight(args: seq<CArg>): nat
    decreases args, 1
  {
    if args == [] then 0
    else
      var a := args[0];
      assert a.value < a;
      Max(Height(a.value), ArgsHeight(args[1..]))
  }

  /** c is a derivation of what s holds from i on, made of operators tighter than prec, within depth. */
  predicate Derives(s: Source, i: nat, prec: nat, depth: nat, c: Cst) {
    Stratified(c) && Fits(c, prec) && Matches(s, i, c) && Legible(s, c) && Height(c) + depth <= MAX_DEPTH
  }

  /** No operator after c could extend it. */
  predicate Maximal(s: Source, i: nat, prec: nat, c: Cst) {
    Prec(s.At(i + Len(c)).typ) <= prec
  }

  // ---------- Completeness: every derivation is found ----------

  predicate Postfix(c: Cst) {
    c.Dot? || c.Idx? || c.App?
  }

  /** c is a derivation of what s holds from i on. */
  predicate Spells(s: Source, i: nat, c: Cst) {
    Stratified(c) && Matches(s, i, c)
  }

  lemma BinHead(s: Source, i: nat, c: Cst)
    requires c.Bin? && Spells(s, i, c)
    ensures Spells(s, i, c.left) && s.Is(i + Len(c.left), c.op) && Prec(c.op) > 0
  {
  }

  lemma ClosingTokens()
    ensures Prec(RBRACKET) == Prec(RPAREN) == Prec(COMMA) == LOWEST
  {
  }

  lemma PostfixTokens()
    ensures Prec(DOT) == Prec(LBRACKET) == Prec(LPAREN) == CALL
  {
  }

  lemma PostfixHead(s: Source, i: nat, c: Cst)
    requires Postfix(c) && Spells(s, i, c)
    ensures Spells(s, i, c.head) && Prec(s.At(i + Len(c.head)).typ) > 0
  {
    hide Prec;
    PostfixTokens();
  }

  lemma AtomStart(s: Source, i: nat, c: Cst)
    requires !c.Bin? && !Postfix(c) && Spells(s, i, c)
    ensures !NoOperand(s, i) && !s.Is(i, NEWLINE)
    ensures s.Is(i, IDENT) ==> c.Leaf? && Len(c) == 1
  {
  }

  /** A derivation starts with a token that can start an operand. */
  lemma {:induction false} FirstToken(s: Source, i: nat, c: Cst)
    requires Spells(s, i, c)
    ensures !NoOperand(s, i) && !s.Is(i, NEWLINE)
  {
    hide Spells, NoOperand;
    if c.Bin? {
      BinHead(s, i, c);
      FirstToken(s, i, c.left);
    } else if Postfix(c) {
      PostfixHead(s, i, c);
      FirstToken(s, i, c.head);
    } else {
      AtomStart(s, i, c);
    }
  }

  /** A derivation never reads as `name =` unless an `=` follows it. */
  lemma {:induction false} NoKey(s: Source, i: nat, c: Cst)
    requires Spells(s, i, c) && !s.Is(i + Len(c), ASSIGN)
    ensures !(s.Is(i, IDENT) && s.Is(i + 1, ASSIGN))
  {
    hide Spells, Len;
    if c.Bin? {
      BinHead(s, i, c);
      NoKey(s, i, c.left);
    } else if Postfix(c) {
      PostfixHead(s, i, c);
      NoKey(s, i, c.head);
    } else {
      AtomStart(s, i, c);
    }
  }

  // How the parser reads an operand, and one step of its loop for each kind of operator.

  lemma LeafStep(s: Source, i: nat, prec: nat, depth: nat)
    requires depth < MAX_DEPTH && Literal(s, s.At(i).typ, s.At(i).lit).Some?
    ensures i < |s.toks|
    ensures ParseExpr(s, i, prec, depth) == ParseLoop(s, Literal(s, s.At(i).typ, s.At(i).lit).value, i, prec, depth + 1)
  {
    hide Prec, ParseLoop;
    assert ParsePrefix(s, i, depth + 1) == Success((Literal(s, s.At(i).typ, s.At(i).lit).value, i));
  }

  lemma ParenStep(s: Source, i: nat, prec: nat, depth: nat, inner: Expr, k: nat)
    requires depth < MAX_DEPTH && s.Is(i, LPAREN)
    requires ParseExpr(s, i + 1, LOWEST, depth + 1) == Success((inner, k)) && s.Is(k + 1, RPAREN)
    ensures ParseExpr(s, i, prec, depth) == ParseLoop(s, inner, k + 1, prec, depth + 1)
  {
    hide Prec, ParseLoop, Literal;
    assert ParsePrefix(s, i, depth + 1) == Success((inner, k + 1));
  }

  lemma UnStep(s: Source, i: nat, prec: nat, depth: nat, right: Expr, k: nat)
    requires depth < MAX_DEPTH && s.At(i).typ in {MINUS, BANG} && !NoOperand(s, i + 1)
    requires ParseExpr(s, i + 1, PREFIX, depth + 1) == Success((right, k))
    ensures ParseExpr(s, i, prec, depth) == ParseLoop(s, Prefix(s.At(i).typ, right), k, prec, depth + 1)
  {
    hide Prec, ParseLoop, Literal, NoOperand;
    assert ParsePrefix(s, i, depth + 1) == Success((Prefix(s.At(i).typ, right), k));
  }

  lemma LoopStep(s: Source, left: Expr, j: nat, prec: nat, depth: nat, next: Expr, k: nat)
    requires depth <= MAX_DEPTH && j < |s.toks| && prec < Prec(s.At(j + 1).typ)
    requires ParseInfix(s, left, j + 1, depth) == Success((next, k))
    ensures ParseLoop(s, left, j, prec, depth) == ParseLoop(s, next, k, prec, depth)
  {
    hide ParseInfix, Prec;
  }

  lemma BinStep(s: Source, left: Expr, j: nat, prec: nat, depth: nat, right: Expr, k: nat)
    requires depth <= MAX_DEPTH && j < |s.toks|
    requires IsBinary(s.At(j + 1).typ) && prec < Prec(s.At(j + 1).typ) && !NoOperand(s, j + 2)
    requires ParseExpr(s, j + 2, Prec(s.At(j + 1).typ), depth) == Success((right, k))
    ensures ParseLoop(s, left, j, prec, depth) == ParseLoop(s, Infix(s.At(j + 1).typ, left, right), k, prec, depth)
  {
    PostfixTokens();
    hide Prec, NoOperand, ParseExpr, ParseLoop, ParseCall, ParseArgs;
    assert ParseInfix(s, left, j + 1, depth) == Success((Infix(s.At(j + 1).typ, left, right), k));
    hide ParseInfix;
    LoopStep(s, left, j, prec, depth, Infix(s.At(j + 1).typ, left, right), k);
  }

  lemma DotStep(s: Source, left: Expr, j: nat, prec: nat, depth: nat)
    requires depth <= MAX_DEPTH && j < |s.toks| && prec <= PREFIX
    requires s.Is(j + 1, DOT) && s.Is(j + 2, IDENT)
    ensures ParseLoop(s, left, j, prec, depth) == ParseLoop(s, Member(left, s.At(j + 2).lit), j + 2, prec, depth)
  {
    PostfixTokens();
    hide Prec, NoOperand, ParseExpr, ParseLoop, ParseCall, ParseArgs;
    assert ParseInfix(s, left, j + 1, depth) == Success((Member(left, s.At(j + 2).lit), j + 2));
    hide ParseInfix;
    LoopStep(s, left, j, prec, depth, Member(left, s.At(j + 2).lit), j + 2);
  }

  lemma IdxStep(s: Source, left: Expr, j: nat, prec: nat, depth: nat, index: Expr, k: nat)
    requires depth <= MAX_DEPTH && j < |s.toks| && prec <= PREFIX
    requires s.Is(j + 1, LBRACKET) && ParseExpr(s, j + 2, LOWEST, depth) == Success((index, k)) && s.Is(k + 1, RBRACKET)
    ensures ParseLoop(s, left, j, prec, depth) == ParseLoop(s, Index(left, index), k + 1, prec, depth)
  {
    PostfixTokens();
    hide Prec, NoOperand, ParseExpr, ParseLoop, ParseCall, ParseArgs;
    assert ParseInfix(s, left, j + 1, depth) == Success((Index(left, index), k + 1));
    hide ParseInfix;
    LoopStep(s, left, j, prec, depth, Index(left, index), k + 1);
  }

  lemma AppStep(s: Source, left: Expr, j: nat, prec: nat, depth: nat, args: seq<Expr>, kwargs: seq<Kwarg>, k: nat)
    requires depth <= MAX_DEPTH && j < |s.toks| && prec <= PREFIX
    requires s.Is(j + 1, LPAREN)
    requires if s.Is(j + 2, RPAREN) then args == [] && kwargs == [] && k == j + 2
             else ParseArgs(s, j + 1, [], [], depth) == Success(((args, kwargs), k))
    ensures ParseLoop(s, left, j, prec, depth) == ParseLoop(s, Call(left, args, kwargs), k, prec, depth)
  {
    PostfixTokens();
    hide Prec, NoOperand, ParseExpr, ParseLoop, ParseArgs;
    assert ParseCall(s, left, j + 1, depth) == Success((Call(left, args, kwargs), k));
    assert ParseInfix(s, left, j + 1, depth) == Success((Call(left, args, kwargs), k));
    hide ParseInfix, ParseCall;
    LoopStep(s, left, j, prec, depth, Call(left, args, kwargs), k);
  }

  // The definitions at each kind of operator.

  lemma BinUnfold(op: TokenType, l: Cst, r: Cst)
    ensures var c := Bin(op, l, r);
      && (Stratified(c) <==>
        IsBinary(op) && Stratified(l) && Stratified(r) && Tier(l) >= Prec(op) && Tier(r) > Prec(op))
      && Height(c) == Max(Height(l), 1 + Height(r)) && Len(c) == Len(l) + 1 + Len(r) && Tier(c) == Prec(op)
  {
    hide Prec;
  }

  lemma BinSpelling(s: Source, i: nat, op: TokenType, l: Cst, r: Cst)
    ensures var c := Bin(op, l, r);
      (Matches(s, i, c) <==> Matches(s, i, l) && s.Is(i + Len(l), op) && Matches(s, i + Len(l) + 1, r))
  {
    hide Prec;
  }

  lemma BinMeans(s: Source, op: TokenType, l: Cst, r: Cst)
    ensures var c := Bin(op, l, r); (Legible(s, c) <==> Legible(s, l) && Legible(s, r))
    ensures var c := Bin(op, l, r); Legible(s, c) ==> Sem(s, c) == Infix(op, Sem(s, l), Sem(s, r))
  {
    hide Literal;
  }

  lemma DotUnfold(h: Cst, name: string)
    ensures var c := Dot(h, name);
      && (Stratified(c) <==> Stratified(h) && Tier(h) == CALL)
      && Height(c) == Height(h) && Len(c) == Len(h) + 2 && Tier(c) == CALL
  {
    hide Prec;
  }

  lemma DotSpelling(s: Source, i: nat, h: Cst, name: string)
    ensures var c := Dot(h, name); var p := i + Len(h);
      (Matches(s, i, c) <==> Matches(s, i, h) && s.Is(p, DOT) && s.Is(p + 1, IDENT) && s.At(p + 1).lit == name)
  {
    hide Prec;
  }

  lemma DotMeans(s: Source, h: Cst, name: string)
    ensures var c := Dot(h, name); (Legible(s, c) <==> Legible(s, h))
    ensures var c := Dot(h, name); Legible(s, c) ==> Sem(s, c) == Member(Sem(s, h), name)
  {
    hide Literal;
  }

  lemma IdxUnfold(h: Cst, x: Cst)
    ensures var c := Idx(h, x);
      && (Stratified(c) <==> Stratified(h) && Tier(h) == CALL && Stratified(x))
      && Height(c) == Max(Height(h), 1 + Height(x)) && Len(c) == Len(h) + Len(x) + 2 && Tier(c) == CALL
  {
    hide Prec;
  }

  lemma IdxSpelling(s: Source, i: nat, h: Cst, x: Cst)
    ensures var c := Idx(h, x); var p := i + Len(h);
      (Matches(s, i, c) <==>
        Matches(s, i, h) && s.Is(p, LBRACKET) && Matches(s, p + 1, x) && s.Is(p + 1 + Len(x), RBRACKET))
  {
    hide Prec;
  }

  lemma IdxMeans(s: Source, h: Cst, x: Cst)
    ensures var c := Idx(h, x); (Legible(s, c) <==> Legible(s, h) && Legible(s, x))
    ensures var c := Idx(h, x); Legible(s, c) ==> Sem(s, c) == Index(Sem(s, h), Sem(s, x))
  {
    hide Literal;
  }

  lemma AppUnfold(h: Cst, args: seq<CArg>, trailing: bool)
    ensures var c := App(h, args, trailing);
      && (Stratified(c) <==>
            && Stratified(h) && Tier(h) == CALL && Ordered(args) && (trailing ==> args != [])
            && (forall a | a in args :: Stratified(a.value)))
      && Height(c) == Max(Height(h), 1 + ArgsHeight(args))
      && Len(c) == Len(h) + 2 + ArgsLen(args) + (if trailing then 1 else 0) && Tier(c) == CALL
  {
    hide Prec;
  }

  lemma AppSpelling(s: Source, i: nat, h: Cst, args: seq<CArg>, trailing: bool)
    ensures var c := App(h, args, trailing); var p := i + Len(h);
      (Matches(s, i, c) <==>
            && Matches(s, i, h) && s.Is(p, LPAREN) && MatchesArgs(s, p + 1, args)
            && var q := p + 1 + ArgsLen(args); if trailing then s.Is(q, COMMA) && s.Is(q + 1, RPAREN)
              else s.Is(q, RPAREN))
  {
    hide Prec, ArgsLen;
  }

  lemma AppMeans(s: Source, h: Cst, args: seq<CArg>, trailing: bool)
    ensures var c := App(h, args, trailing); (Legible(s, c) <==> Legible(s, h) && LegibleArgs(s, args))
    ensures var c := App(h, args, trailing); Legible(s, c) ==>
      Sem(s, c) == Call(Sem(s, h), Positional(s, args), Keyword(s, args))
  {
    hide Literal;
  }

  // What a derivation gives for its parts.

  lemma FitsLowest(c: Cst)
    requires Stratified(c)
    ensures Fits(c, LOWEST)
  {
  }

  lemma BinParts(s: Source, i: nat, prec: nat, depth: nat, c: Cst)
    requires c.Bin? && Derives(s, i, prec, depth, c) && Maximal(s, i, Tier(c), c)
    ensures Derives(s, i, prec, depth, c.left) && Maximal(s, i, Tier(c.left), c.left)
    ensures var j := i + Len(c.left);
      s.Is(j, c.op) && Derives(s, j + 1, Prec(c.op), depth + 1, c.right) && Maximal(s, j + 1, Prec(c.op), c.right)
    ensures IsBinary(c.op) && prec < Prec(c.op) && Len(c) == Len(c.left) + 1 + Len(c.right)
    ensures Sem(s, c) == Infix(c.op, Sem(s, c.left), Sem(s, c.right))
  {
    hide Stratified, Matches, Legible, Sem, Height, Len, Prec, Tier;
    BinUnfold(c.op, c.left, c.right);
    BinSpelling(s, i, c.op, c.left, c.right);
    BinMeans(s, c.op, c.left, c.right);
  }

  lemma DotParts(s: Source, i: nat, prec: nat, depth: nat, c: Cst)
    requires c.Dot? && prec <= PREFIX && Derives(s, i, prec, depth, c)
    ensures Derives(s, i, prec, depth, c.head) && Maximal(s, i, Tier(c.head), c.head)
    ensures var j := i + Len(c.head); s.Is(j, DOT) && s.Is(j + 1, IDENT) && s.At(j + 1).lit == c.name
    ensures Len(c) == Len(c.head) + 2 && Sem(s, c) == Member(Sem(s, c.head), c.name)
  {
    hide Stratified, Matches, Legible, Sem, Height, Len, Prec, Tier;
    DotUnfold(c.head, c.name);
    DotSpelling(s, i, c.head, c.name);
    DotMeans(s, c.head, c.name);
  }

  lemma UnParts(s: Source, i: nat, prec: nat, depth: nat, c: Cst)
    requires c.Un? && Derives(s, i, prec, depth, c) && Maximal(s, i, Tier(c), c)
    ensures c.op in {MINUS, BANG} && s.Is(i, c.op)
    ensures Derives(s, i + 1, PREFIX, depth + 1, c.right) && Maximal(s, i + 1, PREFIX, c.right)
    ensures Len(c) == Len(c.right) + 1 && Sem(s, c) == Prefix(c.op, Sem(s, c.right))
  {
    hide Literal, Prec;
  }

  lemma IdxParts(s: Source, i: nat, prec: nat, depth: nat, c: Cst)
    requires c.Idx? && prec <= PREFIX && Derives(s, i, prec, depth, c)
    ensures Derives(s, i, prec, depth, c.head) && Maximal(s, i, Tier(c.head), c.head)
    ensures var j := i + Len(c.head);
      && s.Is(j, LBRACKET) && Derives(s, j + 1, LOWEST, depth + 1, c.index)
      && Maximal(s, j + 1, LOWEST, c.index) && s.Is(j + 1 + Len(c.index), RBRACKET)
    ensures Len(c) == Len(c.head) + Len(c.index) + 2 && Sem(s, c) == Index(Sem(s, c.head), Sem(s, c.index))
  {
    hide Stratified, Matches, Legible, Sem, Height, Len, Prec, Tier;
    ClosingTokens();
    IdxUnfold(c.head, c.index);
    IdxSpelling(s, i, c.head, c.index);
    IdxMeans(s, c.head, c.index);
    FitsLowest(c.index);
  }

  /** args, read by ParseArgs after token i at this depth, give what they spell. */
  predicate DerivesArgs(s: Source, i: nat, depth: nat, args: seq<CArg>, trailing: bool) {
    && Ordered(args) && (forall a | a in args :: Stratified(a.value)) && LegibleArgs(s, args)
    && ArgsHeight(args) + depth <= MAX_DEPTH && MatchesArgs(s, i + 1, args)
    && var q := i + 1 + ArgsLen(args); if trailing then s.Is(q, COMMA) && s.Is(q + 1, RPAREN) else s.Is(q, RPAREN)
  }

  lemma AppParts(s: Source, i: nat, prec: nat, depth: nat, c: Cst)
    requires c.App? && prec <= PREFIX && Derives(s, i, prec, depth, c)
    ensures Derives(s, i, prec, depth, c.head) && Maximal(s, i, Tier(c.head), c.head)
    ensures var j := i + Len(c.head);
      s.Is(j, LPAREN) && DerivesArgs(s, j, depth + 1, c.args, c.trailing) && (c.trailing ==> c.args != [])
    ensures LegibleArgs(s, c.args)
    ensures Len(c) == Len(c.head) + 2 + ArgsLen(c.args) + if c.trailing then 1 else 0
    ensures Sem(s, c) == Call(Sem(s, c.head), Positional(s, c.args), Keyword(s, c.args))
  {
    hide MatchesArgs, ArgsLen, ArgsHeight, Positional, Keyword, Ordered, LegibleArgs;
    hide Stratified, Matches, Legible, Sem, Height, Len, Prec, Tier;
    AppUnfold(c.head, c.args, c.trailing);
    AppSpelling(s, i, c.head, c.args, c.trailing);
    AppMeans(s, c.head, c.args, c.trailing);
  }

  /** An empty argument list, before its `)`. */
  lemma EmptyArgs(s: Source, i: nat, depth: nat, trailing: bool)
    ensures depth <= MAX_DEPTH && s.Is(i + 1, RPAREN) && !trailing ==> DerivesArgs(s, i, depth, [], trailing)
    ensures DerivesArgs(s, i, depth, [], trailing) && !trailing ==> s.Is(i + 1, RPAREN)
    ensures LegibleArgs(s, []) && Positional(s, []) == [] && Keyword(s, []) == [] && ArgsLen([]) == 0
  {
  }

  /** The parser reads exactly the tokens of c and then goes on as the loop that has c on its left. */
  predicate Reached(s: Source, i: nat, prec: nat, depth: nat, c: Cst)
    requires prec <= PREFIX && Derives(s, i, prec, depth, c)
  {
    i + Len(c) <= |s.toks| &&
    ParseExpr(s, i, prec, depth) == ParseLoop(s, Sem(s, c), i + Len(c) - 1, prec, depth + 1)
  }

  lemma {:induction false} Reach(s: Source, i: nat, prec: nat, depth: nat, c: Cst)
    requires prec <= PREFIX && Derives(s, i, prec, depth, c) && Maximal(s, i, Tier(c), c)
    ensures Reached(s, i, prec, depth, c)
    decreases c, 1
  {
    hide Reached, Derives, Maximal;
    match c
    case Leaf(_, _) => ReachLeaf(s, i, prec, depth, c);
    case Paren(_) => ReachParen(s, i, prec, depth, c);
    case Un(_, _) => ReachUn(s, i, prec, depth, c);
    case Bin(_, _, _) => ReachBin(s, i, prec, depth, c);
    case Dot(_, _) => ReachDot(s, i, prec, depth, c);
    case Idx(_, _) => ReachIdx(s, i, prec, depth, c);
    case App(_, _, _) => ReachApp(s, i, prec, depth, c);
  }

  lemma ReachLeaf(s: Source, i: nat, prec: nat, depth: nat, c: Cst)
    requires c.Leaf? && prec <= PREFIX && Derives(s, i, prec, depth, c)
    ensures Reached(s, i, prec, depth, c)
  {
    hide ParseExpr, ParseLoop, Literal;
    LeafStep(s, i, prec, depth);
  }

  lemma {:induction false} ReachParen(s: Source, i: nat, prec: nat, depth: nat, c: Cst)
    requires c.Paren? && prec <= PREFIX && Derives(s, i, prec, depth, c)
    ensures Reached(s, i, prec, depth, c)
    decreases c, 0
  {
    hide ParseExpr, ParseLoop, Literal;
    FitsLowest(c.inner);
    Complete(s, i + 1, LOWEST, depth + 1, c.inner);
    ParenStep(s, i, prec, depth, Sem(s, c.inner), i + Len(c.inner));
  }

  lemma {:induction false} ReachUn(s: Source, i: nat, prec: nat, depth: nat, c: Cst)
    requires c.Un? && prec <= PREFIX && Derives(s, i, prec, depth, c) && Maximal(s, i, Tier(c), c)
    ensures Reached(s, i, prec, depth, c)
    decreases c, 0
  {
    hide ParseExpr, ParseLoop, Stratified, Matches, Legible, Height, Sem, Len, Prec, NoOperand, Maximal;
    UnParts(s, i, prec, depth, c);
    FirstToken(s, i + 1, c.right);
    Complete(s, i + 1, PREFIX, depth + 1, c.right);
    UnStep(s, i, prec, depth, Sem(s, c.right), i + Len(c.right));
  }

  lemma {:induction false} ReachBin(s: Source, i: nat, prec: nat, depth: nat, c: Cst)
    requires c.Bin? && prec <= PREFIX && Derives(s, i, prec, depth, c) && Maximal(s, i, Tier(c), c)
    ensures Reached(s, i, prec, depth, c)
    decreases c, 0
  {
    hide ParseExpr, ParseLoop, Stratified, Matches, Legible, Height, Sem, Len, NoOperand, Prec, Maximal;
    BinParts(s, i, prec, depth, c);
    var j := i + Len(c.left) - 1;
    Reach(s, i, prec, depth, c.left);
    FirstToken(s, j + 2, c.right);
    Complete(s, j + 2, Prec(c.op), depth + 1, c.right);
    BinStep(s, Sem(s, c.left), j, prec, depth + 1, Sem(s, c.right), j + 1 + Len(c.right));
  }

  lemma {:induction false} ReachDot(s: Source, i: nat, prec: nat, depth: nat, c: Cst)
    requires c.Dot? && prec <= PREFIX && Derives(s, i, prec, depth, c)
    ensures Reached(s, i, prec, depth, c)
    decreases c, 0
  {
    hide ParseExpr, ParseLoop, Stratified, Matches, Legible, Height, Sem, Len, Prec, Maximal;
    DotParts(s, i, prec, depth, c);
    Reach(s, i, prec, depth, c.head);
    DotStep(s, Sem(s, c.head), i + Len(c.head) - 1, prec, depth + 1);
  }

  lemma {:induction false} ReachIdx(s: Source, i: nat, prec: nat, depth: nat, c: Cst)
    requires c.Idx? && prec <= PREFIX && Derives(s, i, prec, depth, c)
    ensures Reached(s, i, prec, depth, c)
    decreases c, 0
  {
    hide ParseExpr, ParseLoop, Stratified, Matches, Legible, Height, Sem, Len, Prec, Maximal;
    IdxParts(s, i, prec, depth, c);
    var j := i + Len(c.head) - 1;
    Reach(s, i, prec, depth, c.head);
    Complete(s, j + 2, LOWEST, depth + 1, c.index);
    IdxStep(s, Sem(s, c.head), j, prec, depth + 1, Sem(s, c.index), j + 1 + Len(c.index));
  }

  lemma {:induction false} ReachApp(s: Source, i: nat, prec: nat, depth: nat, c: Cst)
    requires c.App? && prec <= PREFIX && Derives(s, i, prec, depth, c)
    ensures Reached(s, i, prec, depth, c)
    decreases c, 0
  {
    hide Stratified, Matches, Legible, Height, Sem, Len, ParseExpr, ParseLoop, ParseArgs, Prec, Maximal;
    hide ArgAt, ArgLen, ArgsLen, MatchesArgs, ArgsHeight, Ordered, Positional, Keyword, DerivesArgs;
    AppParts(s, i, prec, depth, c);
    var j := i + Len(c.head) - 1;
    Reach(s, i, prec, depth, c.head);
    var pos, keys := Positional(s, c.args), Keyword(s, c.args);
    Regrouped([], pos, []);
    Regrouped([], keys, []);
    if c.args == [] {
      EmptyArgs(s, j + 1, depth + 1, c.trailing);
    } else {
      ArgParts(s, j + 1, depth + 1, c.args, c.trailing);
      FirstArg(s, j + 2, depth + 1, c.args[0]);
      CompleteArgs(s, j + 1, c.args, c.trailing, [], [], depth + 1);
    }
    AppStep(s, Sem(s, c.head), j, prec, depth + 1, pos, keys, i + Len(c) - 1);
  }

  lemma FirstArg(s: Source, i: nat, depth: nat, a: CArg)
    requires ArgAt(s, i, depth, a)
    ensures !s.Is(i, RPAREN)
  {
    hide Stratified, Matches, Legible, Height;
    if a.key.None? {
      FirstToken(s, i, a.value);
    }
  }

  /**
   The central half of the correspondence: a maximal derivation within the nesting limit is what the parser returns.
   */
  lemma {:induction false} Complete(s: Source, i: nat, prec: nat, depth: nat, c: Cst)
    requires prec <= PREFIX && Derives(s, i, prec, depth, c) && Maximal(s, i, prec, c)
    ensures i + Len(c) <= |s.toks|
    ensures ParseExpr(s, i, prec, depth) == Success((Sem(s, c), i + Len(c) - 1))
    decreases c, 2
  {
    hide Stratified, Matches, Legible, Height, Sem, Len, ParseExpr;
    Reach(s, i, prec, depth, c);
  }

  /** Where the value of the argument at token i starts. */
  function ValueAt(i: nat, a: CArg): nat {
    if a.key.Some? then i + 2 else i
  }

  /** a is the argument at token i. */
  predicate ArgAt(s: Source, i: nat, depth: nat, a: CArg) {
    && (a.key.Some? ==> s.Is(i, IDENT) && s.At(i).lit == a.key.value && s.Is(i + 1, ASSIGN))
    && Derives(s, ValueAt(i, a), LOWEST, depth, a.value)
  }

  lemma ArgParts(s: Source, i: nat, depth: nat, args: seq<CArg>, trailing: bool)
    requires args != [] && DerivesArgs(s, i, depth, args, trailing)
    ensures ArgAt(s, i + 1, depth, args[0])
    ensures s.Is(i + 1 + ArgLen(args[0]), if trailing || |args| > 1 then COMMA else RPAREN)
    ensures |args| == 1 && trailing ==> s.Is(i + 2 + ArgLen(args[0]), RPAREN)
    ensures |args| > 1 ==> DerivesArgs(s, i + 1 + ArgLen(args[0]), depth, args[1..], trailing)
  {
    hide Stratified, Matches, Legible, Height, Len;
    assert args[0] in args;
    assert MatchesArg(s, i + 1, args[0]);
    assert ArgsHeight(args) >= Height(args[0].value) && ArgsHeight(args) >= ArgsHeight(args[1..]);
    FitsLowest(args[0].value);
  }

  lemma {:induction false} CompleteArg(s: Source, i: nat, depth: nat, a: CArg)
    requires depth <= MAX_DEPTH && ArgAt(s, i, depth, a) && (s.Is(i + ArgLen(a), COMMA) || s.Is(i + ArgLen(a), RPAREN))
    ensures i + ArgLen(a) <= |s.toks|
    ensures ParseExpr(s, ValueAt(i, a), LOWEST, depth) == Success((Sem(s, a.value), i + ArgLen(a) - 1))
    ensures a.key.Some? == (s.Is(i, IDENT) && s.Is(i + 1, ASSIGN))
    decreases a, 0
  {
    hide Stratified, Matches, Legible, Height, Len, Sem, ParseExpr;
    Complete(s, ValueAt(i, a), LOWEST, depth, a.value);
    if a.key.None? {
      NoKey(s, i, a.value);
    }
  }

  /** One step of the argument loop. */
  lemma ArgStep(s: Source, i: nat, pos: seq<Expr>, keys: seq<Kwarg>, depth: nat, value: Expr, j: nat)
    requires depth <= MAX_DEPTH && i < |s.toks|
    requires var named := s.Is(i + 1, IDENT) && s.Is(i + 2, ASSIGN);
      (named || keys == []) && ParseExpr(s, if named then i + 3 else i + 1, LOWEST, depth) == Success((value, j))
    ensures i <= j < |s.toks|
    ensures
      var named := s.Is(i + 1, IDENT) && s.Is(i + 2, ASSIGN);
      var (pos', keys') := Extended(pos, keys, if named then Some(s.At(i + 1).lit) else None, value);
      && (s.Is(j + 1, COMMA) && !s.Is(j + 2, RPAREN) ==>
        ParseArgs(s, i, pos, keys, depth) == ParseArgs(s, j + 1, pos', keys', depth))
      && (s.Is(j + 1, COMMA) && s.Is(j + 2, RPAREN) ==>
        ParseArgs(s, i, pos, keys, depth) == Success(((pos', keys'), j + 2)))
      && (s.Is(j + 1, RPAREN) ==> ParseArgs(s, i, pos, keys, depth) == Success(((pos', keys'), j + 1)))
  {
    hide ParseExpr;
  }

  /** pos and keys extended by one argument value. */
  function Extended(pos: seq<Expr>, keys: seq<Kwarg>, key: Option<string>, value: Expr): (seq<Expr>, seq<Kwarg>) {
    if key.Some? then (pos, keys + [Kwarg(key.value, value)]) else (pos + [value], keys)
  }

  lemma LengthOf(args: seq<CArg>)
    requires args != []
    ensures ArgsLen(args) == ArgLen(args[0]) + if |args| == 1 then 0 else 1 + ArgsLen(args[1..])
  {
    hide ArgLen;
  }

  lemma KeyedRest(s: Source, i: nat, depth: nat, args: seq<CArg>, trailing: bool)
    requires args != [] && DerivesArgs(s, i, depth, args, trailing)
    ensures LegibleArgs(s, args) && (args[0].key.Some? ==> forall a | a in args[1..] :: a.key.Some?)
  {
    hide Stratified, Legible, MatchesArgs, ArgsHeight;
    forall a | a in args[1..] && args[0].key.Some? ensures a.key.Some? {
      var j :| 0 <= j < |args[1..]| && args[1..][j] == a;
      assert args[j + 1] == a;
    }
  }

  lemma ExtendedKeys(pos: seq<Expr>, keys: seq<Kwarg>, key: Option<string>, value: Expr)
    ensures if key.Some? then Extended(pos, keys, key, value).1 != [] else Extended(pos, keys, key, value).1 == keys
  {
  }

  lemma Regroup(s: Source, pos: seq<Expr>, keys: seq<Kwarg>, args: seq<CArg>)
    requires args != [] && LegibleArgs(s, args)
    ensures var (pos', keys') := Extended(pos, keys, args[0].key, Sem(s, args[0].value));
      && pos + Positional(s, args) == pos' + Positional(s, args[1..])
      && keys + Keyword(s, args) == keys' + Keyword(s, args[1..])
      && (|args| == 1 ==> pos + Positional(s, args) == pos' && keys + Keyword(s, args) == keys')
  {
    hide Sem, Legible;
    var a := args[0];
    var p, k := Positional(s, args[1..]), Keyword(s, args[1..]);
    assert |args| == 1 ==> p == [] && k == [];
    Regrouped(pos, if a.key.None? then [Sem(s, a.value)] else [], p);
    Regrouped(keys, if a.key.Some? then [Kwarg(a.key.value, Sem(s, a.value))] else [], k);
  }

  lemma Regrouped<T>(a: seq<T>, b: seq<T>, c: seq<T>)
    ensures a + (b + c) == (a + b) + c && a + [] == a && (a + b) + [] == a + b && [] + b == b
  {
  }

  lemma {:induction false} CompleteArgs(s: Source, i: nat, args: seq<CArg>, trailing: bool, pos: seq<Expr>,
      keys: seq<Kwarg>, depth: nat)
    requires depth <= MAX_DEPTH && i < |s.toks| && args != []
    requires DerivesArgs(s, i, depth, args, trailing) && (keys != [] ==> forall a | a in args :: a.key.Some?)
    ensures ParseArgs(s, i, pos, keys, depth)
         == Success(((pos + Positional(s, args), keys + Keyword(s, args)), i + 1 + ArgsLen(args) + if trailing then 1
           else 0))
    decreases args, 0
  {
    hide Stratified, Matches, Legible, Height, Sem, Len, ParseExpr, ParseArgs, MatchesArgs, ArgsHeight, ArgLen,
      Positional, Keyword, Extended;
    hide DerivesArgs, ArgsLen, Ordered;
    var a := args[0];
    assert a in args;
    KeyedRest(s, i, depth, args, trailing);
    ArgParts(s, i, depth, args, trailing);
    CompleteArg(s, i + 1, depth, a);
    LengthOf(args);
    var next := i + 1 + ArgLen(a);
    var (pos', keys') := Extended(pos, keys, a.key, Sem(s, a.value));
    Regroup(s, pos, keys, args);
    ExtendedKeys(pos, keys, a.key, Sem(s, a.value));
    ArgStep(s, i, pos, keys, depth, Sem(s, a.value), next - 1);
    if |args| > 1 {
      ArgParts(s, next, depth, args[1..], trailing);
      FirstArg(s, next + 1, depth, args[1]);
      CompleteArgs(s, next, args[1..], trailing, pos', keys', depth);
    }
  }

  // ---------- Soundness: what is read is a derivation ----------

  /** c, already read up to token j, denotes e and no operator tighter than its own can follow. */
  predicate Built(s: Source, i: nat, prec: nat, depth: nat, c: Cst, e: Expr, j: nat) {
    Derives(s, i, prec, depth, c) && Maximal(s, i, Tier(c), c) && Sem(s, c) == e && i + Len(c) == j + 1
  }

  /** c is a whole result of ParseExpr. */
  predicate Read(s: Source, i: nat, prec: nat, depth: nat, c: Cst, e: Expr, j: nat) {
    Derives(s, i, prec, depth, c) && Maximal(s, i, prec, c) && Sem(s, c) == e && i + Len(c) == j + 1
  }

  lemma MakeBin(s: Source, i: nat, prec: nat, depth: nat, l: Cst, r: Cst)
    requires Derives(s, i, prec, depth, l) && Maximal(s, i, Tier(l), l)
    requires var j := i + Len(l); var q := Prec(s.At(j).typ);
      && IsBinary(s.At(j).typ) && prec < q && Derives(s, j + 1, q, depth + 1, r) && Maximal(s, j + 1, q, r)
    ensures var op := s.At(i + Len(l)).typ; var c := Bin(op, l, r);
      && Built(s, i, prec, depth, c, Infix(op, Sem(s, l), Sem(s, r)), i + Len(l) + Len(r))
  {
    hide Stratified, Matches, Legible, Sem, Height, Len, Prec, Tier;
    BinUnfold(s.At(i + Len(l)).typ, l, r);
    BinSpelling(s, i, s.At(i + Len(l)).typ, l, r);
    BinMeans(s, s.At(i + Len(l)).typ, l, r);
  }

  lemma MakeDot(s: Source, i: nat, prec: nat, depth: nat, h: Cst)
    requires prec <= PREFIX && Derives(s, i, prec, depth, h) && Tier(h) == CALL
    requires s.Is(i + Len(h), DOT) && s.Is(i + Len(h) + 1, IDENT)
    ensures var name := s.At(i + Len(h) + 1).lit;
      Built(s, i, prec, depth, Dot(h, name), Member(Sem(s, h), name), i + Len(h) + 1)
  {
    hide Stratified, Matches, Legible, Sem, Height, Len, Prec, Tier;
    DotUnfold(h, s.At(i + Len(h) + 1).lit);
    DotSpelling(s, i, h, s.At(i + Len(h) + 1).lit);
    DotMeans(s, h, s.At(i + Len(h) + 1).lit);
  }

  lemma MakeIdx(s: Source, i: nat, prec: nat, depth: nat, h: Cst, x: Cst)
    requires prec <= PREFIX && Derives(s, i, prec, depth, h) && Tier(h) == CALL
    requires var j := i + Len(h);
      s.Is(j, LBRACKET) && Derives(s, j + 1, LOWEST, depth + 1, x) && s.Is(j + 1 + Len(x), RBRACKET)
    ensures Built(s, i, prec, depth, Idx(h, x), Index(Sem(s, h), Sem(s, x)), i + Len(h) + Len(x) + 1)
  {
    hide Stratified, Matches, Legible, Sem, Height, Len, Prec, Tier;
    IdxUnfold(h, x);
    IdxSpelling(s, i, h, x);
    IdxMeans(s, h, x);
  }

  lemma MakeApp(s: Source, i: nat, prec: nat, depth: nat, h: Cst, args: seq<CArg>, trailing: bool)
    requires prec <= PREFIX && Derives(s, i, prec, depth, h) && Tier(h) == CALL
    requires depth < MAX_DEPTH && s.Is(i + Len(h), LPAREN)
    requires DerivesArgs(s, i + Len(h), depth + 1, args, trailing) && (trailing ==> args != [])
    ensures Built(s, i, prec, depth, App(h, args, trailing), Call(Sem(s, h), Positional(s, args), Keyword(s, args)),
                  i + Len(h) + 1 + ArgsLen(args) + if trailing then 1 else 0)
  {
    hide MatchesArgs, ArgsLen, ArgsHeight, Positional, Keyword, Ordered, LegibleArgs;
    hide Stratified, Matches, Legible, Sem, Height, Len, Prec, Tier;
    AppUnfold(h, args, trailing);
    AppSpelling(s, i, h, args, trailing);
    AppMeans(s, h, args, trailing);
  }

  /** The correspondence's other half: a tree read without error is a derivation, cut as late as possible. */
  lemma {:induction false} Sound(s: Source, i: nat, prec: nat, depth: nat) returns (c: Cst)
    requires prec <= PREFIX && ParseExpr(s, i, prec, depth).Success?
    ensures var r := ParseExpr(s, i, prec, depth).value; Read(s, i, prec, depth, c, r.0, r.1)
    decreases MAX_DEPTH - depth, 2, 0
  {
    hide Read, Prec, Derives;
    c := SoundPrefix(s, i, prec, depth);
    var left := ParsePrefix(s, i, depth + 1).value;
    c := SoundLoop(s, i, prec, depth, c, left.0, left.1);
  }

  lemma MakeUn(s: Source, i: nat, prec: nat, depth: nat, x: Cst)
    requires prec <= PREFIX && s.At(i).typ in {MINUS, BANG}
    requires Derives(s, i + 1, PREFIX, depth + 1, x) && Maximal(s, i + 1, PREFIX, x)
    ensures var op := s.At(i).typ; Built(s, i, prec, depth, Un(op, x), Prefix(op, Sem(s, x)), i + Len(x))
  {
    hide Literal, Prec;
  }

  lemma MakeParen(s: Source, i: nat, prec: nat, depth: nat, x: Cst)
    requires prec <= PREFIX && s.Is(i, LPAREN) && Derives(s, i + 1, LOWEST, depth + 1, x)
      && s.Is(i + 1 + Len(x), RPAREN)
    ensures Built(s, i, prec, depth, Paren(x), Sem(s, x), i + 1 + Len(x))
  {
    hide Literal, Prec;
  }

  lemma MakeLeaf(s: Source, i: nat, prec: nat, depth: nat)
    requires prec <= PREFIX && depth < MAX_DEPTH && Literal(s, s.At(i).typ, s.At(i).lit).Some?
    ensures var t := s.At(i); Built(s, i, prec, depth, Leaf(t.typ, t.lit), Literal(s, t.typ, t.lit).value, i)
  {
    hide Prec;
  }

  lemma {:induction false} SoundPrefix(s: Source, i: nat, prec: nat, depth: nat) returns (c: Cst)
    requires prec <= PREFIX && depth < MAX_DEPTH && ParsePrefix(s, i, depth + 1).Success?
    ensures var r := ParsePrefix(s, i, depth + 1).value; Built(s, i, prec, depth, c, r.0, r.1)
    decreases MAX_DEPTH - depth, 1, 0
  {
    hide Stratified, Matches, Legible, Height, Sem, Len, ParseExpr, Literal, Built, NoOperand, Prec;
    var t := s.At(i);
    if t.typ in {MINUS, BANG} {
      var x := Sound(s, i + 1, PREFIX, depth + 1);
      MakeUn(s, i, prec, depth, x);
      c := Un(t.typ, x);
    } else if t.typ == LPAREN {
      var x := Sound(s, i + 1, LOWEST, depth + 1);
      MakeParen(s, i, prec, depth, x);
      c := Paren(x);
    } else {
      MakeLeaf(s, i, prec, depth);
      c := Leaf(t.typ, t.lit);
    }
  }

  lemma {:induction false} SoundLoop(s: Source, i: nat, prec: nat, depth: nat, left: Cst, e: Expr, j: nat)
    returns (c: Cst)
    requires prec <= PREFIX && depth < MAX_DEPTH && j < |s.toks| && Built(s, i, prec, depth, left, e, j)
    requires ParseLoop(s, e, j, prec, depth + 1).Success?
    ensures var r := ParseLoop(s, e, j, prec, depth + 1).value; Read(s, i, prec, depth, c, r.0, r.1)
    decreases MAX_DEPTH - depth, 1, |s.toks| - j
  {
    hide Stratified, Matches, Legible, Height, Sem, Len, ParseInfix, Prec, Derives;
    if prec >= Prec(s.At(j + 1).typ) {
      c := left;
    } else {
      var next := ParseInfix(s, e, j + 1, depth + 1).value;
      c := SoundInfix(s, i, prec, depth, left, e, j);
      c := SoundLoop(s, i, prec, depth, c, next.0, next.1);
    }
  }

  lemma OperatorKind(op: TokenType)
    requires Prec(op) > 0
    ensures if op in {DOT, LBRACKET, LPAREN} then Prec(op) == CALL else IsBinary(op)
  {
  }

  lemma {:induction false} SoundInfix(s: Source, i: nat, prec: nat, depth: nat, left: Cst, e: Expr, j: nat)
    returns (c: Cst)
    requires prec <= PREFIX && depth < MAX_DEPTH && j < |s.toks| && Built(s, i, prec, depth, left, e, j)
    requires prec < Prec(s.At(j + 1).typ) && ParseInfix(s, e, j + 1, depth + 1).Success?
    ensures var r := ParseInfix(s, e, j + 1, depth + 1).value; Built(s, i, prec, depth, c, r.0, r.1)
    decreases MAX_DEPTH - depth, 0, |s.toks|
  {
    hide Stratified, Matches, Legible, Height, Sem, Len, ParseExpr, ParseArgs, Prec, Tier, NoOperand, DerivesArgs;
    var op := s.At(j + 1).typ;
    OperatorKind(op);
    if op == DOT {
      MakeDot(s, i, prec, depth, left);
      c := Dot(left, s.At(j + 2).lit);
    } else if op == LBRACKET {
      var x := Sound(s, j + 2, LOWEST, depth + 1);
      MakeIdx(s, i, prec, depth, left, x);
      c := Idx(left, x);
    } else if op == LPAREN {
      c := SoundCall(s, i, prec, depth, left, e, j);
    } else {
      var x := Sound(s, j + 2, Prec(op), depth + 1);
      MakeBin(s, i, prec, depth, left, x);
      c := Bin(op, left, x);
    }
  }

  lemma CallRead(s: Source, e: Expr, i: nat, depth: nat)
    requires depth <= MAX_DEPTH && s.Is(i, LPAREN) && Prec(s.At(i).typ) > 0 && ParseInfix(s, e, i, depth).Success?
    ensures i < |s.toks|
    ensures s.Is(i + 1, RPAREN) ==> ParseInfix(s, e, i, depth).value == (Call(e, [], []), i + 1)
    ensures !s.Is(i + 1, RPAREN) ==>
      && ParseArgs(s, i, [], [], depth).Success?
      && var r := ParseArgs(s, i, [], [], depth).value; ParseInfix(s, e, i, depth).value == (Call(e, r.0.0, r.0.1), r.1)
  {
    hide ParseArgs, ParseExpr, Prec, NoOperand;
    assert ParseInfix(s, e, i, depth) == ParseCall(s, e, i, depth);
  }

  lemma {:induction false} SoundCall(s: Source, i: nat, prec: nat, depth: nat, left: Cst, e: Expr, j: nat)
    returns (c: Cst)
    requires prec <= PREFIX && depth < MAX_DEPTH && j < |s.toks| && Built(s, i, prec, depth, left, e, j)
    requires s.Is(j + 1, LPAREN) && Prec(s.At(j + 1).typ) > 0 && ParseInfix(s, e, j + 1, depth + 1).Success?
      && Tier(left) == CALL
    ensures var r := ParseInfix(s, e, j + 1, depth + 1).value; Built(s, i, prec, depth, c, r.0, r.1)
    decreases MAX_DEPTH - depth, 0, |s.toks|, 0
  {
    hide Stratified, Matches, Legible, Height, Sem, Len, ParseExpr, ParseArgs, ParseInfix, Prec, Tier;
    hide Derives, DerivesArgs, ArgsLen, Positional, Keyword, Maximal;
    CallRead(s, e, j + 1, depth + 1);
    var args, trailing := [], false;
    if s.Is(j + 2, RPAREN) {
      EmptyArgs(s, j + 1, depth + 1, false);
    } else {
      args, trailing := SoundArgs(s, j + 1, [], [], depth + 1);
    }
    MakeApp(s, i, prec, depth, left, args, trailing);
    c := App(left, args, trailing);
    Regrouped([], Positional(s, args), []);
    Regrouped([], Keyword(s, args), []);
  }

  // One more argument before the rest.

  lemma MatchesCons(s: Source, i: nat, a: CArg, rest: seq<CArg>)
    requires MatchesArg(s, i, a)
    requires rest != [] ==> s.Is(i + ArgLen(a), COMMA) && MatchesArgs(s, i + ArgLen(a) + 1, rest)
    ensures MatchesArgs(s, i, [a] + rest)
    ensures ArgsLen([a] + rest) == ArgLen(a) + if rest == [] then 0 else 1 + ArgsLen(rest)
  {
    hide Matches, Len;
    var all := [a] + rest;
    assert all[0] == a && all[1..] == rest;
  }

  lemma FormCons(s: Source, a: CArg, rest: seq<CArg>)
    requires Stratified(a.value) && Legible(s, a.value) && Ordered(rest)
    requires (forall b | b in rest :: Stratified(b.value)) && LegibleArgs(s, rest)
    requires a.key.Some? ==> forall b | b in rest :: b.key.Some?
    ensures var all := [a] + rest; Ordered(all) && (forall b | b in all :: Stratified(b.value)) && LegibleArgs(s, all)
  {
    hide Stratified, Legible;
    var all := [a] + rest;
    assert forall b | b in all :: b == a || b in rest;
    forall i, j | 0 <= i < j < |all| && all[i].key.Some? ensures all[j].key.Some? {
      assert all[j] == rest[j - 1] && rest[j - 1] in rest;
      assert i > 0 ==> all[i] == rest[i - 1];
    }
  }

  lemma HeightCons(a: CArg, rest: seq<CArg>)
    ensures ArgsHeight([a] + rest) == Max(Height(a.value), ArgsHeight(rest))
  {
    hide Height;
    assert ([a] + rest)[1..] == rest;
  }

  lemma MakeArgs(s: Source, i: nat, depth: nat, a: CArg, rest: seq<CArg>, trailing: bool)
    requires ArgAt(s, i + 1, depth, a) && depth <= MAX_DEPTH
    requires a.key.Some? ==> forall b | b in rest :: b.key.Some?
    requires var next := i + 1 + ArgLen(a);
      if rest == [] then if trailing then s.Is(next, COMMA) && s.Is(next + 1, RPAREN) else s.Is(next, RPAREN)
      else s.Is(next, COMMA) && DerivesArgs(s, next, depth, rest, trailing)
    ensures DerivesArgs(s, i, depth, [a] + rest, trailing) && LegibleArgs(s, [a] + rest)
    ensures ArgsLen([a] + rest) == ArgLen(a) + if rest == [] then 0 else 1 + ArgsLen(rest)
  {
    hide Stratified, Matches, Legible, Height, Len, ArgsHeight, ArgsLen, ArgLen, MatchesArgs, Ordered, LegibleArgs;
    NoArgs(s);
    assert MatchesArg(s, i + 1, a);
    FormCons(s, a, rest);
    HeightCons(a, rest);
    MatchesCons(s, i + 1, a, rest);
  }

  lemma NoArgs(s: Source)
    ensures Ordered([]) && LegibleArgs(s, []) && ArgsHeight([]) == 0
  {
  }

  /** What a step of the argument loop must have found. */
  lemma ArgRead(s: Source, i: nat, pos: seq<Expr>, keys: seq<Kwarg>, depth: nat)
    requires depth <= MAX_DEPTH && i < |s.toks| && ParseArgs(s, i, pos, keys, depth).Success?
    ensures
      var named := s.Is(i + 1, IDENT) && s.Is(i + 2, ASSIGN);
      var value := ParseExpr(s, if named then i + 3 else i + 1, LOWEST, depth);
      && (named || keys == []) && value.Success?
      && var j := value.value.1;
      && (s.Is(j + 1, COMMA) || s.Is(j + 1, RPAREN))
  {
    hide ParseExpr, Source.Is;
  }

  lemma {:induction false} SoundArgs(s: Source, i: nat, pos: seq<Expr>, keys: seq<Kwarg>, depth: nat)
    returns (args: seq<CArg>, trailing: bool)
    requires depth <= MAX_DEPTH && i < |s.toks| && ParseArgs(s, i, pos, keys, depth).Success?
    ensures DerivesArgs(s, i, depth, args, trailing) && LegibleArgs(s, args)
    ensures args != [] && (keys != [] ==> forall a | a in args :: a.key.Some?)
    ensures ParseArgs(s, i, pos, keys, depth).value
         == ((pos + Positional(s, args), keys + Keyword(s, args)), i + 1 + ArgsLen(args) + if trailing then 1 else 0)
    decreases MAX_DEPTH + 1 - depth, 0, |s.toks| - i
  {
    hide Stratified, Matches, Legible, Height, Sem, Len, ParseExpr, MatchesArgs, ParseArgs, Prec, ArgsHeight,
      Positional, Keyword, Ordered, Extended, ArgsLen, DerivesArgs, LegibleArgs;
    var named := s.Is(i + 1, IDENT) && s.Is(i + 2, ASSIGN);
    var at := if named then i + 3 else i + 1;
    ArgRead(s, i, pos, keys, depth);
    var x := Sound(s, at, LOWEST, depth);
    var e, j := ParseExpr(s, at, LOWEST, depth).value.0, ParseExpr(s, at, LOWEST, depth).value.1;
    ArgStep(s, i, pos, keys, depth, e, j);
    var a := CArg(if named then Some(s.At(i + 1).lit) else None, x);
    var (pos', keys') := Extended(pos, keys, a.key, e);
    ExtendedKeys(pos, keys, a.key, e);
    var rest := [];
    if s.Is(j + 1, COMMA) && !s.Is(j + 2, RPAREN) {
      rest, trailing := SoundArgs(s, j + 1, pos', keys', depth);
    } else {
      trailing := s.Is(j + 1, COMMA);
    }
    args := [a] + rest;
    assert args[0] == a && args[1..] == rest;
    MakeArgs(s, i, depth, a, rest, trailing);
    Regroup(s, pos, keys, args);
  }

  // ---------- The correspondence ----------

  /** A whole derivation: within depth, of operators tighter than prec, and as long as possible. */
  predicate Derivation(s: Source, i: nat, prec: nat, depth: nat, c: Cst) {
    Derives(s, i, prec, depth, c) && Maximal(s, i, prec, c)
  }

  /** The parser succeeds exactly where the grammar has a derivation, and returns the tree of that derivation. */
  lemma ParserIsGrammar(s: Source, i: nat, prec: nat, depth: nat)
    requires prec <= PREFIX
    ensures ParseExpr(s, i, prec, depth).Success? <==> exists c :: Derivation(s, i, prec, depth, c)
    ensures forall c | Derivation(s, i, prec, depth, c) ::
      ParseExpr(s, i, prec, depth) == Success((Sem(s, c), i + Len(c) - 1))
  {
    hide ParseExpr, Stratified, Matches, Height, Len, Maximal;
    if ParseExpr(s, i, prec, depth).Success? {
      var c := Sound(s, i, prec, depth);
      assert Derivation(s, i, prec, depth, c);
    }
    forall c | Derivation(s, i, prec, depth, c)
      ensures ParseExpr(s, i, prec, depth) == Success((Sem(s, c), i + Len(c) - 1))
    {
      Complete(s, i, prec, depth, c);
    }
  }
}
