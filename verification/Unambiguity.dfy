/**
 The expression grammar gives every text one derivation. Two derivations that start together share their
 left spine, so the shorter one is a head of the longer, and an operator that could still follow rules that out.
 */
module Unambiguity {
  import opened Wrappers
  import opened Tokens
  import opened Ast
  import opened Parsing
  import opened Grammar

  predicate Headed(c: Cst) {
    c.Bin? || Postfix(c)
  }

  function Head(c: Cst): (h: Cst)
    requires Headed(c)
    ensures h < c && Len(h) < Len(c)
  {
    if c.Bin? then c.left else c.head
  }

  /** c is spelled at i and no operator tighter than its own follows. */
  predicate Closed(s: Source, i: nat, c: Cst) {
    Spells(s, i, c) && Maximal(s, i, Tier(c), c)
  }

  /** c is d, or the head of d, or the head of that, and so on. */
  predicate OnSpine(c: Cst, d: Cst)
    decreases d
  {
    c == d || (Headed(d) && OnSpine(c, Head(d)))
  }

  /** The operator after the head of c has the precedence of c, and the head is at least as tight. */
  lemma HeadClosed(s: Source, i: nat, c: Cst)
    requires Headed(c) && Spells(s, i, c)
    ensures Closed(s, i, Head(c)) && Tier(Head(c)) >= Tier(c) && Prec(s.At(i + Len(Head(c))).typ) == Tier(c) > 0
    ensures Tier(c) != PREFIX
  {
    hide Matches, Stratified;
    if c.Bin? {
      BinHeadTiers(s, i, c);
    } else {
      PostfixHeadTiers(s, i, c);
    }
  }

  lemma BinHeadTiers(s: Source, i: nat, c: Cst)
    requires c.Bin? && Spells(s, i, c)
    ensures Spells(s, i, c.left) && Tier(c.left) >= Prec(c.op) > 0 && s.Is(i + Len(c.left), c.op)
  {
    hide Prec;
  }

  lemma PostfixHeadTiers(s: Source, i: nat, c: Cst)
    requires Postfix(c) && Spells(s, i, c)
    ensures Spells(s, i, c.head) && Tier(c.head) == CALL && Prec(s.At(i + Len(c.head)).typ) == CALL
  {
    hide Prec;
    PostfixTokens();
  }

  /** The derivation on d's spine whose head is c. */
  lemma {:induction false} Parent(s: Source, i: nat, c: Cst, d: Cst) returns (p: Cst)
    requires OnSpine(c, d) && c != d && Closed(s, i, d)
    ensures OnSpine(p, d) && Closed(s, i, p) && Headed(p) && Head(p) == c && Tier(p) >= Tier(d) && Len(p) <= Len(d)
    decreases d
  {
    hide Spells, Maximal, Tier, Prec;
    if c == Head(d) {
      p := d;
    } else {
      HeadClosed(s, i, d);
      p := Parent(s, i, c, Head(d));
    }
  }

  /** Derivations are unique: nothing at all is assumed about nesting or about the size of numbers. */
  lemma {:induction false} Unique(s: Source, i: nat, prec: nat, c: Cst, d: Cst)
    requires prec <= PREFIX && Spells(s, i, c) && Fits(c, prec) && Maximal(s, i, prec, c)
    requires Spells(s, i, d) && Fits(d, prec) && Maximal(s, i, prec, d)
    ensures c == d
    decreases Len(c) + Len(d), 3
  {
    hide Spells, Prec;
    if Len(c) <= Len(d) {
      UniqueOrdered(s, i, prec, c, d);
    } else {
      UniqueOrdered(s, i, prec, d, c);
    }
  }

  lemma {:induction false} UniqueOrdered(s: Source, i: nat, prec: nat, c: Cst, d: Cst)
    requires prec <= PREFIX && Spells(s, i, c) && Fits(c, prec) && Maximal(s, i, prec, c)
    requires Spells(s, i, d) && Fits(d, prec) && Maximal(s, i, prec, d)
    requires Len(c) <= Len(d)
    ensures c == d
    decreases Len(c) + Len(d), 2
  {
    hide Spells, Prec, OnSpine, Len;
    Spine(s, i, c, d);
    if c != d {
      var p := Parent(s, i, c, d);
      HeadClosed(s, i, p);
      HeadedTier(s, i, c, d);
      assert false;
    }
  }

  lemma HeadedTier(s: Source, i: nat, c: Cst, d: Cst)
    requires OnSpine(c, d) && c != d && Spells(s, i, d)
    ensures Tier(d) != PREFIX
  {
    hide Spells, Prec;
    HeadClosed(s, i, d);
  }

  /** The shorter of two derivations that start together is on the spine of the longer. */
  lemma {:induction false} Spine(s: Source, i: nat, c: Cst, d: Cst)
    requires Closed(s, i, c) && Closed(s, i, d) && Len(c) <= Len(d)
    ensures OnSpine(c, d)
    decreases Len(c) + Len(d), 1
  {
    hide Spells, Maximal, Prec, Tier;
    if Headed(c) {
      HeadClosed(s, i, c);
      Spine(s, i, Head(c), d);
      var p := Parent(s, i, Head(c), d);
      SameOperand(s, i, c, p);
    } else {
      AtomSpine(s, i, c, d);
    }
  }

  // ---------- Atoms ----------

  lemma {:induction false} AtomSpine(s: Source, i: nat, c: Cst, d: Cst)
    requires !Headed(c) && Closed(s, i, c) && Closed(s, i, d)
    ensures OnSpine(c, d)
    decreases Len(c) + Len(d), 0
  {
    hide Spells, Maximal, Prec, Tier;
    if Headed(d) {
      HeadClosed(s, i, d);
      AtomSpine(s, i, c, Head(d));
    } else {
      SameAtom(s, i, c, d);
    }
  }

  lemma AtomParts(s: Source, i: nat, c: Cst)
    requires !Headed(c) && Closed(s, i, c)
    ensures match c
      case Leaf(t, lit) => t != LPAREN && t !in {MINUS, BANG} && t == s.At(i).typ && lit == s.At(i).lit
      case Paren(x) => s.Is(i, LPAREN) && Spells(s, i + 1, x) && Fits(x, LOWEST) && Maximal(s, i + 1, LOWEST, x)
      case Un(op, x) => s.Is(i, op) && op in {MINUS, BANG} && Spells(s, i + 1, x) && Fits(x, PREFIX)
        && Maximal(s, i + 1, PREFIX, x)
      case _ => true
  {
    hide Prec;
    if c.Paren? {
      ParenParts(s, i, c);
    }
  }

  lemma ParenParts(s: Source, i: nat, c: Cst)
    requires c.Paren? && Closed(s, i, c)
    ensures s.Is(i, LPAREN) && Spells(s, i + 1, c.inner) && Fits(c.inner, LOWEST) && Maximal(s, i + 1, LOWEST, c.inner)
  {
    FitsLowest(c.inner);
  }

  lemma {:induction false} SameAtom(s: Source, i: nat, c: Cst, d: Cst)
    requires !Headed(c) && !Headed(d) && Closed(s, i, c) && Closed(s, i, d)
    ensures c == d
    decreases Len(c) + Len(d), 0, 0
  {
    hide Spells, Maximal, Prec, Fits, Closed;
    AtomParts(s, i, c);
    AtomParts(s, i, d);
    if c.Paren? {
      Unique(s, i + 1, LOWEST, c.inner, d.inner);
    } else if c.Un? {
      Unique(s, i + 1, PREFIX, c.right, d.right);
    }
  }

  // ---------- Operators ----------

  lemma BinOperand(s: Source, i: nat, c: Cst)
    requires c.Bin? && Closed(s, i, c)
    ensures s.Is(i + Len(c.left), c.op) && IsBinary(c.op)
    ensures var j := i + Len(c.left) + 1;
      Spells(s, j, c.right) && Fits(c.right, Prec(c.op)) && Maximal(s, j, Prec(c.op), c.right)
  {
    hide Prec;
  }

  lemma DotOperand(s: Source, i: nat, c: Cst)
    requires c.Dot? && Spells(s, i, c)
    ensures s.Is(i + Len(c.head), DOT) && c.name == s.At(i + Len(c.head) + 1).lit
  {
    hide Prec, Stratified;
  }

  lemma IdxOperand(s: Source, i: nat, c: Cst)
    requires c.Idx? && Spells(s, i, c)
    ensures s.Is(i + Len(c.head), LBRACKET)
    ensures var j := i + Len(c.head) + 1;
      Spells(s, j, c.index) && Fits(c.index, LOWEST) && Maximal(s, j, LOWEST, c.index)
  {
    FitsLowest(c.index);
  }

  /** args, with or without a trailing comma, are what stands between i and a `)`. */
  predicate ArgsSpelled(s: Source, i: nat, args: seq<CArg>, trailing: bool) {
    && (forall a | a in args :: Stratified(a.value)) && MatchesArgs(s, i, args) && (trailing ==> args != [])
    && var q := i + ArgsLen(args); if trailing then s.Is(q, COMMA) && s.Is(q + 1, RPAREN) else s.Is(q, RPAREN)
  }

  lemma AppOperand(s: Source, i: nat, c: Cst)
    requires c.App? && Spells(s, i, c)
    ensures s.Is(i + Len(c.head), LPAREN) && ArgsSpelled(s, i + Len(c.head) + 1, c.args, c.trailing)
    ensures ArgsLen(c.args) < Len(c)
  {
    hide Prec;
  }

  lemma {:induction false} SameOperand(s: Source, i: nat, c: Cst, d: Cst)
    requires Headed(c) && Headed(d) && Head(c) == Head(d) && Closed(s, i, c) && Closed(s, i, d)
    ensures c == d
    decreases Len(c) + Len(d), 0, 0
  {
    hide Spells, Maximal, Prec, Fits, ArgsSpelled;
    OperatorToken(s, i, c);
    OperatorToken(s, i, d);
    match c
    case Bin(_, _, _) =>
      BinOperand(s, i, c);
      BinOperand(s, i, d);
      Unique(s, i + Len(c.left) + 1, Prec(c.op), c.right, d.right);
    case Dot(_, _) =>
      DotOperand(s, i, c);
      DotOperand(s, i, d);
    case Idx(_, _) =>
      IdxOperand(s, i, c);
      IdxOperand(s, i, d);
      Unique(s, i + Len(c.head) + 1, LOWEST, c.index, d.index);
    case App(_, _, _) =>
      AppOperand(s, i, c);
      AppOperand(s, i, d);
      SameArgs(s, i + Len(c.head) + 1, c.args, c.trailing, d.args, d.trailing);
    case _ =>
  }

  lemma OperatorToken(s: Source, i: nat, c: Cst)
    requires Headed(c) && Closed(s, i, c)
    ensures var t := s.At(i + Len(Head(c))).typ;
      && (c.Bin? ==> t == c.op) && (c.Bin? <==> IsBinary(t))
      && (c.Dot? ==> t == DOT) && (c.Idx? ==> t == LBRACKET) && (c.App? ==> t == LPAREN)
  {
    hide Maximal, Prec, Matches, Stratified;
    PostfixTokens();
    match c
    case Bin(_, _, _) => BinOperand(s, i, c);
    case Dot(_, _) => DotOperand(s, i, c);
    case Idx(_, _) => IdxOperand(s, i, c);
    case App(_, _, _) => AppOperand(s, i, c);
    case _ =>
  }

  // ---------- Arguments ----------

  lemma ArgSpelled(s: Source, i: nat, args: seq<CArg>, trailing: bool)
    requires args != [] && ArgsSpelled(s, i, args, trailing)
    ensures var a := args[0]; var v := ValueAt(i, a); var next := i + ArgLen(a);
      && Spells(s, v, a.value) && Fits(a.value, LOWEST) && Maximal(s, v, LOWEST, a.value) && v + Len(a.value) == next
      && (a.key.Some? <==> s.Is(i, IDENT) && s.Is(i + 1, ASSIGN)) && (a.key.Some? ==> a.key.value == s.At(i).lit)
      && (if |args| > 1 then s.Is(next, COMMA) && !s.Is(next + 1, RPAREN)
        && ArgsSpelled(s, next + 1, args[1..], trailing)
          else if trailing then s.Is(next, COMMA) && s.Is(next + 1, RPAREN)
          else s.Is(next, RPAREN))
  {
    hide Stratified, Matches, Len;
    var a := args[0];
    assert a in args && MatchesArg(s, i, a);
    FitsLowest(a.value);
    if a.key.None? {
      NoKey(s, i, a.value);
    }
    if |args| > 1 {
      var next := i + ArgLen(a);
      assert MatchesArgs(s, next + 1, args[1..]);
      assert args[1] in args && args[1..][0] == args[1] && MatchesArg(s, next + 1, args[1]);
      if args[1].key.None? {
        FirstToken(s, next + 1, args[1].value);
      }
    }
  }

  lemma {:induction false} SameArgs(s: Source, i: nat, args: seq<CArg>, trailing: bool, args': seq<CArg>,
      trailing': bool)
    requires ArgsSpelled(s, i, args, trailing) && ArgsSpelled(s, i, args', trailing')
    ensures args == args' && trailing == trailing'
    decreases ArgsLen(args) + ArgsLen(args'), 4
  {
    hide Spells, Fits, Maximal, ArgsSpelled;
    if args != [] && args' != [] {
      ArgSpelled(s, i, args, trailing);
      ArgSpelled(s, i, args', trailing');
      var a, a' := args[0], args'[0];
      Unique(s, ValueAt(i, a), LOWEST, a.value, a'.value);
      if |args| > 1 && |args'| > 1 {
        SameArgs(s, i + ArgLen(a) + 1, args[1..], trailing, args'[1..], trailing');
      }
      assert args == [a] + args[1..] && args' == [a'] + args'[1..];
    } else {
      SameNone(s, i, args, trailing);
      SameNone(s, i, args', trailing');
    }
  }

  lemma SameNone(s: Source, i: nat, args: seq<CArg>, trailing: bool)
    requires ArgsSpelled(s, i, args, trailing)
    ensures args == [] <==> s.Is(i, RPAREN)
    ensures args == [] ==> !trailing
  {
    hide Stratified, Matches, Len;
    if args != [] {
      var a := args[0];
      assert a in args && MatchesArg(s, i, a);
      if a.key.None? {
        FirstToken(s, i, a.value);
      }
    }
  }
}
