/**
 Which of two operators groups first (parser/precedence.go, and the precedence table of the language description): the
 numbers the parser compares are the rungs of a ladder of operators.
 */
module Precedence {
  import opened Wrappers
  import opened Tokens
  import opened Ast
  import opened Parsing
  import opened Grammar

  /** The binary operators, loosest first. */
  const LADDER: seq<seq<TokenType>> :=
    [[OR], [AND], [EQ, NEQ], [LT, GT, LTEQ, GTEQ], [PLUS, MINUS], [ASTERISK, SLASH, PERCENT]]

  predicate OnRung(t: TokenType, a: nat) {
    a < |LADDER| && t in LADDER[a]
  }

  ghost predicate OnLadder(t: TokenType) {
    exists a: nat :: OnRung(t, a)
  }

  /** t stands on a lower rung than u. */
  ghost predicate Looser(t: TokenType, u: TokenType) {
    exists a: nat, b: nat :: OnRung(t, a) && OnRung(u, b) && a < b
  }

  lemma Rung(t: TokenType, a: nat)
    ensures OnRung(t, a) <==> a < 6 && Prec(t) == a + 1
  {
  }

  lemma BinaryIsOnLadder(t: TokenType)
    ensures IsBinary(t) <==> OnLadder(t)
  {
    hide Prec, OnRung;
    if IsBinary(t) {
      Rung(t, Prec(t) - 1);
    }
    if OnLadder(t) {
      var a: nat :| OnRung(t, a);
      Rung(t, a);
    }
  }

  /** Precedence is the order of the rungs. */
  lemma LooserIsPrec(t: TokenType, u: TokenType)
    requires OnLadder(t) && OnLadder(u)
    ensures Looser(t, u) <==> Prec(t) < Prec(u)
  {
    hide Prec, OnRung, OnLadder, Looser;
    BinaryIsOnLadder(t);
    BinaryIsOnLadder(u);
    Rung(t, Prec(t) - 1);
    Rung(u, Prec(u) - 1);
    if Prec(t) < Prec(u) {
      OnRungs(t, u, Prec(t) - 1, Prec(u) - 1);
    } else if Looser(t, u) {
      var a, b := RungsOf(t, u);
      Rung(t, a);
      Rung(u, b);
    }
  }

  lemma OnRungs(t: TokenType, u: TokenType, a: nat, b: nat)
    requires OnRung(t, a) && OnRung(u, b) && a < b
    ensures Looser(t, u)
  {
    hide OnRung;
  }

  lemma RungsOf(t: TokenType, u: TokenType) returns (a: nat, b: nat)
    requires Looser(t, u)
    ensures OnRung(t, a) && OnRung(u, b) && a < b
  {
    hide OnRung;
    a, b :| OnRung(t, a) && OnRung(u, b) && a < b;
  }

  /** An operand of binary operators: any derivation that is none of them itself. */
  predicate Operand(s: Source, i: nat, depth: nat, c: Cst) {
    Derives(s, i, LOWEST, depth, c) && !c.Bin?
  }

  /** Three operands with operators t and u between them, and no further operator. */
  ghost predicate Row(s: Source, i: nat, depth: nat, a: Cst, t: TokenType, b: Cst, u: TokenType, c: Cst) {
    var j := i + Len(a);
    var k := j + 1 + Len(b);
    && OnLadder(t) && OnLadder(u) && s.Is(j, t) && s.Is(k, u)
    && Operand(s, i, depth, a) && Operand(s, j + 1, depth, b) && Operand(s, k + 1, depth, c)
    && Maximal(s, k + 1, LOWEST, c)
  }

  /** Of two operators in a row the second groups first exactly if it stands on a higher rung. */
  lemma Grouping(s: Source, i: nat, depth: nat, a: Cst, t: TokenType, b: Cst, u: TokenType, c: Cst)
    requires Row(s, i, depth + 2, a, t, b, u, c)
    ensures Looser(t, u) ==> ParseExpr(s, i, LOWEST, depth) == Success((
        Infix(t, Sem(s, a), Infix(u, Sem(s, b), Sem(s, c))), i + Len(a) + 1 + Len(b) + Len(c)))
    ensures !Looser(t, u) ==> ParseExpr(s, i, LOWEST, depth) == Success((
        Infix(u, Infix(t, Sem(s, a), Sem(s, b)), Sem(s, c)), i + Len(a) + 1 + Len(b) + Len(c)))
  {
    hide Prec, ParseExpr, Looser, Row, NumberedRow, Legible, Sem, Len;
    RowInNumbers(s, i, depth, a, t, b, u, c);
    if Looser(t, u) {
      GroupRight(s, i, depth, a, t, b, u, c);
    } else {
      GroupLeft(s, i, depth, a, t, b, u, c);
    }
  }

  lemma RowInNumbers(s: Source, i: nat, depth: nat, a: Cst, t: TokenType, b: Cst, u: TokenType, c: Cst)
    requires Row(s, i, depth + 2, a, t, b, u, c)
    ensures NumberedRow(s, i, depth, a, t, b, u, c) && (Looser(t, u) <==> Prec(t) < Prec(u))
  {
    hide Prec, ParseExpr, Looser, OnLadder, Operand, Derives, Maximal, Legible, Sem, Len, Tier, IsBinary;
    BinaryIsOnLadder(t);
    BinaryIsOnLadder(u);
    LooserIsPrec(t, u);
    OperandDerives(s, i, depth, a);
    OperandDerives(s, i + Len(a) + 1, depth, b);
    OperandDerives(s, i + Len(a) + 1 + Len(b) + 1, depth, c);
  }

  /** As in Row, but with the rungs as numbers and at the depths the derivations need. */
  ghost predicate NumberedRow(s: Source, i: nat, depth: nat, a: Cst, t: TokenType, b: Cst, u: TokenType, c: Cst) {
    var j := i + Len(a);
    var k := j + 1 + Len(b);
    && IsBinary(t) && IsBinary(u) && s.Is(j, t) && s.Is(k, u)
    && Derives(s, i, LOWEST, depth, a) && Derives(s, j + 1, LOWEST, depth + 1, b)
    && Derives(s, k + 1, LOWEST, depth + 2, c) && Derives(s, k + 1, LOWEST, depth + 1, c)
    && Tier(a) >= PREFIX && Tier(b) >= PREFIX && Tier(c) >= PREFIX && Maximal(s, k + 1, LOWEST, c)
  }

  lemma GroupRight(s: Source, i: nat, depth: nat, a: Cst, t: TokenType, b: Cst, u: TokenType, c: Cst)
    requires NumberedRow(s, i, depth, a, t, b, u, c) && Prec(t) < Prec(u)
    ensures Legible(s, a) && Legible(s, b) && Legible(s, c)
    ensures ParseExpr(s, i, LOWEST, depth) == Success((
      Infix(t, Sem(s, a), Infix(u, Sem(s, b), Sem(s, c))), i + Len(a) + 1 + Len(b) + Len(c)))
  {
    hide Prec, ParseExpr, Derives, Legible, Sem, Len, NumberedRow, Maximal;
    RightTree(s, i, depth, a, t, b, u, c);
    Whole(s, i, depth, Bin(t, a, Bin(u, b, c)), i + Len(a) + 1 + Len(b) + 1, c, i + Len(a) + 1 + Len(b) + Len(c));
  }

  lemma RightTree(s: Source, i: nat, depth: nat, a: Cst, t: TokenType, b: Cst, u: TokenType, c: Cst)
    requires NumberedRow(s, i, depth, a, t, b, u, c) && Prec(t) < Prec(u)
    ensures Legible(s, a) && Legible(s, b) && Legible(s, c)
    ensures var d := Bin(t, a, Bin(u, b, c)); var k := i + Len(a) + 1 + Len(b) + 1;
      && Derives(s, i, LOWEST, depth, d) && i + Len(d) == k + Len(c) && Maximal(s, k, LOWEST, c)
      && Legible(s, d) && Sem(s, d) == Infix(t, Sem(s, a), Infix(u, Sem(s, b), Sem(s, c)))
  {
    hide Prec, ParseExpr, Derives, Legible, Sem, Len, Tier, Maximal;
    JoinDerives(s, i + Len(a) + 1, depth + 1, u, b, c);
    JoinDerives(s, i, depth, t, a, Bin(u, b, c));
  }

  lemma GroupLeft(s: Source, i: nat, depth: nat, a: Cst, t: TokenType, b: Cst, u: TokenType, c: Cst)
    requires NumberedRow(s, i, depth, a, t, b, u, c) && Prec(t) >= Prec(u)
    ensures Legible(s, a) && Legible(s, b) && Legible(s, c)
    ensures ParseExpr(s, i, LOWEST, depth) == Success((
      Infix(u, Infix(t, Sem(s, a), Sem(s, b)), Sem(s, c)), i + Len(a) + 1 + Len(b) + Len(c)))
  {
    hide Prec, ParseExpr, Derives, Legible, Sem, Len, NumberedRow, Maximal;
    LeftTree(s, i, depth, a, t, b, u, c);
    Whole(s, i, depth, Bin(u, Bin(t, a, b), c), i + Len(a) + 1 + Len(b) + 1, c, i + Len(a) + 1 + Len(b) + Len(c));
  }

  lemma LeftTree(s: Source, i: nat, depth: nat, a: Cst, t: TokenType, b: Cst, u: TokenType, c: Cst)
    requires NumberedRow(s, i, depth, a, t, b, u, c) && Prec(t) >= Prec(u)
    ensures Legible(s, a) && Legible(s, b) && Legible(s, c)
    ensures var d := Bin(u, Bin(t, a, b), c); var k := i + Len(a) + 1 + Len(b) + 1;
      && Derives(s, i, LOWEST, depth, d) && i + Len(d) == k + Len(c) && Maximal(s, k, LOWEST, c)
      && Legible(s, d) && Sem(s, d) == Infix(u, Infix(t, Sem(s, a), Sem(s, b)), Sem(s, c))
  {
    hide Prec, ParseExpr, Derives, Legible, Sem, Len, Tier, Maximal;
    JoinDerives(s, i, depth, t, a, b);
    JoinDerives(s, i, depth, u, Bin(t, a, b), c);
  }

  /** A derivation that ends with its last operand is all there is to read if nothing can extend that operand. */
  lemma Whole(s: Source, i: nat, depth: nat, d: Cst, k: nat, last: Cst, n: nat)
    requires Derives(s, i, LOWEST, depth, d) && i + Len(d) == k + Len(last) == n + 1 && Maximal(s, k, LOWEST, last)
    ensures Legible(s, d) && ParseExpr(s, i, LOWEST, depth) == Success((Sem(s, d), n))
  {
    hide Prec, ParseExpr, Stratified, Matches, Legible, Height, Sem, Len, Tier;
    Complete(s, i, LOWEST, depth, d);
  }

  lemma OperandDerives(s: Source, i: nat, depth: nat, c: Cst)
    requires Operand(s, i, depth + 2, c)
    ensures Derives(s, i, LOWEST, depth, c) && Derives(s, i, LOWEST, depth + 1, c)
    ensures Derives(s, i, LOWEST, depth + 2, c)
    ensures Tier(c) >= PREFIX && Legible(s, c)
  {
    hide Stratified, Matches, Legible, Height;
  }

  lemma JoinDerives(s: Source, i: nat, depth: nat, op: TokenType, l: Cst, r: Cst)
    requires IsBinary(op) && Derives(s, i, LOWEST, depth, l) && Tier(l) >= Prec(op)
    requires s.Is(i + Len(l), op) && Derives(s, i + Len(l) + 1, LOWEST, depth + 1, r) && Tier(r) > Prec(op)
    ensures var c := Bin(op, l, r);
      && Derives(s, i, LOWEST, depth, c) && Len(c) == Len(l) + 1 + Len(r) && Tier(c) == Prec(op)
      && Legible(s, c) && Legible(s, l) && Legible(s, r) && Sem(s, c) == Infix(op, Sem(s, l), Sem(s, r))
  {
    hide Stratified, Matches, Legible, Sem, Height, Len, Prec;
    BinUnfold(op, l, r);
    BinSpelling(s, i, op, l, r);
    BinMeans(s, op, l, r);
  }
}
