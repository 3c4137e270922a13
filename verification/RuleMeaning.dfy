/**
 What the built-in operators compute (registry/std_math.go:76-219), said without the definitions that compute it:
 each is taken from the table of operators under its own token, and its answer compared with integers and orders.
 */
module RuleMeaning {
  import opened Wrappers
  import opened Tokens
  import opened Values
  import opened Registries
  import opened Rules
  import opened WellFormed
  import opened StdMath
  import opened Truncation

  /** The answer of the default registry's rule for an operator at two operands. */
  function Answer(h: Host, clock: nat, op: TokenType, l: Value, r: Value): Outcome<Value>
    requires StdBinary(BinaryKey(op, TypeOf(l), TypeOf(r))).Some?
  {
    ApplyBinary(h, StdBinary(BinaryKey(op, TypeOf(l), TypeOf(r))).value.fn, clock, l, r).out
  }

  /** The same of a prefix operator. */
  function AnswerTo(h: Host, clock: nat, op: TokenType, v: Value): Outcome<Value>
    requires StdUnary(UnaryKey(op, TypeOf(v))).Some?
  {
    ApplyUnary(h, StdUnary(UnaryKey(op, TypeOf(v))).value.fn, clock, v).out
  }

  /** No operator of the table calls back into the engine. */
  lemma OperatorsMakeNoCalls(h: Host, clock: nat, op: TokenType, l: Value, r: Value)
    ensures var rule := StdBinary(BinaryKey(op, TypeOf(l), TypeOf(r)));
      rule.Some? ==> ApplyBinary(h, rule.value.fn, clock, l, r).nested == []
    ensures var rule := StdUnary(UnaryKey(op, TypeOf(r)));
      rule.Some? ==> ApplyUnary(h, rule.value.fn, clock, r).nested == []
  {
  }

  // ---------- Integers ----------

  /** An integer that differs from the exact result by a multiple of 2^64. */
  predicate WrapsTo(o: Outcome<Value>, exact: int) {
    o.Done? && o.v.IntV? && (o.v.n - exact) % TWO_TO_THE_64 == 0
  }

  /** Which leaves one integer of the machine. */
  lemma WrapsToOne(o: Outcome<Value>, other: Outcome<Value>, exact: int)
    requires WrapsTo(o, exact) && WrapsTo(other, exact)
    ensures o == other
  {
    var m, n := o.v.n - exact, other.v.n - exact;
    assert m == (m / TWO_TO_THE_64) * TWO_TO_THE_64 && n == (n / TWO_TO_THE_64) * TWO_TO_THE_64;
    assert -TWO_TO_THE_64 < m - n < TWO_TO_THE_64;
  }

  lemma Wrapped(n: int)
    ensures (Wrap64(n) - n) % TWO_TO_THE_64 == 0
  {
    assert n == (n / TWO_TO_THE_64) * TWO_TO_THE_64 + n % TWO_TO_THE_64;
  }

  /** The rule found at two integers is the one made for the operator. */
  lemma IntegerRule(h: Host, clock: nat, op: TokenType, a: Int64, b: Int64)
    requires op in ARITHMETIC || op in COMPARISON
    ensures Answer(h, clock, op, IntV(a), IntV(b))
         == if op in ARITHMETIC then NumericArith(h, op, IntV(a), IntV(b))
           else NumericComparison(h, op, IntV(a), IntV(b))
  {
    hide NumericArith, NumericComparison;
  }

  lemma IntegerSums(h: Host, clock: nat, a: Int64, b: Int64)
    ensures WrapsTo(Answer(h, clock, PLUS, IntV(a), IntV(b)), a + b)
    ensures WrapsTo(Answer(h, clock, MINUS, IntV(a), IntV(b)), a - b)
    ensures WrapsTo(Answer(h, clock, ASTERISK, IntV(a), IntV(b)), a * b)
    ensures WrapsTo(AnswerTo(h, clock, MINUS, IntV(a)), -(a as int))
  {
    hide Wrap64, Answer;
    IntegerRule(h, clock, PLUS, a, b);
    IntegerRule(h, clock, MINUS, a, b);
    IntegerRule(h, clock, ASTERISK, a, b);
    Wrapped(a + b);
    Wrapped(a - b);
    Wrapped(a * b);
    Wrapped(0 - a);
  }

  /**
   The remainder is smaller than the divisor, has the sign of the dividend, and leaves a multiple q of the divisor.
   */
  lemma IntegerRemainder(h: Host, clock: nat, a: Int64, b: Int64) returns (q: int)
    requires b != 0
    ensures var o := Answer(h, clock, PERCENT, IntV(a), IntV(b));
      && o.Done? && o.v.IntV?
      && a - o.v.n == q * b
      && Magnitude(o.v.n) < Magnitude(b) && (a >= 0 ==> o.v.n >= 0) && (a <= 0 ==> o.v.n <= 0)
  {
    hide TruncDiv, TruncMod, Wrap64;
    TruncatedQuotient(a, b);
    InRange(TruncMod(a, b));
    q := TruncDiv(a, b);
  }

  /** Division leaves the integers. */
  lemma IntegerQuotient(h: Host, clock: nat, a: Int64, b: Int64)
    requires b != 0
    ensures Answer(h, clock, SLASH, IntV(a), IntV(b))
      == Done(FloatV(h.float.arith(SLASH, h.float.ofInt(a), h.float.ofInt(b))))
  {
  }

  /** Integer arithmetic fails exactly at a zero divisor, and says so. */
  lemma ZeroDivisor(h: Host, clock: nat, op: TokenType, a: Int64, b: Int64)
    requires op in ARITHMETIC
    ensures Answer(h, clock, op, IntV(a), IntV(b)).Done? <==> !(op in {SLASH, PERCENT} && b == 0)
    ensures !Answer(h, clock, op, IntV(a), IntV(b)).Done? ==>
      Answer(h, clock, op, IntV(a), IntV(b)) == Trap(RuleFault(DivisionByZero))
  {
    hide Wrap64, TruncMod;
  }

  /** Each comparison of integers answers the order it is named for. */
  lemma IntegerOrder(h: Host, clock: nat, a: Int64, b: Int64)
    ensures Answer(h, clock, LT, IntV(a), IntV(b)) == Done(BoolV(a < b))
    ensures Answer(h, clock, EQ, IntV(a), IntV(b)) == Done(BoolV(a == b))
    ensures Answer(h, clock, GT, IntV(a), IntV(b)) == Done(BoolV(a > b))
    ensures Answer(h, clock, LTEQ, IntV(a), IntV(b)) == Done(BoolV(!(a > b)))
    ensures Answer(h, clock, GTEQ, IntV(a), IntV(b)) == Done(BoolV(!(a < b)))
    ensures Answer(h, clock, NEQ, IntV(a), IntV(b)) == Done(BoolV(!(a == b)))
  {
    hide Answer, StdBinary;
    IntegerRule(h, clock, LT, a, b);
    IntegerRule(h, clock, EQ, a, b);
    IntegerRule(h, clock, GT, a, b);
    IntegerRule(h, clock, LTEQ, a, b);
    IntegerRule(h, clock, GTEQ, a, b);
    IntegerRule(h, clock, NEQ, a, b);
  }

  // ---------- Floats ----------

  /** v as a float operation reads it: an integer is converted. */
  predicate ReadsAs(h: Host, v: Value, x: F64) {
    v == FloatV(x) || (v.IntV? && x == h.float.ofInt(v.n))
  }

  /** With a float on either side, the operator and both operands, in order, reach the float operation. */
  lemma FloatArithmetic(h: Host, clock: nat, op: TokenType, l: Value, r: Value, x: F64, y: F64)
    requires op in ARITHMETIC && ReadsAs(h, l, x) && ReadsAs(h, r, y) && (l.FloatV? || r.FloatV?)
    ensures if op in {SLASH, PERCENT} && h.float.isZero(y)
      then Answer(h, clock, op, l, r) == Trap(RuleFault(DivisionByZero))
      else Answer(h, clock, op, l, r) == Done(FloatV(h.float.arith(op, x, y)))
  {
  }

  lemma FloatOrder(h: Host, clock: nat, op: TokenType, l: Value, r: Value, x: F64, y: F64)
    requires op in COMPARISON && ReadsAs(h, l, x) && ReadsAs(h, r, y) && (l.FloatV? || r.FloatV?)
    ensures Answer(h, clock, op, l, r) == Done(BoolV(h.float.compare(op, x, y)))
  {
  }

  lemma FloatNegation(h: Host, clock: nat, x: F64)
    ensures AnswerTo(h, clock, MINUS, FloatV(x)) == Done(FloatV(h.float.negate(x)))
  {
  }

  // ---------- Strings and booleans ----------

  /** Strings are joined left to right: the result starts with the left one and the rest is the right one. */
  lemma StringsJoin(h: Host, clock: nat, s: string, t: string)
    ensures var o := Answer(h, clock, PLUS, StrV(s), StrV(t));
      o.Done? && o.v.StrV? && |o.v.s| == |s| + |t| && o.v.s[..|s|] == s && o.v.s[|s|..] == t
  {
  }

  lemma ScalarEquality(h: Host, clock: nat, s: string, t: string, a: bool, b: bool)
    ensures Answer(h, clock, EQ, StrV(s), StrV(t)) == Done(BoolV(s == t))
    ensures Answer(h, clock, NEQ, StrV(s), StrV(t)) == Done(BoolV(s != t))
    ensures Answer(h, clock, EQ, BoolV(a), BoolV(b)) == Done(BoolV(a <==> b))
    ensures Answer(h, clock, NEQ, BoolV(a), BoolV(b)) == Done(BoolV(a <==> !b))
  {
  }

  lemma Negation(h: Host, clock: nat, b: bool)
    ensures AnswerTo(h, clock, BANG, BoolV(b)) == Done(BoolV(!b))
  {
  }

  // ---------- Fields and coercions ----------

  /** An accessor of a structural type answers with the record's own field, and makes no calls. */
  lemma FieldIsRead(h: Host, reg: Registry, clock: nat, v: Value, f: Field)
    requires v.RecordV? && Canonical(reg, v) && f in reg.FieldsOf(v.t)
    ensures f.name in v.fields && ApplyMember(h, FieldOf(f.name), clock, v) == Applied(Done(v.fields[f.name]), [])
  {
  }

  lemma IntegerAsFloat(h: Host, a: Int64)
    ensures ApplyCoerce(h, IntToFloat, IntV(a)) == Done(FloatV(h.float.ofInt(a)))
  {
  }

  // ---------- Host rules ----------

  /** A host's answer as the evaluation's: its value, its error or its panic. */
  predicate Conveys(r: Reply, a: Applied) {
    && a.nested == r.nested
    && match r.out
       case Returned(v) => a.out == Done(v)
       case Failed(kind) => a.out == Trap(RuleFault(kind))
       case Panicked => a.out == HostPanic
  }

  /** A rule of the host is asked with its operands in order and the count of calls so far, and its answer passed on. */
  lemma HostIsAsked(h: Host, id: nat, clock: nat, l: Value, r: Value, args: map<string, Value>)
    ensures Conveys(h.binary(id, clock, l, r), ApplyBinary(h, HostBinary(id), clock, l, r))
    ensures Conveys(h.unary(id, clock, l), ApplyUnary(h, HostUnary(id), clock, l))
    ensures Conveys(h.member(id, clock, l), ApplyMember(h, HostMember(id), clock, l))
    ensures Conveys(h.call(id, clock, l, args), ApplyCall(h, HostCall(id), clock, l, args))
    ensures match h.coerce(id, l)
      case Some(v) => ApplyCoerce(h, HostCoerce(id), l) == Done(v)
      case None => ApplyCoerce(h, HostCoerce(id), l) == HostPanic
  {
  }
}
