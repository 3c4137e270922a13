/** The resolved program (resolved/resolved.go): names settled, types attached, coercions explicit. */
module Resolved {
  import opened Wrappers
  import opened Tokens
  import opened Values
  import opened Registries

  /** A host-kind declaration's cell: where it lives and what it holds. */
  datatype Slot = Slot(kind: string, name: string, t: TypeID, index: nat)

  datatype RExpr =
    | RBad
    | RIdent(name: string, t: TypeID)
    | RInt(n: Int64)
    | RFloat(f: F64)
    | RStr(s: string)
    | RBool(b: bool)
    | RInfix(op: TokenType, left: RExpr, right: RExpr, t: TypeID, binaryFn: BinaryFn)
    | RLogical(op: TokenType, left: RExpr, right: RExpr)
    | RPrefix(op: TokenType, right: RExpr, t: TypeID, unaryFn: UnaryFn)
    | RCoerce(inner: RExpr, t: TypeID, coerceFn: CoerceFn)
    | RMember(receiver: RExpr, attribute: string, t: TypeID, memberFn: MemberFn)
    | RSlot(slot: Slot)
    | RCall(receiver: RExpr, name: string, args: seq<RArg>, t: TypeID, callFn: CallFn)
  {
    function Type(): TypeID {
      match this
      case RBad => ERROR_TYPE_ID
      case RInt(_) => INTEGER_ID
      case RFloat(_) => FLOAT_ID
      case RStr(_) => STRING_ID
      case RBool(_) => BOOL_ID
      case RLogical(_, _, _) => BOOL_ID
      case RSlot(slot) => slot.t
      case _ => t
    }
  }

  datatype RArg = RArg(name: string, value: RExpr)

  datatype RStmt =
    | RBadStmt
    | RLet(name: string, value: RExpr, t: TypeID)
    | RAssignName(target: string, value: RExpr, t: TypeID)
    | RAssignSlot(slot: Slot, value: RExpr, t: TypeID)
    | RExprStmt(expr: RExpr)
    | RBlock(stmts: seq<RStmt>)
    | RIf(cond: RExpr, consequence: seq<RStmt>, alternative: Option<RStmt>)
    | REmit(output: string, args: seq<RArg>, t: TypeID)

  datatype RDecl =
    | RConst(name: string, value: RExpr, t: TypeID)
    | RInput(name: string, t: TypeID)
    | ROutput(name: string, t: TypeID)
    | RSlotDecl(slot: Slot, init: Option<RExpr>)

  datatype RProgram = RProgram(decls: seq<RDecl>, initFn: Option<seq<RStmt>>, runFn: seq<RStmt>)

  /** The slot declarations, in source order. */
  function Slots(decls: seq<RDecl>): (slots: seq<Slot>)
    ensures |slots| <= |decls|
  {
    if decls == [] then [] else (if decls[0].RSlotDecl? then [decls[0].slot] else []) + Slots(decls[1..])
  }
}
