/** The typed IR that the back end consumes, restricted to scalar values that
    fill one 32-bit register: `i32`, `u32` and `bool`. */
module Ir {

  datatype Type = I32 | U32 | Bool

  datatype BinOp = Add | Sub | Mul | Div | Rem | Eq | Ne | Lt | Le | Gt | Ge

  predicate IsComparison(op: BinOp) {
    op.Eq? || op.Ne? || op.Lt? || op.Le? || op.Gt? || op.Ge?
  }

  /** An IR value. `Incr` covers `pre++`, `post++`, `pre--` and `post--` on a
      local or on a static scalar. */
  datatype Value =
    | IntLit(ty: Type, n: int)
    | BoolLit(b: bool)
    | Local(name: string, ty: Type)
    | Global(name: string, ty: Type)
    | Neg(operand: Value)
    | Not(operand: Value)
    | Incr(up: bool, postfix: bool, isLocal: bool, name: string, ty: Type)
    | Binary(op: BinOp, lhs: Value, rhs: Value, ty: Type)
    | And(lhs: Value, rhs: Value)
    | Or(lhs: Value, rhs: Value)
    | Cast(operand: Value, ty: Type)
    | Call(callee: string, args: seq<Value>, ty: Type)

  function TypeOf(e: Value): Type {
    match e
    case BoolLit(_) => Bool
    case Neg(_) => I32
    case Not(_) => Bool
    case And(_, _) => Bool
    case Or(_, _) => Bool
    case _ => e.ty
  }

  datatype Pattern = Default | IntPattern(n: int) | BoolPattern(b: bool)

  datatype Arm = Arm(patterns: seq<Pattern>, body: seq<Stmt>)

  /** An IR statement. `id` is the identity of the node, by which the frame
      finds the stack slot of a `let` or of a match scrutinee. */
  datatype Stmt =
    | Let(id: nat, name: string, value: Value)
    | Assign(name: string, value: Value)
    | Expr(value: Value)
    | Return(value: Value)
    | If(cond: Value, thenBody: seq<Stmt>, elseBody: seq<Stmt>)
    | While(cond: Value, body: seq<Stmt>)
    | For(init: Stmt, cond: Value, step: Stmt, body: seq<Stmt>)
    | Match(id: nat, value: Value, arms: seq<Arm>)
    | Break
    | Continue

  datatype Param = Param(name: string, ty: Type)

  datatype Function = Function(name: string, params: seq<Param>, ret: Type, body: seq<Stmt>)

  /** The functions of a module that have a body; every other callee is extern. */
  datatype Module = Module(functions: seq<Function>)
  {
    predicate Defines(name: string) {
      exists i :: 0 <= i < |functions| && functions[i].name == name
    }

    function Index(name: string): (i: nat)
      requires Defines(name)
      ensures i < |functions| && functions[i].name == name
    {
      IndexFrom(name, 0)
    }

    function IndexFrom(name: string, i: nat): (k: nat)
      requires exists j :: i <= j < |functions| && functions[j].name == name
      ensures i <= k < |functions| && functions[k].name == name
      decreases |functions| - i
    {
      if functions[i].name == name then i else IndexFrom(name, i + 1)
    }

    predicate DistinctNames() {
      forall i, j :: 0 <= i < j < |functions| ==> functions[i].name != functions[j].name
    }
  }
}
