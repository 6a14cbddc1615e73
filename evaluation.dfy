/**
  The tree-walking evaluator. The environment is a field of the Interpreter
  object and survives from one EvalProgram call to the next.

  Arithmetic is on C++ int. The source leaves overflow and division by zero
  undefined; this model makes one choice and keeps to it: the exact result of
  + - * and of / (truncated toward zero) is reduced to 32-bit two's complement,
  so INT_MIN / -1 gives INT_MIN, and a zero divisor is the error DivisionByZero.

  std::exit becomes the outcome Halt(code), which stops everything that
  encloses it: the expression, the statement and the program.
*/
module Evaluation {
  import opened Ast

  const Modulus: int := 0x1_0000_0000

  /** The 32-bit two's complement value congruent to x. */
  function Wrap(x: int): (r: Int32)
    ensures (x - r) % Modulus == 0
    ensures IntMin <= x <= IntMax ==> r == x
  {
    var m := x % Modulus;
    if m > IntMax then m - Modulus else m
  }

  function Abs(x: int): nat {
    if x < 0 then -x else x
  }

  /** C++ integer division: the exact quotient truncated toward zero. */
  function TruncDiv(a: int, b: int): int
    requires b != 0
  {
    var q := Abs(a) / Abs(b);
    if (a < 0) == (b < 0) then q else -q
  }

  datatype EvalError =
    | UnboundName(name: string)    // "Undefined variable"
    | DivisionByZero
    | UnknownOperator(op: string)  // "Unknown binary operator"

  /** What evaluating a node yields: a value, a process exit with a code, or an error. */
  datatype Outcome = Val(value: Int32) | Halt(code: Int32) | Fail(error: EvalError)

  /** A binary operator applied to two evaluated operands. */
  function Apply(op: string, a: Int32, b: Int32): Outcome {
    if op == "+" then Val(Wrap(a + b))
    else if op == "-" then Val(Wrap(a - b))
    else if op == "*" then Val(Wrap(a * b))
    else if op == "/" then (if b == 0 then Fail(DivisionByZero) else Val(Wrap(TruncDiv(a, b))))
    else Fail(UnknownOperator(op))
  }

  type Env = map<string, Int32>

  /** An outcome together with the environment left behind. */
  datatype Evaluated = Evaluated(outcome: Outcome, env: Env)

  /**
    eval_node. Operands are evaluated left before right, and the operator is
    examined only after both. The environment changes only at the names of
    the let nodes inside n, and a grammar expression neither changes it nor
    exits.
  */
  function Eval(n: Node, env: Env): (r: Evaluated)
    ensures forall x :: x in env && x !in LetNames(n) ==> x in r.env && r.env[x] == env[x]
    ensures forall x :: x in r.env ==> x in env || x in LetNames(n)
    ensures IsExpr(n) ==> r.env == env && !r.outcome.Halt?
  {
    match n
    case IntLit(v) => Evaluated(Val(v), env)
    case Ident(x) => Evaluated(if x in env then Val(env[x]) else Fail(UnboundName(x)), env)
    case BinExpr(op, lhs, rhs) =>
      var a := Eval(lhs, env);
      if !a.outcome.Val? then a
      else
        var b := Eval(rhs, a.env);
        if !b.outcome.Val? then b
        else Evaluated(Apply(op, a.outcome.value, b.outcome.value), b.env)
    case Let(x, e) =>
      var v := Eval(e, env);
      if v.outcome.Val? then Evaluated(v.outcome, v.env[x := v.outcome.value]) else v
    case Exit(e) =>
      var v := Eval(e, env);
      if v.outcome.Val? then Evaluated(Halt(v.outcome.value), v.env) else v
  }

  /** The statement fold from the given last value on; anything but a value stops it. */
  function RunFrom(stmts: seq<Node>, env: Env, last: Int32): Evaluated
    decreases |stmts|
  {
    if stmts == [] then Evaluated(Val(last), env)
    else
      var r := Eval(stmts[0], env);
      if r.outcome.Val? then RunFrom(stmts[1..], r.env, r.outcome.value) else r
  }

  /** eval_program: 0 for no statements, otherwise the last statement's value. */
  function Run(stmts: seq<Node>, env: Env): Evaluated {
    RunFrom(stmts, env, 0)
  }

  /** The interpreter object and its environment. */
  class Interpreter {
    var env: Env

    constructor ()
      ensures env == map[]
    {
      env := map[];
    }

    method EvalNode(n: Node) returns (o: Outcome)
      modifies this
      ensures Evaluated(o, env) == Eval(n, old(env))
      decreases n
    {
      match n {
        case IntLit(v) =>
          o := Val(v);
        case Ident(x) =>
          if x !in env {
            return Fail(UnboundName(x));
          }
          o := Val(env[x]);
        case BinExpr(op, lhs, rhs) =>
          var a := EvalNode(lhs);
          if !a.Val? {
            return a;
          }
          var b := EvalNode(rhs);
          if !b.Val? {
            return b;
          }
          o := Apply(op, a.value, b.value);
        case Let(x, e) =>
          o := EvalNode(e);
          if o.Val? {
            env := env[x := o.value];
          }
        case Exit(e) =>
          o := EvalNode(e);
          if o.Val? {
            o := Halt(o.value);
          }
      }
    }

    method EvalProgram(stmts: seq<Node>) returns (o: Outcome)
      modifies this
      ensures Evaluated(o, env) == Run(stmts, old(env))
    {
      var last: Int32 := 0;
      for k := 0 to |stmts|
        invariant RunFrom(stmts[k..], env, last) == Run(stmts, old(env))
      {
        assert stmts[k..][1..] == stmts[k + 1..];
        var r := EvalNode(stmts[k]);
        if !r.Val? {
          return r;
        }
        last := r.value;
      }
      o := Val(last);
    }
  }
}
