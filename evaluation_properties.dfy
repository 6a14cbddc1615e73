/** Properties of the evaluator: arithmetic, statements, programs and sessions. */
module EvaluationProperties {
  import opened Ast
  import opened Evaluation

  // ---------------------------------------------------------------- arithmetic

  lemma SignedProducts(x: int, y: int)
    ensures x * (-y) == -(x * y) && (-x) * y == -(x * y) && (-x) * (-y) == x * y
  {
  }

  lemma NatDivision(A: int, B: int)
    requires A >= 0 && B > 0
    ensures A == (A / B) * B + A % B && 0 <= A % B < B && A / B >= 0
  {
  }

  /** The sign of quotient times divisor, with the magnitudes named. */
  lemma ProductSign(negative: bool, q: int, b: int, q0: int, B: int)
    requires B > 0 && q0 >= 0 && (b == B || b == -B)
    requires q == if negative == (b < 0) then q0 else -q0
    ensures q * b == if negative then -(q0 * B) else q0 * B
  {
    SignedProducts(q0, B);
  }

  /** The linear half of TruncDivRemainder, with the products as given facts. */
  lemma RemainderFacts(a: int, b: int, q: int, q0: int, r0: int)
    requires b != 0 && Abs(a) == q0 * Abs(b) + r0 && 0 <= r0 < Abs(b) && q0 >= 0
    requires q * b == if a < 0 then -(q0 * Abs(b)) else q0 * Abs(b)
    requires Abs(q) == q0
    ensures Abs(a - q * b) < Abs(b) && (a - q * b == 0 || (a - q * b < 0 <==> a < 0))
            && Abs(q) * Abs(b) <= Abs(a)
  {
  }

  /** Division truncates: the remainder is smaller than the divisor and has the dividend's sign. */
  lemma {:induction false} TruncDivRemainder(a: int, b: int)
    requires b != 0
    ensures var q := TruncDiv(a, b);
            Abs(a - q * b) < Abs(b) && (a - q * b == 0 || (a - q * b < 0 <==> a < 0))
            && Abs(q) * Abs(b) <= Abs(a)
  {
    var A: int, B: int := Abs(a), Abs(b);
    NatDivision(A, B);
    var q0: int, r0: int := A / B, A % B;
    var q := TruncDiv(a, b);
    assert q == if (a < 0) == (b < 0) then q0 else -q0;
    ProductSign(a < 0, q, b, q0, B);
    RemainderFacts(a, b, q, q0, r0);
  }

  /** The quotient of two ints is an int, except INT_MIN / -1. */
  lemma {:induction false} QuotientFits(a: Int32, b: Int32)
    requires b != 0 && !(a == IntMin && b == -1)
    ensures IntMin <= TruncDiv(a, b) <= IntMax
    ensures Apply("/", a, b) == Val(TruncDiv(a, b))
  {
    var q := TruncDiv(a, b);
    if b == 1 || b == -1 {
      assert Abs(a) / 1 == Abs(a);
      assert q == if b == 1 then a else -a;
    } else {
      TruncDivRemainder(a, b);
      var Q, B := Abs(q), Abs(b);
      assert Q * B <= Abs(a) <= 0x8000_0000;
      MulMono(Q, 2, B);
      assert Q * 2 <= 0x8000_0000;
    }
  }

  /** Multiplying by a non-negative factor keeps the order. */
  lemma MulMono(x: nat, y: nat, z: nat)
    requires y <= z
    ensures x * y <= x * z
  {
    assert x * z == x * y + x * (z - y);
  }

  /** The one quotient that does not fit wraps around to INT_MIN. */
  lemma QuotientOverflow()
    ensures Apply("/", IntMin, -1) == Val(IntMin)
  {
    assert TruncDiv(IntMin, -1) == 0x8000_0000;
  }

  /** An operator fails exactly when it is not one of the four, or divides by zero. */
  lemma ApplyFails(op: string, a: Int32, b: Int32)
    ensures Apply(op, a, b).Fail? <==> !IsKnownOp(op) || (op == "/" && b == 0)
    ensures Apply(op, a, b) == Fail(UnknownOperator(op)) <==> !IsKnownOp(op)
    ensures !Apply(op, a, b).Halt?
  {
  }

  /** + - * give the exact result whenever it is an int. */
  lemma ApplyExact(a: Int32, b: Int32)
    ensures IntMin <= a + b <= IntMax ==> Apply("+", a, b) == Val(a + b)
    ensures IntMin <= a - b <= IntMax ==> Apply("-", a, b) == Val(a - b)
    ensures IntMin <= a * b <= IntMax ==> Apply("*", a, b) == Val(a * b)
  {
  }

  // ---------------------------------------------------------------- nodes

  /** let x = e; binds x to e's value and yields it; if e fails, nothing is bound. */
  lemma LetBinds(x: string, e: Node, env: Env)
    requires IsExpr(e)
    ensures var v := Eval(e, env).outcome;
            Eval(Let(x, e), env)
              == if v.Val? then Evaluated(v, env[x := v.value]) else Evaluated(v, env)
  {
  }

  /** exit e; halts with e's value as the code and changes no binding. */
  lemma ExitHalts(e: Node, env: Env)
    requires IsExpr(e)
    ensures var v := Eval(e, env).outcome;
            Eval(Exit(e), env) == Evaluated(if v.Val? then Halt(v.value) else v, env)
  {
  }

  /** A tree whose operators are all + - * / never reports an unknown operator. */
  lemma {:induction false} KnownOpsNeverUnknown(n: Node, env: Env)
    requires OpsKnown(n)
    ensures !Eval(n, env).outcome.Fail? || !Eval(n, env).outcome.error.UnknownOperator?
  {
    match n
    case IntLit(_) =>
    case Ident(_) =>
    case BinExpr(op, l, r) =>
      KnownOpsNeverUnknown(l, env);
      var a := Eval(l, env);
      if a.outcome.Val? {
        KnownOpsNeverUnknown(r, a.env);
        var b := Eval(r, a.env);
        if b.outcome.Val? {
          ApplyFails(op, a.outcome.value, b.outcome.value);
        }
      }
    case Let(_, e) =>
      KnownOpsNeverUnknown(e, env);
    case Exit(e) =>
      KnownOpsNeverUnknown(e, env);
  }

  /** Combining two operand outcomes as eval_node does: the first non-value wins. */
  function Combine(op: string, a: Outcome, b: Outcome): Outcome {
    if !a.Val? then a else if !b.Val? then b else Apply(op, a.value, b.value)
  }

  /** Reference semantics of p0 o1 p1 … on pn: accumulate from the left, one operator at a time. */
  function Accumulate(o: Outcome, steps: seq<Step>, env: Env): Outcome
    decreases |steps|
  {
    if steps == [] then o
    else Accumulate(Combine(steps[0].op, o, Eval(steps[0].rhs, env).outcome), steps[1..], env)
  }

  /** Evaluating a left fold is accumulating from the left. */
  lemma {:induction false} EvalFold(acc: Node, steps: seq<Step>, env: Env)
    requires IsExpr(acc)
    requires forall k :: 0 <= k < |steps| ==> IsExpr(steps[k].rhs)
    ensures Eval(Fold(acc, steps), env).outcome == Accumulate(Eval(acc, env).outcome, steps, env)
    decreases |steps|
  {
    if steps != [] {
      var next := BinExpr(steps[0].op, acc, steps[0].rhs);
      assert Eval(next, env).outcome
          == Combine(steps[0].op, Eval(acc, env).outcome, Eval(steps[0].rhs, env).outcome);
      EvalFold(next, steps[1..], env);
    }
  }

  lemma {:induction false} SpineOperandsArePrimary(n: Node)
    requires LeftLeaning(n)
    ensures IsExpr(Leftmost(n))
    ensures forall k :: 0 <= k < |Steps(n)| ==> IsPrimary(Steps(n)[k].rhs)
  {
    if n.BinExpr? {
      SpineOperandsArePrimary(n.lhs);
      assert Steps(n) == Steps(n.lhs) + [Step(n.op, n.rhs)];
    }
  }

  /**
    A parsed expression has no precedence: its value is its operands
    accumulated strictly from left to right.
  */
  lemma EvalLeftToRight(n: Node, env: Env)
    requires LeftLeaning(n)
    ensures Eval(n, env).outcome == Accumulate(Eval(Leftmost(n), env).outcome, Steps(n), env)
  {
    SpineOperandsArePrimary(n);
    FoldOfSpine(n);
    EvalFold(Leftmost(n), Steps(n), env);
  }

  // ---------------------------------------------------------------- programs

  /** Running p then q is running p, then q from where p left off, unless p stopped. */
  lemma {:induction false} RunAppend(p: seq<Node>, q: seq<Node>, env: Env, last: Int32)
    ensures var r := RunFrom(p, env, last);
            RunFrom(p + q, env, last)
              == if r.outcome.Val? then RunFrom(q, r.env, r.outcome.value) else r
    decreases |p|
  {
    if p == [] {
      assert p + q == q;
    } else {
      assert (p + q)[0] == p[0];
      assert (p + q)[1..] == p[1..] + q;
      var e := Eval(p[0], env);
      if e.outcome.Val? {
        RunAppend(p[1..], q, e.env, e.outcome.value);
      }
    }
  }

  /** Once a statement exits or fails, no later statement runs. */
  lemma NothingAfterStop(p: seq<Node>, q: seq<Node>, env: Env)
    requires !Run(p, env).outcome.Val?
    ensures Run(p + q, env) == Run(p, env)
  {
    RunAppend(p, q, env, 0);
  }

  /** A program yields its last statement's value, evaluated where the others left off. */
  lemma LastStatementValue(p: seq<Node>, s: Node, env: Env)
    ensures var r := Run(p, env);
            Run(p + [s], env) == if r.outcome.Val? then Eval(s, r.env) else r
  {
    RunAppend(p, [s], env, 0);
    assert [s][1..] == [];
  }

  /**
    The REPL evaluates each line with the same interpreter: running p and then
    a non-empty q on the environment p left is running p + q.
  */
  lemma SessionPersists(p: seq<Node>, q: seq<Node>, env: Env)
    requires Run(p, env).outcome.Val? && q != []
    ensures Run(q, Run(p, env).env) == Run(p + q, env)
  {
    RunAppend(p, q, env, 0);
  }

  /** A failing program keeps the bindings its earlier statements made. */
  lemma FailureKeepsBindings(p: seq<Node>, s: Node, env: Env)
    requires Run(p, env).outcome.Val? && IsExpr(s) && Eval(s, Run(p, env).env).outcome.Fail?
    ensures Run(p + [s], env).env == Run(p, env).env
    ensures Run(p + [s], env).outcome.Fail?
  {
    LastStatementValue(p, s, env);
  }

  /** A program whose operators are all + - * / never reports an unknown operator. */
  lemma {:induction false} RunKnownOps(stmts: seq<Node>, env: Env, last: Int32)
    requires forall k :: 0 <= k < |stmts| ==> OpsKnown(stmts[k])
    ensures var o := RunFrom(stmts, env, last).outcome; !o.Fail? || !o.error.UnknownOperator?
    decreases |stmts|
  {
    if stmts != [] {
      KnownOpsNeverUnknown(stmts[0], env);
      var e := Eval(stmts[0], env);
      if e.outcome.Val? {
        RunKnownOps(stmts[1..], e.env, e.outcome.value);
      }
    }
  }

  /** Rebinding a name replaces its value. */
  lemma Rebinding(x: string, a: Int32, b: Int32, env: Env)
    ensures Run([Let(x, IntLit(a)), Let(x, IntLit(b)), Ident(x)], env)
         == Evaluated(Val(b), env[x := b])
  {
    var p := [Let(x, IntLit(a)), Let(x, IntLit(b)), Ident(x)];
    assert p[1..] == [Let(x, IntLit(b)), Ident(x)];
    assert p[1..][1..] == [Ident(x)];
    var e1 := env[x := a];
    assert Eval(p[0], env) == Evaluated(Val(a), e1);
    assert Eval(Let(x, IntLit(b)), e1) == Evaluated(Val(b), e1[x := b]);
    assert e1[x := b] == env[x := b];
    assert Eval(Ident(x), env[x := b]) == Evaluated(Val(b), env[x := b]);
    assert RunFrom([Ident(x)], env[x := b], b) == Evaluated(Val(b), env[x := b]);
    assert RunFrom(p[1..], e1, a) == RunFrom([Ident(x)], env[x := b], b);
  }

  // ---------------------------------------------------------------- the interpreter's tests

  lemma IntLiteralProgram()
    ensures Run([IntLit(42)], map[]).outcome == Val(42)
  {
  }

  lemma LetThenIdent()
    ensures Run([Let("x", IntLit(5)), Ident("x")], map[]).outcome == Val(5)
  {
    var p := [Let("x", IntLit(5)), Ident("x")];
    assert p[1..] == [Ident("x")];
  }

  lemma BinaryExpressions()
    ensures Run([BinExpr("+", IntLit(3), IntLit(2)), BinExpr("-", IntLit(10), IntLit(4)),
                 BinExpr("*", IntLit(2), IntLit(3)), BinExpr("/", IntLit(8), IntLit(2))],
                map[]).outcome == Val(4)
  {
    var p := [BinExpr("+", IntLit(3), IntLit(2)), BinExpr("-", IntLit(10), IntLit(4)),
              BinExpr("*", IntLit(2), IntLit(3)), BinExpr("/", IntLit(8), IntLit(2))];
    assert p[1..][1..][1..] == [BinExpr("/", IntLit(8), IntLit(2))];
    assert TruncDiv(8, 2) == 4;
  }

  lemma NestedBinaryExpression()
    ensures Run([BinExpr("*", BinExpr("+", IntLit(1), IntLit(2)), BinExpr("-", IntLit(5), IntLit(3)))],
                map[]).outcome == Val(6)
  {
  }

  lemma UndefinedVariable()
    ensures Run([Ident("y")], map[]).outcome == Fail(UnboundName("y"))
  {
  }

  lemma UnknownBinaryOp()
    ensures Run([BinExpr("%", IntLit(3), IntLit(2))], map[]).outcome == Fail(UnknownOperator("%"))
  {
  }

  lemma ExitNodeExits()
    ensures Run([Exit(IntLit(42))], map[]).outcome == Halt(42)
  {
  }
}
