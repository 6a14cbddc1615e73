/**
  The abstract syntax tree. The source builds it from a polymorphic node
  hierarchy (and, in its header-only variant, a tagged union); here the five
  node kinds are the constructors of one inductive datatype, so every tree is
  finite, has no sharing and no cycles, and every compound node has all its
  children.
*/
module Ast {

  const IntMin: int := -0x8000_0000
  const IntMax: int := 0x7fff_ffff

  /** The C++ int of the source: 32-bit two's complement. */
  type Int32 = x: int | IntMin <= x <= IntMax

  /** The source's NodeType enumeration. */
  datatype NodeType = IntLitTag | IdentTag | BinExprTag | LetTag | ExitTag

  datatype Node =
    | IntLit(value: Int32)
    | Ident(name: string)
    | BinExpr(op: string, lhs: Node, rhs: Node)
    | Let(name: string, expr: Node)
    | Exit(expr: Node)

  /** The type tag each node constructor sets: it always agrees with the node's kind. */
  function Tag(n: Node): (t: NodeType)
    ensures t == IntLitTag <==> n.IntLit?
    ensures t == IdentTag <==> n.Ident?
    ensures t == BinExprTag <==> n.BinExpr?
    ensures t == LetTag <==> n.Let?
    ensures t == ExitTag <==> n.Exit?
  {
    match n
    case IntLit(_) => IntLitTag
    case Ident(_) => IdentTag
    case BinExpr(_, _, _) => BinExprTag
    case Let(_, _) => LetTag
    case Exit(_) => ExitTag
  }

  predicate IsPrimary(n: Node) {
    n.IntLit? || n.Ident?
  }

  /** The four operator spellings the grammar produces. */
  predicate IsKnownOp(op: string) {
    op == "+" || op == "-" || op == "*" || op == "/"
  }

  /** A tree built only of literals, identifiers and binary expressions. */
  predicate IsExpr(n: Node) {
    match n
    case IntLit(_) => true
    case Ident(_) => true
    case BinExpr(_, l, r) => IsExpr(l) && IsExpr(r)
    case Let(_, _) => false
    case Exit(_) => false
  }

  /** The shape a no-precedence left fold builds: every right operand is a primary. */
  predicate LeftLeaning(n: Node) {
    match n
    case IntLit(_) => true
    case Ident(_) => true
    case BinExpr(_, l, r) => LeftLeaning(l) && IsPrimary(r)
    case Let(_, _) => false
    case Exit(_) => false
  }

  /** A top-level statement as the grammar defines it. */
  predicate IsStatement(n: Node) {
    match n
    case Let(_, e) => LeftLeaning(e)
    case Exit(e) => LeftLeaning(e)
    case _ => false
  }

  /** Every binary operator in the tree is one of + - * /. */
  predicate OpsKnown(n: Node) {
    match n
    case IntLit(_) => true
    case Ident(_) => true
    case BinExpr(op, l, r) => IsKnownOp(op) && OpsKnown(l) && OpsKnown(r)
    case Let(_, e) => OpsKnown(e)
    case Exit(e) => OpsKnown(e)
  }

  /** The number of binary operators in the tree. */
  function OpCount(n: Node): nat {
    match n
    case IntLit(_) => 0
    case Ident(_) => 0
    case BinExpr(_, l, r) => OpCount(l) + 1 + OpCount(r)
    case Let(_, e) => OpCount(e)
    case Exit(e) => OpCount(e)
  }

  /** The names bound by let nodes anywhere in the tree. */
  function LetNames(n: Node): set<string> {
    match n
    case IntLit(_) => {}
    case Ident(_) => {}
    case BinExpr(_, l, r) => LetNames(l) + LetNames(r)
    case Let(x, e) => {x} + LetNames(e)
    case Exit(e) => LetNames(e)
  }

  /** Every left-leaning tree is an expression. */
  lemma {:induction false} LeftLeaningIsExpr(n: Node)
    requires LeftLeaning(n)
    ensures IsExpr(n) && LetNames(n) == {}
  {
    if n.BinExpr? {
      LeftLeaningIsExpr(n.lhs);
    }
  }

  /** One operator with the operand to its right. */
  datatype Step = Step(op: string, rhs: Node)

  /** Folds p0 o1 p1 … on pn to the left: BinExpr(on, … BinExpr(o1, p0, p1) …, pn). */
  function Fold(acc: Node, steps: seq<Step>): Node
    decreases |steps|
  {
    if steps == [] then acc
    else Fold(BinExpr(steps[0].op, acc, steps[0].rhs), steps[1..])
  }

  /** The operand at the bottom of the left spine. */
  function Leftmost(n: Node): Node {
    if n.BinExpr? then Leftmost(n.lhs) else n
  }

  /** The operators and right operands along the left spine, innermost first. */
  function Steps(n: Node): seq<Step> {
    if n.BinExpr? then Steps(n.lhs) + [Step(n.op, n.rhs)] else []
  }

  lemma {:induction false} FoldSnoc(acc: Node, steps: seq<Step>, last: Step)
    ensures Fold(acc, steps + [last]) == BinExpr(last.op, Fold(acc, steps), last.rhs)
    decreases |steps|
  {
    if steps == [] {
      assert steps + [last] == [last];
    } else {
      assert (steps + [last])[1..] == steps[1..] + [last];
      FoldSnoc(BinExpr(steps[0].op, acc, steps[0].rhs), steps[1..], last);
    }
  }

  /** Every tree is the left fold of its left spine. */
  lemma {:induction false} FoldOfSpine(n: Node)
    ensures Fold(Leftmost(n), Steps(n)) == n
  {
    if n.BinExpr? {
      FoldOfSpine(n.lhs);
      FoldSnoc(Leftmost(n.lhs), Steps(n.lhs), Step(n.op, n.rhs));
    }
  }
}
