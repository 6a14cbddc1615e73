/** What the parse routines build and how many tokens they consume. */
module ParsingProperties {
  import opened Wrappers
  import opened Ast
  import opened Parsing
  import Tok = Tokenization

  // Expressions: a left fold with no precedence.

  lemma {:induction false} ExprTailShape(toks: seq<Tok.Token>, lhs: Node, i: nat)
    requires LeftLeaning(lhs)
    requires ExprTail(toks, lhs, i).Ok?
    ensures LeftLeaning(ExprTail(toks, lhs, i).value.node)
    ensures OpCount(ExprTail(toks, lhs, i).value.node) >= OpCount(lhs)
    ensures ExprTail(toks, lhs, i).value.next
         == i + 2 * (OpCount(ExprTail(toks, lhs, i).value.node) - OpCount(lhs))
    decreases |toks| - i
  {
    if IsOperator(toks[i].kind) {
      var rhs := PrimaryAt(toks, i + 1).value;
      ExprTailShape(toks, BinExpr(toks[i].value, lhs, rhs.node), rhs.next);
    }
  }

  /** parse_expr builds a left-leaning tree; k operators take 2k + 1 tokens. */
  lemma ExprShape(toks: seq<Tok.Token>, i: nat)
    requires ExprAt(toks, i).Ok?
    ensures LeftLeaning(ExprAt(toks, i).value.node)
    ensures ExprAt(toks, i).value.next == i + 2 * OpCount(ExprAt(toks, i).value.node) + 1
  {
    var p := PrimaryAt(toks, i).value;
    ExprTailShape(toks, p.node, p.next);
  }

  /** Token p is an operator and p + 1 a primary, together giving step s. */
  predicate StepAt(toks: seq<Tok.Token>, p: nat, s: Step) {
    p + 1 < |toks| && IsOperator(toks[p].kind) && toks[p].value == s.op &&
    PrimaryAt(toks, p + 1) == Ok(Parsed(s.rhs, p + 2))
  }

  /**
    The tree r read from position i on, given the tree lhs already read:
    it keeps lhs's steps as a prefix, adds one step per operator and primary
    pair it read, and stops at a token that is not an operator.
  */
  predicate TailReads(toks: seq<Tok.Token>, lhs: Node, i: nat, r: Parsed<Node>) {
    var before := Steps(lhs);
    var after := Steps(r.node);
    && Leftmost(r.node) == Leftmost(lhs)
    && |before| <= |after| && after[..|before|] == before
    && r.next == i + 2 * (|after| - |before|)
    && (forall k :: |before| <= k < |after| ==> StepAt(toks, i + 2 * (k - |before|), after[k]))
    && r.next < |toks| && !IsOperator(toks[r.next].kind)
  }

  lemma {:induction false} ExprTailReads(toks: seq<Tok.Token>, lhs: Node, i: nat)
    requires ExprTail(toks, lhs, i).Ok?
    ensures TailReads(toks, lhs, i, ExprTail(toks, lhs, i).value)
    decreases |toks| - i
  {
    if IsOperator(toks[i].kind) {
      var rhs := PrimaryAt(toks, i + 1).value;
      var step := Step(toks[i].value, rhs.node);
      var lhs' := BinExpr(toks[i].value, lhs, rhs.node);
      assert ExprTail(toks, lhs, i) == ExprTail(toks, lhs', rhs.next);
      ExprTailReads(toks, lhs', rhs.next);
      assert StepAt(toks, i, step);
      TailReadsStep(toks, lhs, i, step, ExprTail(toks, lhs', rhs.next).value);
    }
  }

  /** Reading one more step at i extends what is read from i + 2 on. */
  lemma TailReadsStep(toks: seq<Tok.Token>, lhs: Node, i: nat, step: Step, r: Parsed<Node>)
    requires StepAt(toks, i, step)
    requires TailReads(toks, BinExpr(step.op, lhs, step.rhs), i + 2, r)
    ensures TailReads(toks, lhs, i, r)
  {
    var lhs' := BinExpr(step.op, lhs, step.rhs);
    var before, mid, after := Steps(lhs), Steps(lhs'), Steps(r.node);
    assert mid == before + [step];
    assert |mid| == |before| + 1;
    assert Leftmost(lhs') == Leftmost(lhs);
    assert after[..|mid|] == mid;
    assert r.next == i + 2 * (|after| - |before|);
    StepsExtend(toks, i, before, step, after);
  }

  /** One more step read at p, in front of the steps read from p + 2 on. */
  lemma StepsExtend(toks: seq<Tok.Token>, p: nat, before: seq<Step>, s: Step, after: seq<Step>)
    requires |before| + 1 <= |after| && after[..|before| + 1] == before + [s]
    requires StepAt(toks, p, s)
    requires forall k :: |before| + 1 <= k < |after| ==> StepAt(toks, p + 2 + 2 * (k - |before| - 1), after[k])
    ensures after[..|before|] == before
    ensures forall k :: |before| <= k < |after| ==> StepAt(toks, p + 2 * (k - |before|), after[k])
  {
    assert after[..|before|] == after[..|before| + 1][..|before|];
    assert after[|before|] == (before + [s])[|before|];
    forall k | |before| <= k < |after|
      ensures StepAt(toks, p + 2 * (k - |before|), after[k])
    {
      if k > |before| {
        assert p + 2 * (k - |before|) == p + 2 + 2 * (k - |before| - 1);
      }
    }
  }

  /**
    parse_expr reads p0 o1 p1 … on pn and stops at a non-operator: the tree is
    BinExpr(on, … BinExpr(o1, p0, p1) …, pn), each oi the text of an operator
    token and each pi the primary after it.
  */
  lemma ExprIsLeftFold(toks: seq<Tok.Token>, i: nat)
    requires ExprAt(toks, i).Ok?
    ensures var r := ExprAt(toks, i).value;
      var steps := Steps(r.node);
      && r.node == Fold(Leftmost(r.node), steps)
      && PrimaryAt(toks, i) == Ok(Parsed(Leftmost(r.node), i + 1))
      && (forall k :: 0 <= k < |steps| ==> StepAt(toks, i + 1 + 2 * k, steps[k]))
      && r.next == i + 1 + 2 * |steps|
      && !IsOperator(toks[r.next].kind)
  {
    var p := PrimaryAt(toks, i).value;
    ExprTailReads(toks, p.node, p.next);
    FoldOfSpine(ExprAt(toks, i).value.node);
  }

  // Statements.

  /** parse_let: the name is the text of the token after `let`; k operators take 4 + 2k + 1 tokens. */
  lemma LetShape(toks: seq<Tok.Token>, i: nat)
    requires LetAt(toks, i).Ok?
    ensures var r := LetAt(toks, i).value;
      && r.node.Let? && r.node.name == toks[i + 1].value && IsStatement(r.node)
      && r.node.expr == ExprAt(toks, i + 3).value.node
      && r.next == i + 4 + 2 * OpCount(r.node) + 1
  {
    ExprShape(toks, i + 3);
  }

  /** parse_exit: k operators take 2 + 2k + 1 tokens. */
  lemma ExitShape(toks: seq<Tok.Token>, i: nat)
    requires ExitAt(toks, i).Ok?
    ensures var r := ExitAt(toks, i).value;
      && r.node.Exit? && IsStatement(r.node)
      && r.node.expr == ExprAt(toks, i + 1).value.node
      && r.next == i + 2 + 2 * OpCount(r.node) + 1
  {
    ExprShape(toks, i + 1);
  }

  /** Changing tokens at or past where parse_expr stopped, other than into an operator, changes nothing. */
  lemma {:induction false} ExprTailLocal(toks: seq<Tok.Token>, toks2: seq<Tok.Token>, lhs: Node, i: nat)
    requires ExprTail(toks, lhs, i).Ok?
    requires ExprTail(toks, lhs, i).value.next < |toks2|
    requires forall k :: i <= k < ExprTail(toks, lhs, i).value.next ==> toks2[k] == toks[k]
    requires !IsOperator(toks2[ExprTail(toks, lhs, i).value.next].kind)
    ensures ExprTail(toks2, lhs, i) == ExprTail(toks, lhs, i)
    decreases |toks| - i
  {
    if IsOperator(toks[i].kind) {
      var rhs := PrimaryAt(toks, i + 1).value;
      assert PrimaryAt(toks2, i + 1) == PrimaryAt(toks, i + 1);
      ExprTailLocal(toks, toks2, BinExpr(toks[i].value, lhs, rhs.node), rhs.next);
    }
  }

  /** parse_let never looks at the kinds of the '=' and ';' positions. */
  lemma LetIgnoresSeparators(toks: seq<Tok.Token>, i: nat, eq: Tok.Token, semi: Tok.Token)
    requires LetAt(toks, i).Ok?
    requires !IsOperator(semi.kind)
    ensures var j := LetAt(toks, i).value.next;
      LetAt(toks[i + 2 := eq][j - 1 := semi], i) == LetAt(toks, i)
  {
    var j := LetAt(toks, i).value.next;
    var toks2 := toks[i + 2 := eq][j - 1 := semi];
    var p := PrimaryAt(toks, i + 3).value;
    ExprTailReads(toks, p.node, p.next);
    assert PrimaryAt(toks2, i + 3) == PrimaryAt(toks, i + 3);
    ExprTailLocal(toks, toks2, p.node, p.next);
  }

  /** parse_exit never looks at the kind of the ';' position. */
  lemma ExitIgnoresTerminator(toks: seq<Tok.Token>, i: nat, semi: Tok.Token)
    requires ExitAt(toks, i).Ok?
    requires !IsOperator(semi.kind)
    ensures var j := ExitAt(toks, i).value.next;
      ExitAt(toks[j - 1 := semi], i) == ExitAt(toks, i)
  {
    var j := ExitAt(toks, i).value.next;
    var toks2 := toks[j - 1 := semi];
    var p := PrimaryAt(toks, i + 1).value;
    ExprTailReads(toks, p.node, p.next);
    assert PrimaryAt(toks2, i + 1) == PrimaryAt(toks, i + 1);
    ExprTailLocal(toks, toks2, p.node, p.next);
  }

  // Programs.

  /** Statements collected earlier stay in front, in order; every new one is a let or an exit. */
  lemma {:induction false} ProgramShape(toks: seq<Tok.Token>, i: nat, acc: seq<Node>, rejectUnexpected: bool)
    requires ProgramFrom(toks, i, acc, rejectUnexpected).Ok?
    ensures var stmts := ProgramFrom(toks, i, acc, rejectUnexpected).value;
      && |acc| <= |stmts| && stmts[..|acc|] == acc
      && forall k :: |acc| <= k < |stmts| ==> IsStatement(stmts[k])
    decreases |toks| - i
  {
    if toks[i].kind == Tok.Let || toks[i].kind == Tok.Exit {
      var s := StatementAt(toks, i).value;
      if toks[i].kind == Tok.Let {
        LetShape(toks, i);
      } else {
        ExitShape(toks, i);
      }
      assert IsStatement(s.node);
      assert ProgramFrom(toks, i, acc, rejectUnexpected) == ProgramFrom(toks, s.next, acc + [s.node], rejectUnexpected);
      ProgramShape(toks, s.next, acc + [s.node], rejectUnexpected);
      StatementsExtend(acc, s.node, ProgramFrom(toks, i, acc, rejectUnexpected).value);
    }
  }

  /** A statement appended to acc, in front of statements that are all grammar statements. */
  lemma StatementsExtend(acc: seq<Node>, s: Node, stmts: seq<Node>)
    requires |acc| + 1 <= |stmts| && stmts[..|acc| + 1] == acc + [s] && IsStatement(s)
    requires forall k :: |acc| + 1 <= k < |stmts| ==> IsStatement(stmts[k])
    ensures stmts[..|acc|] == acc
    ensures forall k :: |acc| <= k < |stmts| ==> IsStatement(stmts[k])
  {
    assert stmts[..|acc|] == stmts[..|acc| + 1][..|acc|];
    assert stmts[|acc|] == (acc + [s])[|acc|];
  }

  /** The collected prefix only ever gets prepended: the statements parsed from i do not depend on it. */
  lemma {:induction false} ProgramPrefix(toks: seq<Tok.Token>, i: nat, acc: seq<Node>, rejectUnexpected: bool)
    ensures var r := ProgramFrom(toks, i, [], rejectUnexpected);
      ProgramFrom(toks, i, acc, rejectUnexpected) == if r.Ok? then Ok(acc + r.value) else r
    decreases |toks| - i
  {
    if i < |toks| && (toks[i].kind == Tok.Let || toks[i].kind == Tok.Exit) && StatementAt(toks, i).Ok? {
      var p := StatementAt(toks, i).value;
      ProgramPrefix(toks, p.next, acc + [p.node], rejectUnexpected);
      ProgramPrefix(toks, p.next, [p.node], rejectUnexpected);
      assert [] + [p.node] == [p.node];
      var r := ProgramFrom(toks, p.next, [], rejectUnexpected);
      if r.Ok? {
        assert acc + [p.node] + r.value == acc + ([p.node] + r.value);
      }
    } else {
      assert acc + [] == acc;
    }
  }

  /** How a parse_program result reads when the header-only loop spins instead of throwing. */
  function AsHeaderOnly(r: Result<seq<Node>, ParseError>): Result<seq<Node>, ParseError> {
    if r.Err? && r.error.UnexpectedToken? then Err(Spins(r.error.at)) else r
  }

  /**
    The two parse_program variants accept the same programs with the same
    result; where the canonical one throws on an unexpected statement start,
    the header-only one spins at the same index; every other error is shared.
  */
  lemma {:induction false} HeaderOnlyAgrees(toks: seq<Tok.Token>, i: nat, acc: seq<Node>)
    ensures ProgramFrom(toks, i, acc, false) == AsHeaderOnly(ProgramFrom(toks, i, acc, true))
    ensures !(ProgramFrom(toks, i, acc, true).Err? && ProgramFrom(toks, i, acc, true).error.Spins?)
    decreases |toks| - i
  {
    if i < |toks| && (toks[i].kind == Tok.Let || toks[i].kind == Tok.Exit) && StatementAt(toks, i).Ok? {
      var s := StatementAt(toks, i).value;
      HeaderOnlyAgrees(toks, s.next, acc + [s.node]);
    }
  }

  /**
    On the tokens of the line x; the header-only loop stays on the first
    token for ever, while the canonical loop reports it.
  */
  lemma HeaderOnlySpinsOnBareExpression()
    ensures var toks := [Tok.Token(Tok.Ident, "x"), Tok.Token(Tok.Semi, ";"), Tok.Token(Tok.Eof, "")];
      ProgramFrom(toks, 0, [], false) == Err(Spins(0))
      && ProgramFrom(toks, 0, [], true) == Err(UnexpectedToken(0))
  {
  }

  // Operators.

  /** Every operator token's text is one of + - * /, as the tokenizer guarantees. */
  predicate OperatorTexts(toks: seq<Tok.Token>) {
    forall k :: 0 <= k < |toks| && IsOperator(toks[k].kind) ==> IsKnownOp(toks[k].value)
  }

  lemma {:induction false} ExprTailOps(toks: seq<Tok.Token>, lhs: Node, i: nat)
    requires OperatorTexts(toks) && OpsKnown(lhs)
    requires ExprTail(toks, lhs, i).Ok?
    ensures OpsKnown(ExprTail(toks, lhs, i).value.node)
    decreases |toks| - i
  {
    if IsOperator(toks[i].kind) {
      var rhs := PrimaryAt(toks, i + 1).value;
      ExprTailOps(toks, BinExpr(toks[i].value, lhs, rhs.node), rhs.next);
    }
  }

  /** Every BinExpr op the parser builds is the text of an operator token, hence one of + - * /. */
  lemma {:induction false} ProgramOps(toks: seq<Tok.Token>, i: nat, acc: seq<Node>, rejectUnexpected: bool)
    requires OperatorTexts(toks)
    requires forall k :: 0 <= k < |acc| ==> OpsKnown(acc[k])
    requires ProgramFrom(toks, i, acc, rejectUnexpected).Ok?
    ensures var stmts := ProgramFrom(toks, i, acc, rejectUnexpected).value;
      forall k :: 0 <= k < |stmts| ==> OpsKnown(stmts[k])
    decreases |toks| - i
  {
    if toks[i].kind == Tok.Let || toks[i].kind == Tok.Exit {
      var e := if toks[i].kind == Tok.Let then i + 3 else i + 1;
      var p := PrimaryAt(toks, e).value;
      ExprTailOps(toks, p.node, p.next);
      var s := StatementAt(toks, i).value;
      ProgramOps(toks, s.next, acc + [s.node], rejectUnexpected);
    }
  }

  // Literals.

  /** On a run of digits std::stoi yields the run's decimal value, or fails when it does not fit an int. */
  lemma StoiOfDigits(s: string)
    requires |s| > 0 && Tok.AllDigits(s)
    ensures Stoi(s) == if DecimalValue(s) <= IntMax then Some(DecimalValue(s)) else None
  {
    assert SkipSpaces(s, 0) == 0;
    var end := Tok.DigitRunEnd(s, 0);
    assert end == |s|;
    assert s[0..end] == s;
  }

  /** Parsing is a function of the token vector: two fresh parsers over it agree. */
  method ParseIsDeterministic(toks: seq<Tok.Token>)
    returns (first: Result<seq<Node>, ParseError>, second: Result<seq<Node>, ParseError>)
    ensures first == second
  {
    var p1 := new Parser(toks);
    first := p1.ParseProgram();
    var p2 := new Parser(toks);
    second := p2.ParseProgram();
  }
}
