/**
  The three stages together, as the file runner and the REPL drive them: the
  text is tokenized, the tokens parsed by the canonical parser, and the
  statements evaluated by one interpreter whose bindings outlive the call.
*/
module Pipeline {
  import opened Wrappers
  import opened Ast
  import Tok = Tokenization
  import opened Parsing
  import opened ParsingProperties
  import opened Evaluation
  import opened EvaluationProperties

  /** The statements the canonical parser builds from a source text. */
  function Parse(source: string): Result<seq<Node>, ParseError> {
    ProgramFrom(Tok.Tokens(source), 0, [], true)
  }

  /** Every operator token the tokenizer emits carries one of the texts + - * /. */
  lemma TokensOperatorTexts(source: string)
    ensures OperatorTexts(Tok.Tokens(source))
  {
    var toks := Tok.Tokens(source);
    forall k | 0 <= k < |toks| && IsOperator(toks[k].kind)
      ensures IsKnownOp(toks[k].value)
    {
      assert Tok.WellFormed(toks[k]);
    }
  }

  /**
    A program parsed from text is a sequence of grammar statements, and
    evaluating it never reaches the unknown-operator error.
  */
  lemma ParsedProgramsAreWellFormed(source: string, env: Env)
    requires Parse(source).Ok?
    ensures forall k :: 0 <= k < |Parse(source).value| ==> IsStatement(Parse(source).value[k])
    ensures var o := Run(Parse(source).value, env).outcome; !o.Fail? || !o.error.UnknownOperator?
  {
    var toks := Tok.Tokens(source);
    ProgramShape(toks, 0, [], true);
    TokensOperatorTexts(source);
    ProgramOps(toks, 0, [], true);
    RunKnownOps(Parse(source).value, env, 0);
  }

  /**
    One source text through all three stages on an existing interpreter. A
    parse error evaluates nothing; otherwise the interpreter's bindings are
    those the program leaves.
  */
  method RunSource(interp: Interpreter, source: string) returns (r: Result<Outcome, ParseError>)
    modifies interp
    ensures Parse(source).Err? ==> r == Err(Parse(source).error) && interp.env == old(interp.env)
    ensures Parse(source).Ok? ==>
              var e := Run(Parse(source).value, old(interp.env));
              r == Ok(e.outcome) && interp.env == e.env
  {
    var tokens := Tok.Tokenize(source);
    var parser := new Parser(tokens);
    var program := parser.ParseProgram();
    if program.Err? {
      return Err(program.error);
    }
    var o := interp.EvalProgram(program.value);
    r := Ok(o);
  }

  // An example from source text to outcome.

  const NoPrecedenceTokens: seq<Tok.Token> := [
    Tok.Token(Tok.Exit, "exit"), Tok.Token(Tok.IntLit, "2"), Tok.Token(Tok.Plus, "+"),
    Tok.Token(Tok.IntLit, "3"), Tok.Token(Tok.Star, "*"), Tok.Token(Tok.IntLit, "4"),
    Tok.Token(Tok.Semi, ";"), Tok.Token(Tok.Eof, "")]

  /** The tokens of the text exit 2+3*4; */
  lemma ScanExample()
    ensures Tok.Tokens("exit 2+3*4;") == NoPrecedenceTokens
  {
    var s := "exit 2+3*4;";
    ScanExampleScan(s);
    var t := NoPrecedenceTokens;
    assert t[..7] + [t[7]] == t;
  }

  lemma ScanExampleScan(s: string)
    requires s == "exit 2+3*4;"
    ensures Tok.ScanFrom(s, 0) == NoPrecedenceTokens[..7]
  {
    ScanExampleTail(s);
    ScanExitWord(s);
    assert Tok.ScanFrom(s, 4) == Tok.ScanFrom(s, 5);
  }

  lemma ScanExampleTail(s: string)
    requires s == "exit 2+3*4;"
    ensures Tok.ScanFrom(s, 5) == NoPrecedenceTokens[1..7]
  {
    ScanExampleEnd(s);
    ScanDigit(s, 7);
    Tok.ScanCharStep(s, 6);
    ScanDigit(s, 5);
    assert NoPrecedenceTokens[1..7] == NoPrecedenceTokens[1..4] + NoPrecedenceTokens[4..7];
  }

  lemma ScanExampleEnd(s: string)
    requires s == "exit 2+3*4;"
    ensures Tok.ScanFrom(s, 8) == NoPrecedenceTokens[4..7]
  {
    Tok.ScanCharStep(s, 10);
    ScanDigit(s, 9);
    Tok.ScanCharStep(s, 8);
  }

  /** A lone digit at i is one integer token. */
  lemma ScanDigit(s: string, i: nat)
    requires i < |s| && Tok.IsDigit(s[i]) && (i + 1 == |s| || !Tok.IsDigit(s[i + 1]))
    ensures Tok.ScanFrom(s, i) == [Tok.Token(Tok.IntLit, [s[i]])] + Tok.ScanFrom(s, i + 1)
  {
    Tok.ScanDigitsStep(s, i);
    assert Tok.DigitRunEnd(s, i + 1) == i + 1;
    assert s[i..i + 1] == [s[i]];
  }

  lemma ScanExitWord(s: string)
    requires s == "exit 2+3*4;"
    ensures Tok.ScanFrom(s, 0) == [Tok.Token(Tok.Exit, "exit")] + Tok.ScanFrom(s, 4)
  {
    assert Tok.AlnumRunEnd(s, 4) == 4;
    assert Tok.AlnumRunEnd(s, 0) == 4;
    assert s[0..4] == "exit";
  }

  lemma StoiDigits()
    ensures Stoi("2") == Some(2) && Stoi("3") == Some(3) && Stoi("4") == Some(4)
  {
    assert DecimalValue("2") == 2 && Tok.DigitRunEnd("2", 0) == 1;
    assert DecimalValue("3") == 3 && Tok.DigitRunEnd("3", 0) == 1;
    assert DecimalValue("4") == 4 && Tok.DigitRunEnd("4", 0) == 1;
  }

  /** No precedence: 2+3*4 parses as (2+3)*4. */
  lemma ParseExample()
    ensures ProgramFrom(NoPrecedenceTokens, 0, [], true)
         == Ok([Exit(BinExpr("*", BinExpr("+", IntLit(2), IntLit(3)), IntLit(4)))])
  {
    var t := NoPrecedenceTokens;
    StoiDigits();
    var n1 := BinExpr("+", IntLit(2), IntLit(3));
    var n2 := BinExpr("*", n1, IntLit(4));
    assert ExprTail(t, n2, 6) == Ok(Parsed(n2, 6));
    assert PrimaryAt(t, 5) == Ok(Parsed(IntLit(4), 6));
    assert ExprTail(t, n1, 4) == Ok(Parsed(n2, 6));
    assert PrimaryAt(t, 3) == Ok(Parsed(IntLit(3), 4));
    assert ExprTail(t, IntLit(2), 2) == Ok(Parsed(n2, 6));
    assert PrimaryAt(t, 1) == Ok(Parsed(IntLit(2), 2));
    assert ExprAt(t, 1) == Ok(Parsed(n2, 6));
    assert StatementAt(t, 0) == Ok(Parsed(Exit(n2), 7));
    assert ProgramFrom(t, 7, [Exit(n2)], true) == Ok([Exit(n2)]);
    assert [] + [Exit(n2)] == [Exit(n2)];
  }

  /** The text exit 2+3*4; makes the process exit with code 20. */
  lemma ExitExample()
    ensures Parse("exit 2+3*4;") == Ok([Exit(BinExpr("*", BinExpr("+", IntLit(2), IntLit(3)), IntLit(4)))])
    ensures Run(Parse("exit 2+3*4;").value, map[]).outcome == Halt(20)
  {
    var program := [Exit(BinExpr("*", BinExpr("+", IntLit(2), IntLit(3)), IntLit(4)))];
    ScanExample();
    ParseExample();
    assert Parse("exit 2+3*4;") == Ok(program);
    RunExample();
  }

  lemma RunExample()
    ensures Run([Exit(BinExpr("*", BinExpr("+", IntLit(2), IntLit(3)), IntLit(4)))], map[]).outcome == Halt(20)
  {
  }
}
