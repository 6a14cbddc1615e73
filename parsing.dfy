/**
  The recursive-descent parser. A cursor over the token vector is advanced by
  Consume; ParseExpr folds operators to the left with no precedence; ParseLet
  and ParseExit consume the '=' and ';' positions without looking at them.

  The source indexes the token vector without a bounds check. Here every read
  at or beyond its end is the explicit error PastEnd: a statement cut off by
  the end marker (`exit 5`) consumes the marker as its ';' and the next read
  fails this way.

  The spec functions (PrimaryAt … ProgramFrom) say what each parse routine
  computes from a start position; the Parser class methods are proved to
  compute exactly that.
*/
module Parsing {
  import opened Wrappers
  import opened Ast
  import Tok = Tokenization

  datatype ParseError =
    | PastEnd                   // a read of the token vector at or beyond its end
    | ExpectedPrimary(at: nat)  // parse_primary saw neither an integer literal nor an identifier
    | BadIntLit(at: nat)        // std::stoi rejected the literal's text
    | UnexpectedToken(at: nat)  // parse_program saw a statement start other than let, exit or the end marker
    | Spins(at: nat)            // header-only parse_program: the loop would repeat forever at this index

  /** A parse routine's value and the cursor position after it. */
  datatype Parsed<T> = Parsed(node: T, next: nat)

  // std::stoi on the text of an integer literal.

  /** The index of the first non-space character at or after i. */
  function SkipSpaces(s: string, i: nat): (j: nat)
    requires i <= |s|
    ensures i <= j <= |s|
    ensures forall k :: i <= k < j ==> Tok.IsSpace(s[k])
    ensures j == |s| || !Tok.IsSpace(s[j])
    decreases |s| - i
  {
    if i < |s| && Tok.IsSpace(s[i]) then SkipSpaces(s, i + 1) else i
  }

  function DigitValue(c: char): nat
    requires Tok.IsDigit(c)
  {
    c as nat - '0' as nat
  }

  /** The value of a run of decimal digits, most significant first. */
  function DecimalValue(ds: string): nat
    requires Tok.AllDigits(ds)
  {
    if ds == [] then 0
    else 10 * DecimalValue(ds[..|ds| - 1]) + DigitValue(ds[|ds| - 1])
  }

  /**
    std::stoi: leading whitespace, an optional sign, then at least one digit;
    the longest digit prefix is converted and the rest ignored. No digit, or a
    value outside the int range, makes it throw (None).
  */
  function Stoi(s: string): Option<Int32> {
    var i := SkipSpaces(s, 0);
    var negative := i < |s| && s[i] == '-';
    var start := if i < |s| && (s[i] == '-' || s[i] == '+') then i + 1 else i;
    var end := Tok.DigitRunEnd(s, start);
    if end == start then None
    else
      var magnitude: int := DecimalValue(s[start..end]);
      var v: int := if negative then -magnitude else magnitude;
      if IntMin <= v <= IntMax then Some(v) else None
  }

  // What each parse routine computes from a start position i.

  predicate IsOperator(k: Tok.TokenType) {
    k == Tok.Plus || k == Tok.Minus || k == Tok.Star || k == Tok.Slash
  }

  /** parse_primary */
  function PrimaryAt(toks: seq<Tok.Token>, i: nat): (r: Result<Parsed<Node>, ParseError>)
    ensures r.Err? ==> r.error.PastEnd? || r.error.ExpectedPrimary? || r.error.BadIntLit?
    ensures r.Ok? ==> i < |toks| && r.value.next == i + 1 && IsPrimary(r.value.node)
  {
    if i >= |toks| then Err(PastEnd)
    else if toks[i].kind == Tok.IntLit then
      match Stoi(toks[i].value)
      case Some(v) => Ok(Parsed(IntLit(v), i + 1))
      case None => Err(BadIntLit(i))
    else if toks[i].kind == Tok.Ident then Ok(Parsed(Ident(toks[i].value), i + 1))
    else Err(ExpectedPrimary(i))
  }

  /** The loop of parse_expr, entered with lhs already parsed and the cursor at i. */
  function ExprTail(toks: seq<Tok.Token>, lhs: Node, i: nat): (r: Result<Parsed<Node>, ParseError>)
    ensures r.Err? ==> r.error.PastEnd? || r.error.ExpectedPrimary? || r.error.BadIntLit?
    ensures r.Ok? ==> i <= r.value.next < |toks|
    decreases |toks| - i
  {
    if i >= |toks| then Err(PastEnd)
    else if !IsOperator(toks[i].kind) then Ok(Parsed(lhs, i))
    else
      match PrimaryAt(toks, i + 1)
      case Ok(rhs) => ExprTail(toks, BinExpr(toks[i].value, lhs, rhs.node), rhs.next)
      case Err(e) => Err(e)
  }

  /** parse_expr */
  function ExprAt(toks: seq<Tok.Token>, i: nat): (r: Result<Parsed<Node>, ParseError>)
    ensures r.Err? ==> r.error.PastEnd? || r.error.ExpectedPrimary? || r.error.BadIntLit?
    ensures r.Ok? ==> i < r.value.next < |toks|
  {
    match PrimaryAt(toks, i)
    case Ok(p) => ExprTail(toks, p.node, p.next)
    case Err(e) => Err(e)
  }

  /** parse_let: `let`, the name, one unchecked token, the expression, one unchecked token. */
  function LetAt(toks: seq<Tok.Token>, i: nat): (r: Result<Parsed<Node>, ParseError>)
    ensures r.Err? ==> r.error.PastEnd? || r.error.ExpectedPrimary? || r.error.BadIntLit?
    ensures r.Ok? ==> i < r.value.next <= |toks|
  {
    if i + 2 >= |toks| then Err(PastEnd)
    else
      match ExprAt(toks, i + 3)
      case Ok(e) => Ok(Parsed(Let(toks[i + 1].value, e.node), e.next + 1))
      case Err(err) => Err(err)
  }

  /** parse_exit: `exit`, the expression, one unchecked token. */
  function ExitAt(toks: seq<Tok.Token>, i: nat): (r: Result<Parsed<Node>, ParseError>)
    ensures r.Err? ==> r.error.PastEnd? || r.error.ExpectedPrimary? || r.error.BadIntLit?
    ensures r.Ok? ==> i < r.value.next <= |toks|
  {
    if i >= |toks| then Err(PastEnd)
    else
      match ExprAt(toks, i + 1)
      case Ok(e) => Ok(Parsed(Exit(e.node), e.next + 1))
      case Err(err) => Err(err)
  }

  /** The statement parse_program dispatches to on a let or exit keyword. */
  function StatementAt(toks: seq<Tok.Token>, i: nat): (r: Result<Parsed<Node>, ParseError>)
    requires i < |toks| && (toks[i].kind == Tok.Let || toks[i].kind == Tok.Exit)
    ensures r.Ok? ==> i < r.value.next <= |toks|
    ensures r.Err? ==> r.error.PastEnd? || r.error.ExpectedPrimary? || r.error.BadIntLit?
  {
    if toks[i].kind == Tok.Let then LetAt(toks, i) else ExitAt(toks, i)
  }

  /**
    The statement loop of parse_program from position i, with the statements
    acc already collected. rejectUnexpected selects the canonical loop, which
    throws on a statement start other than let/exit/end marker; the
    header-only loop has no such branch and never gets past that token.
  */
  function ProgramFrom(toks: seq<Tok.Token>, i: nat, acc: seq<Node>, rejectUnexpected: bool)
    : Result<seq<Node>, ParseError>
    decreases |toks| - i
  {
    if i >= |toks| then Err(PastEnd)
    else if toks[i].kind == Tok.Eof then Ok(acc)
    else if toks[i].kind == Tok.Let || toks[i].kind == Tok.Exit then
      match StatementAt(toks, i)
      case Ok(s) => ProgramFrom(toks, s.next, acc + [s.node], rejectUnexpected)
      case Err(e) => Err(e)
    else if rejectUnexpected then Err(UnexpectedToken(i))
    else Err(Spins(i))
  }

  /** A parse routine's result and final cursor agree with its spec function. */
  predicate Agrees<T(==)>(r: Result<T, ParseError>, index: nat, spec: Result<Parsed<T>, ParseError>) {
    match spec
    case Ok(p) => r == Ok(p.node) && index == p.next
    case Err(e) => r == Err(e)
  }

  /** The parser: the token vector and the cursor m_index. */
  class Parser {
    const tokens: seq<Tok.Token>
    var index: nat

    ghost predicate Valid()
      reads this
    {
      index <= |tokens|
    }

    constructor (tokens: seq<Tok.Token>)
      ensures Valid() && this.tokens == tokens && index == 0
    {
      this.tokens := tokens;
      index := 0;
    }

    /** check: whether the token under the cursor has type t. */
    method Check(t: Tok.TokenType) returns (r: Result<bool, ParseError>)
      requires Valid()
      ensures r == if index < |tokens| then Ok(tokens[index].kind == t) else Err(PastEnd)
    {
      if index < |tokens| {
        r := Ok(tokens[index].kind == t);
      } else {
        r := Err(PastEnd);
      }
    }

    /** match: the same test as check. */
    method Match(t: Tok.TokenType) returns (r: Result<bool, ParseError>)
      requires Valid()
      ensures r == if index < |tokens| then Ok(tokens[index].kind == t) else Err(PastEnd)
    {
      r := Check(t);
    }

    /** consume: the token under the cursor, and the cursor moves past it. */
    method Consume() returns (r: Result<Tok.Token, ParseError>)
      requires Valid()
      modifies this
      ensures Valid()
      ensures old(index) < |tokens| ==> r == Ok(tokens[old(index)]) && index == old(index) + 1
      ensures old(index) == |tokens| ==> r == Err(PastEnd) && index == old(index)
    {
      if index < |tokens| {
        r := Ok(tokens[index]);
        index := index + 1;
      } else {
        r := Err(PastEnd);
      }
    }

    method ParsePrimary() returns (r: Result<Node, ParseError>)
      requires Valid()
      modifies this
      ensures Valid() && old(index) <= index
      ensures Agrees(r, index, PrimaryAt(tokens, old(index)))
    {
      var isLit :- Check(Tok.IntLit);
      if isLit {
        var t := Consume();
        match Stoi(t.value.value) {
          case Some(v) => return Ok(IntLit(v));
          case None => return Err(BadIntLit(index - 1));
        }
      }
      var isIdent := Check(Tok.Ident);
      if isIdent.value {
        var t := Consume();
        return Ok(Ident(t.value.value));
      }
      return Err(ExpectedPrimary(index));
    }

    method ParseExpr() returns (r: Result<Node, ParseError>)
      requires Valid()
      modifies this
      ensures Valid() && old(index) <= index
      ensures Agrees(r, index, ExprAt(tokens, old(index)))
    {
      var lhs :- ParsePrimary();
      while true
        invariant Valid() && old(index) <= index
        invariant ExprAt(tokens, old(index)) == ExprTail(tokens, lhs, index)
        decreases |tokens| - index
      {
        var plus :- Check(Tok.Plus);
        var minus := Check(Tok.Minus);
        var star := Check(Tok.Star);
        var slash := Check(Tok.Slash);
        if !(plus || minus.value || star.value || slash.value) {
          return Ok(lhs);
        }
        var op := Consume();
        var rhs :- ParsePrimary();
        lhs := BinExpr(op.value.value, lhs, rhs);
      }
    }

    method ParseLet() returns (r: Result<Node, ParseError>)
      requires Valid()
      modifies this
      ensures Valid() && old(index) <= index
      ensures Agrees(r, index, LetAt(tokens, old(index)))
    {
      var keyword :- Consume();
      var name :- Consume();
      var equals :- Consume();
      var e :- ParseExpr();
      var semicolon := Consume();
      return Ok(Let(name.value, e));
    }

    method ParseExit() returns (r: Result<Node, ParseError>)
      requires Valid()
      modifies this
      ensures Valid() && old(index) <= index
      ensures Agrees(r, index, ExitAt(tokens, old(index)))
    {
      var keyword :- Consume();
      var e :- ParseExpr();
      var semicolon := Consume();
      return Ok(Exit(e));
    }

    /** The statement loop shared by both parse_program variants. */
    method ParseStatements(rejectUnexpected: bool) returns (r: Result<seq<Node>, ParseError>)
      requires Valid()
      modifies this
      ensures Valid() && old(index) <= index
      ensures r == ProgramFrom(tokens, old(index), [], rejectUnexpected)
    {
      var stmts: seq<Node> := [];
      while true
        invariant Valid() && old(index) <= index
        invariant ProgramFrom(tokens, old(index), [], rejectUnexpected)
               == ProgramFrom(tokens, index, stmts, rejectUnexpected)
        decreases |tokens| - index
      {
        var atEnd :- Match(Tok.Eof);
        if atEnd {
          return Ok(stmts);
        }
        var isLet := Check(Tok.Let);
        if isLet.value {
          var s :- ParseLet();
          stmts := stmts + [s];
        } else {
          var isExit := Check(Tok.Exit);
          if isExit.value {
            var s :- ParseExit();
            stmts := stmts + [s];
          } else if rejectUnexpected {
            return Err(UnexpectedToken(index));
          } else {
            return Err(Spins(index));
          }
        }
      }
    }

    /** parse_program of the canonical parser. */
    method ParseProgram() returns (r: Result<seq<Node>, ParseError>)
      requires Valid()
      modifies this
      ensures Valid() && old(index) <= index
      ensures r == ProgramFrom(tokens, old(index), [], true)
    {
      r := ParseStatements(true);
    }

    /** parse_program of the header-only parser, whose loop has no error branch. */
    method ParseProgramHeaderOnly() returns (r: Result<seq<Node>, ParseError>)
      requires Valid()
      modifies this
      ensures Valid() && old(index) <= index
      ensures r == ProgramFrom(tokens, old(index), [], false)
    {
      r := ParseStatements(false);
    }
  }
}
