/**
  The tokenizer: one left-to-right scan over the input text that produces the
  token vector the parser consumes, always terminated by a single end marker.
  Characters are classified as in the C locale (ASCII only).
*/
module Tokenization {
  import opened Wrappers

  datatype TokenType = IntLit | Ident | Plus | Minus | Star | Slash | Eq | Semi | Let | Exit | Eof

  /** A token: its type and the text it was scanned from (empty for the end marker). */
  datatype Token = Token(kind: TokenType, value: string)

  /** isspace in the C locale: space, tab, newline, vertical tab, form feed, carriage return. */
  predicate IsSpace(c: char) {
    c == ' ' || 9 <= c as int <= 13
  }

  predicate IsDigit(c: char) {
    '0' <= c <= '9'
  }

  predicate IsAlpha(c: char) {
    'a' <= c <= 'z' || 'A' <= c <= 'Z'
  }

  predicate IsAlnum(c: char) {
    IsAlpha(c) || IsDigit(c)
  }

  /** The type of the one-character token c stands for, if any. */
  function Punctuation(c: char): Option<TokenType> {
    match c
    case '+' => Some(Plus)
    case '-' => Some(Minus)
    case '*' => Some(Star)
    case '/' => Some(Slash)
    case '=' => Some(Eq)
    case ';' => Some(Semi)
    case _ => None
  }

  /** Keywords are recognised after the whole word has been scanned. */
  function WordKind(word: string): TokenType {
    if word == "let" then Let
    else if word == "exit" then Exit
    else Ident
  }

  /** The end of the maximal run of digits that starts at i. */
  function DigitRunEnd(s: string, i: nat): (j: nat)
    requires i <= |s|
    ensures i <= j <= |s|
    ensures forall k :: i <= k < j ==> IsDigit(s[k])
    ensures j == |s| || !IsDigit(s[j])
    decreases |s| - i
  {
    if i < |s| && IsDigit(s[i]) then DigitRunEnd(s, i + 1) else i
  }

  /** The end of the maximal run of letters and digits that starts at i. */
  function AlnumRunEnd(s: string, i: nat): (j: nat)
    requires i <= |s|
    ensures i <= j <= |s|
    ensures forall k :: i <= k < j ==> IsAlnum(s[k])
    ensures j == |s| || !IsAlnum(s[j])
    decreases |s| - i
  {
    if i < |s| && IsAlnum(s[i]) then AlnumRunEnd(s, i + 1) else i
  }

  /** The tokens scanned from position i to the end of s, without the end marker. */
  function ScanFrom(s: string, i: nat): seq<Token>
    requires i <= |s|
    decreases |s| - i
  {
    if i == |s| then []
    else if IsSpace(s[i]) then ScanFrom(s, i + 1)
    else if IsDigit(s[i]) then
      var j := DigitRunEnd(s, i);
      [Token(IntLit, s[i..j])] + ScanFrom(s, j)
    else if IsAlpha(s[i]) then
      var j := AlnumRunEnd(s, i);
      [Token(WordKind(s[i..j]), s[i..j])] + ScanFrom(s, j)
    else
      match Punctuation(s[i])
      case Some(t) => [Token(t, [s[i]])] + ScanFrom(s, i + 1)
      case None => ScanFrom(s, i + 1)
  }

  predicate AllDigits(w: string) {
    forall k :: 0 <= k < |w| ==> IsDigit(w[k])
  }

  /** A letter followed by letters and digits. */
  predicate IsWord(w: string) {
    |w| > 0 && IsAlpha(w[0]) && forall k :: 0 <= k < |w| ==> IsAlnum(w[k])
  }

  /** The shape of every token the scan can produce. */
  predicate WellFormed(t: Token) {
    match t.kind
    case IntLit => |t.value| > 0 && AllDigits(t.value)
    case Ident => IsWord(t.value) && t.value != "let" && t.value != "exit"
    case Let => t.value == "let"
    case Exit => t.value == "exit"
    case Eof => t.value == ""
    case _ => |t.value| == 1 && Punctuation(t.value[0]) == Some(t.kind)
  }

  /** The characters that end up in some token's text. */
  predicate IsKept(c: char) {
    IsAlnum(c) || Punctuation(c).Some?
  }

  /** s with whitespace and unrecognised characters removed, order kept. */
  function Kept(s: string): (r: string)
    ensures |r| <= |s|
  {
    if s == [] then []
    else (if IsKept(s[0]) then [s[0]] else []) + Kept(s[1..])
  }

  /** The concatenated texts of a token sequence. */
  function Values(ts: seq<Token>): string {
    if ts == [] then [] else ts[0].value + Values(ts[1..])
  }

  /** The whole token vector for an input text. */
  function Tokens(input: string): (r: seq<Token>)
    ensures |r| >= 1 && r[|r| - 1] == Token(Eof, "")
    ensures forall k :: 0 <= k < |r| - 1 ==> r[k].kind != Eof
    ensures forall k :: 0 <= k < |r| ==> WellFormed(r[k])
    ensures |r| <= |input| + 1
    ensures Values(r[..|r| - 1]) == Kept(input)
  {
    ScanWellFormed(input, 0);
    ScanLength(input, 0);
    ScanValues(input, 0);
    var r := ScanFrom(input, 0) + [Token(Eof, "")];
    assert r[..|r| - 1] == ScanFrom(input, 0);
    r
  }

  /** The inner loop over a digit run: the index just past the maximal run from start. */
  method SkipDigits(input: string, start: nat) returns (i: nat)
    requires start <= |input|
    ensures i == DigitRunEnd(input, start)
  {
    i := start;
    while i < |input| && IsDigit(input[i])
      invariant start <= i <= DigitRunEnd(input, start)
    {
      i := i + 1;
    }
  }

  /** The inner loop over a word: the index just past the maximal letter/digit run from start. */
  method SkipAlnums(input: string, start: nat) returns (i: nat)
    requires start <= |input|
    ensures i == AlnumRunEnd(input, start)
  {
    i := start;
    while i < |input| && IsAlnum(input[i])
      invariant start <= i <= AlnumRunEnd(input, start)
    {
      i := i + 1;
    }
  }

  /** Tokenizer::tokenize: the index loop; digit and word runs are scanned by the two loops above. */
  method Tokenize(input: string) returns (tokens: seq<Token>)
    ensures tokens == Tokens(input)
  {
    tokens := [];
    var i: nat := 0;
    while i < |input|
      invariant i <= |input|
      invariant tokens + ScanFrom(input, i) == ScanFrom(input, 0)
    {
      var c := input[i];
      ghost var done := tokens;
      if IsSpace(c) {
        i := i + 1;
      } else if IsDigit(c) {
        var start := i;
        i := SkipDigits(input, start);
        var t := Token(IntLit, input[start..i]);
        ScanDigitsStep(input, start);
        tokens := tokens + [t];
        AppendAssoc(done, [t], ScanFrom(input, i));
      } else if IsAlpha(c) {
        var start := i;
        i := SkipAlnums(input, start);
        var word := input[start..i];
        var t;
        if word == "let" {
          t := Token(Let, word);
        } else if word == "exit" {
          t := Token(Exit, word);
        } else {
          t := Token(Ident, word);
        }
        ScanAlnumsStep(input, start);
        tokens := tokens + [t];
        AppendAssoc(done, [t], ScanFrom(input, i));
      } else {
        // The switch over + - * / = ; : one token whose text is the character itself.
        ScanCharStep(input, i);
        match Punctuation(c) {
          case Some(k) =>
            var t := Token(k, [c]);
            tokens := tokens + [t];
            AppendAssoc(done, [t], ScanFrom(input, i + 1));
          case None =>
        }
        i := i + 1;
      }
    }
    tokens := tokens + [Token(Eof, "")];
  }

  /** The scan at a digit: one integer token for the maximal digit run. */
  lemma ScanDigitsStep(s: string, i: nat)
    requires i < |s| && IsDigit(s[i])
    ensures ScanFrom(s, i) == [Token(IntLit, s[i..DigitRunEnd(s, i)])] + ScanFrom(s, DigitRunEnd(s, i))
  {
  }

  /** The scan at a letter: one word token for the maximal letter/digit run. */
  lemma ScanAlnumsStep(s: string, i: nat)
    requires i < |s| && IsAlpha(s[i])
    ensures var w := s[i..AlnumRunEnd(s, i)];
      ScanFrom(s, i) == [Token(WordKind(w), w)] + ScanFrom(s, AlnumRunEnd(s, i))
  {
  }

  /** The scan at any other character that is not whitespace: one token if it is punctuation, else none. */
  lemma ScanCharStep(s: string, i: nat)
    requires i < |s| && !IsSpace(s[i]) && !IsAlnum(s[i])
    ensures ScanFrom(s, i)
         == (if Punctuation(s[i]).Some? then [Token(Punctuation(s[i]).value, [s[i]])] else []) + ScanFrom(s, i + 1)
  {
  }

  lemma AppendAssoc<T>(a: seq<T>, b: seq<T>, c: seq<T>)
    ensures (a + b) + c == a + (b + c)
  {
  }

  // Properties of the scan.

  /** Every scanned token is well formed, hence none is the end marker. */
  lemma {:induction false} ScanWellFormed(s: string, i: nat)
    requires i <= |s|
    ensures forall k :: 0 <= k < |ScanFrom(s, i)| ==>
              WellFormed(ScanFrom(s, i)[k]) && ScanFrom(s, i)[k].kind != Eof
    decreases |s| - i
  {
    if i == |s| {
    } else if IsSpace(s[i]) {
      ScanWellFormed(s, i + 1);
    } else if IsDigit(s[i]) {
      var j := DigitRunEnd(s, i);
      ScanWellFormed(s, j);
      WellFormedCons(Token(IntLit, s[i..j]), ScanFrom(s, j));
    } else if IsAlpha(s[i]) {
      var j := AlnumRunEnd(s, i);
      ScanWellFormed(s, j);
      var w := s[i..j];
      assert IsWord(w) by {
        forall k | 0 <= k < |w| ensures IsAlnum(w[k]) {
          assert w[k] == s[i + k];
        }
      }
      WellFormedCons(Token(WordKind(w), w), ScanFrom(s, j));
    } else {
      ScanWellFormed(s, i + 1);
      if Punctuation(s[i]).Some? {
        WellFormedCons(Token(Punctuation(s[i]).value, [s[i]]), ScanFrom(s, i + 1));
      }
    }
  }

  lemma WellFormedCons(t: Token, ts: seq<Token>)
    requires WellFormed(t) && t.kind != Eof
    requires forall k :: 0 <= k < |ts| ==> WellFormed(ts[k]) && ts[k].kind != Eof
    ensures forall k :: 0 <= k < |[t] + ts| ==> WellFormed(([t] + ts)[k]) && ([t] + ts)[k].kind != Eof
  {
    forall k | 0 <= k < |[t] + ts|
      ensures WellFormed(([t] + ts)[k]) && ([t] + ts)[k].kind != Eof
    {
      if k > 0 {
        assert ([t] + ts)[k] == ts[k - 1];
      }
    }
  }

  /** At most one token per input character. */
  lemma {:induction false} ScanLength(s: string, i: nat)
    requires i <= |s|
    ensures |ScanFrom(s, i)| <= |s| - i
    decreases |s| - i
  {
    if i == |s| {
    } else if IsSpace(s[i]) {
      ScanLength(s, i + 1);
    } else if IsDigit(s[i]) {
      ScanLength(s, DigitRunEnd(s, i));
    } else if IsAlpha(s[i]) {
      ScanLength(s, AlnumRunEnd(s, i));
    } else {
      ScanLength(s, i + 1);
    }
  }

  lemma {:induction false} KeptAppend(a: string, b: string)
    ensures Kept(a + b) == Kept(a) + Kept(b)
    decreases |a|
  {
    if a == [] {
      assert a + b == b;
    } else {
      var head := if IsKept(a[0]) then [a[0]] else [];
      assert (a + b)[0] == a[0];
      assert (a + b)[1..] == a[1..] + b;
      assert Kept(a + b) == head + Kept(a[1..] + b);
      assert Kept(a) == head + Kept(a[1..]);
      KeptAppend(a[1..], b);
      AppendAssoc(head, Kept(a[1..]), Kept(b));
    }
  }

  lemma {:induction false} KeptAlnum(w: string)
    requires forall k :: 0 <= k < |w| ==> IsAlnum(w[k])
    ensures Kept(w) == w
    decreases |w|
  {
    if w != [] {
      KeptAlnum(w[1..]);
    }
  }

  lemma ValuesCons(t: Token, ts: seq<Token>)
    ensures Values([t] + ts) == t.value + Values(ts)
  {
    assert ([t] + ts)[1..] == ts;
  }

  /** The token texts, concatenated, are the input without whitespace and unrecognised characters. */
  lemma {:induction false} ScanValues(s: string, i: nat)
    requires i <= |s|
    ensures Values(ScanFrom(s, i)) == Kept(s[i..])
    decreases |s| - i
  {
    if i < |s| {
      if IsSpace(s[i]) || (!IsDigit(s[i]) && !IsAlpha(s[i])) {
        ScanValues(s, i + 1);
        ScanValuesOne(s, i);
      } else {
        var j := if IsDigit(s[i]) then DigitRunEnd(s, i) else AlnumRunEnd(s, i);
        ScanValues(s, j);
        ScanValuesRun(s, i, j);
      }
    }
  }

  /** One step of ScanValues over a character that is skipped or is one punctuation token. */
  lemma ScanValuesOne(s: string, i: nat)
    requires i < |s| && (IsSpace(s[i]) || (!IsDigit(s[i]) && !IsAlpha(s[i])))
    requires Values(ScanFrom(s, i + 1)) == Kept(s[i + 1..])
    ensures Values(ScanFrom(s, i)) == Kept(s[i..])
  {
    assert s[i..] == [s[i]] + s[i + 1..];
    KeptAppend([s[i]], s[i + 1..]);
    if !IsSpace(s[i]) && Punctuation(s[i]).Some? {
      ValuesCons(Token(Punctuation(s[i]).value, [s[i]]), ScanFrom(s, i + 1));
    }
  }

  /** One step of ScanValues over a digit run or a word ending at j. */
  lemma ScanValuesRun(s: string, i: nat, j: nat)
    requires i < |s| && !IsSpace(s[i]) && (IsDigit(s[i]) || IsAlpha(s[i]))
    requires j == if IsDigit(s[i]) then DigitRunEnd(s, i) else AlnumRunEnd(s, i)
    requires Values(ScanFrom(s, j)) == Kept(s[j..])
    ensures Values(ScanFrom(s, i)) == Kept(s[i..])
  {
    var w := s[i..j];
    assert s[i..] == w + s[j..];
    assert forall k :: 0 <= k < |w| ==> IsAlnum(w[k]) by {
      forall k | 0 <= k < |w| ensures IsAlnum(w[k]) {
        assert w[k] == s[i + k];
      }
    }
    KeptAppend(w, s[j..]);
    KeptAlnum(w);
    var kind := if IsDigit(s[i]) then IntLit else WordKind(w);
    assert ScanFrom(s, i) == [Token(kind, w)] + ScanFrom(s, j);
    ValuesCons(Token(kind, w), ScanFrom(s, j));
  }

  /** A whitespace character produces no token; scanning resumes one character later. */
  lemma ScanSkipsSpace(s: string, i: nat)
    requires i < |s| && IsSpace(s[i])
    ensures ScanFrom(s, i) == ScanFrom(s, i + 1)
  {
  }

  /** A digit starts one integer token holding the maximal digit run. */
  lemma ScanNumber(s: string, i: nat)
    requires i < |s| && IsDigit(s[i])
    ensures exists j :: i < j <= |s| && AllDigits(s[i..j]) && (j == |s| || !IsDigit(s[j])) &&
                        ScanFrom(s, i) == [Token(IntLit, s[i..j])] + ScanFrom(s, j)
  {
    var j := DigitRunEnd(s, i);
    assert AllDigits(s[i..j]) by {
      forall k | 0 <= k < j - i ensures IsDigit(s[i..j][k]) {
        assert s[i..j][k] == s[i + k];
      }
    }
  }

  /** A letter starts one word token holding the maximal letter/digit run; its type is the keyword's or Ident. */
  lemma ScanWord(s: string, i: nat)
    requires i < |s| && IsAlpha(s[i])
    ensures exists j :: i < j <= |s| && IsWord(s[i..j]) && (j == |s| || !IsAlnum(s[j])) &&
                        ScanFrom(s, i) == [Token(WordKind(s[i..j]), s[i..j])] + ScanFrom(s, j)
  {
    var j := AlnumRunEnd(s, i);
    assert IsWord(s[i..j]) by {
      forall k | 0 <= k < j - i ensures IsAlnum(s[i..j][k]) {
        assert s[i..j][k] == s[i + k];
      }
    }
  }

  /** Each of + - * / = ; is one token whose text is that character; anything else unrecognised is dropped. */
  lemma ScanSymbol(s: string, i: nat)
    requires i < |s| && !IsSpace(s[i]) && !IsAlnum(s[i])
    ensures Punctuation(s[i]).Some? ==>
              ScanFrom(s, i) == [Token(Punctuation(s[i]).value, [s[i]])] + ScanFrom(s, i + 1)
    ensures Punctuation(s[i]).None? ==> ScanFrom(s, i) == ScanFrom(s, i + 1)
  {
  }
}
