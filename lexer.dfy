/** The lexer: bytes to a stream of typed tokens (lexer.go). */
module Lexer {
  import opened Wrappers
  import opened Bytes

  datatype TokenType = Number | Plus | Minus | Mult | Div | Pow | OpenParen | CloseParen

  /** A token and its lexeme, the exact bytes it was read from. */
  datatype Token = Token(kind: TokenType, value: seq<byte>)

  /** The one byte an operator or parenthesis token is made of. */
  function Symbol(k: TokenType): byte
    requires k != Number
  {
    match k
    case Plus => PlusSign
    case Minus => MinusSign
    case Mult => Star
    case Div => Slash
    case Pow => Caret
    case OpenParen => LeftParen
    case CloseParen => RightParen
  }

  /**
   * The switch of the lexer's main loop: the kind of the single-byte token
   * that c makes, or None when c starts a number.  It is the inverse of Symbol.
   */
  function OperatorKind(c: byte): (r: Option<TokenType>)
    ensures r.Some? ==> r.value != Number && Symbol(r.value) == c
    ensures r.None? ==> forall k: TokenType :: k != Number ==> Symbol(k) != c
  {
    if c == PlusSign then Some(Plus)
    else if c == MinusSign then Some(Minus)
    else if c == Star then Some(Mult)
    else if c == Slash then Some(Div)
    else if c == Caret then Some(Pow)
    else if c == LeftParen then Some(OpenParen)
    else if c == RightParen then Some(CloseParen)
    else None
  }

  /** The length of the run of ASCII digits at the front of s. */
  function DigitRun(s: seq<byte>): (n: nat)
    ensures n <= |s| && AllDigits(s[..n])
    ensures n == |s| || !IsDigit(s[n])
  {
    if s == [] || !IsDigit(s[0]) then 0
    else
      var n := 1 + DigitRun(s[1..]);
      assert s[..n] == [s[0]] + s[1..][..n - 1];
      n
  }

  lemma {:induction false} DigitRunUnique(s: seq<byte>, n: nat)
    requires n <= |s| && AllDigits(s[..n])
    requires n == |s| || !IsDigit(s[n])
    ensures DigitRun(s) == n
  {
    if n > 0 {
      assert IsDigit(s[..n][0]);
      assert s[1..][..n - 1] == s[..n][1..];
      DigitRunUnique(s[1..], n - 1);
    }
  }

  /**
   * The token sequence Lex produces: an operator or parenthesis byte is a
   * token of its own; any other byte starts a Number token that takes in
   * every digit that follows it.
   */
  function Tokens(s: seq<byte>): (r: seq<Token>)
    ensures |r| <= |s|
    ensures r == [] <==> s == []
    decreases |s|
  {
    if s == [] then []
    else match OperatorKind(s[0])
      case Some(k) => [Token(k, [s[0]])] + Tokens(s[1..])
      case None =>
        var n := 1 + DigitRun(s[1..]);
        [Token(Number, s[..n])] + Tokens(s[n..])
  }

  /** The lexemes of a token sequence, joined. */
  function Concat(toks: seq<Token>): seq<byte> {
    if toks == [] then [] else toks[0].value + Concat(toks[1..])
  }

  lemma {:induction false} ConcatAppend(a: seq<Token>, b: seq<Token>)
    ensures Concat(a + b) == Concat(a) + Concat(b)
  {
    if a != [] {
      assert (a + b)[1..] == a[1..] + b;
      ConcatAppend(a[1..], b);
    } else {
      assert a + b == b;
    }
  }

  /**
   * A token the lexer can produce: an operator or parenthesis is exactly its
   * symbol; a number is one byte that is not an operator, then digits.
   */
  predicate WellFormed(t: Token) {
    if t.kind == Number then
      |t.value| > 0 && OperatorKind(t.value[0]).None? && AllDigits(t.value[1..])
    else
      t.value == [Symbol(t.kind)]
  }

  /** A token that may follow a Number token: one that does not start with a digit. */
  predicate StartsWithNonDigit(t: Token) {
    t.value != [] && !IsDigit(t.value[0])
  }

  /**
   * toks is a lexing of s: the lexemes join up to s, every token is well
   * formed, and no number is followed by a token that begins with a digit
   * (the number would have taken that digit in).
   */
  predicate IsLexingOf(toks: seq<Token>, s: seq<byte>) {
    && Concat(toks) == s
    && (forall i :: 0 <= i < |toks| ==> WellFormed(toks[i]))
    && (forall i :: 0 <= i < |toks| - 1 && toks[i].kind == Number ==> StartsWithNonDigit(toks[i + 1]))
  }

  /** Every input byte ends up in exactly one lexeme, in order. */
  lemma {:induction false} ConcatTokens(s: seq<byte>)
    ensures Concat(Tokens(s)) == s
    decreases |s|
  {
    if s != [] {
      match OperatorKind(s[0])
      case Some(k) =>
        ConcatTokens(s[1..]);
        assert s == [s[0]] + s[1..];
      case None =>
        var n := 1 + DigitRun(s[1..]);
        ConcatTokens(s[n..]);
        assert s == s[..n] + s[n..];
    }
  }

  /** Tokens(s) is a lexing of s: well-formed tokens, numbers munched maximally. */
  lemma {:induction false} TokensLexS(s: seq<byte>)
    ensures IsLexingOf(Tokens(s), s)
    decreases |s|
  {
    ConcatTokens(s);
    if s != [] {
      var r := Tokens(s);
      match OperatorKind(s[0])
      case Some(k) =>
        TokensLexS(s[1..]);
        assert r[1..] == Tokens(s[1..]);
      case None =>
        var n := 1 + DigitRun(s[1..]);
        TokensLexS(s[n..]);
        assert r[1..] == Tokens(s[n..]);
        assert r[0].value[1..] == s[1..][..n - 1];
        if |r| > 1 {
          ConcatTokens(s[n..]);
          assert s[n..] != [];
          assert r[1].value[0] == s[n] by {
            assert Concat(r[1..]) == r[1].value + Concat(r[2..]);
          }
          assert s[n] == s[1..][n - 1];
        }
    }
  }

  /** The lexing of a byte string is unique: it is the one Tokens gives. */
  lemma {:induction false} LexingIsUnique(toks: seq<Token>, s: seq<byte>)
    requires IsLexingOf(toks, s)
    ensures toks == Tokens(s)
    decreases |toks|
  {
    if toks == [] {
      assert s == [];
    } else {
      var m := |toks[0].value|;
      LexingOfRest(toks, s);
      LexingIsUnique(toks[1..], s[m..]);
      if toks[0].kind == Number {
        NumberHead(toks, s);
      } else {
        assert OperatorKind(s[0]) == Some(toks[0].kind);
      }
    }
  }

  /** Dropping the first token of a lexing leaves a lexing of the bytes after its lexeme. */
  lemma LexingOfRest(toks: seq<Token>, s: seq<byte>)
    requires IsLexingOf(toks, s) && toks != []
    ensures |toks[0].value| <= |s| && s[..|toks[0].value|] == toks[0].value
    ensures IsLexingOf(toks[1..], s[|toks[0].value|..])
  {
    assert s == toks[0].value + Concat(toks[1..]);
    forall i | 0 <= i < |toks[1..]| ensures WellFormed(toks[1..][i]) {
      assert toks[1..][i] == toks[i + 1];
    }
  }

  /** A leading Number token of a lexing is the maximal digit run after the first byte. */
  lemma NumberHead(toks: seq<Token>, s: seq<byte>)
    requires IsLexingOf(toks, s) && toks != [] && toks[0].kind == Number
    ensures |toks[0].value| <= |s| && s[..|toks[0].value|] == toks[0].value
    ensures OperatorKind(s[0]).None? && DigitRun(s[1..]) == |toks[0].value| - 1
  {
    var t := toks[0];
    var m := |t.value|;
    assert WellFormed(t);
    assert s == t.value + Concat(toks[1..]);
    var tail := s[1..];
    assert tail[..m - 1] == t.value[1..];
    if m - 1 < |tail| {
      assert Concat(toks[1..]) == toks[1].value + Concat(toks[2..]);
      assert StartsWithNonDigit(toks[1]);
      assert tail[m - 1] == toks[1].value[0];
    }
    DigitRunUnique(tail, m - 1);
  }

  /**
   * A byte that is not an operator, followed by nothing but digits, lexes to a
   * single Number token holding all of it.
   */
  lemma NumberIsOneToken(s: seq<byte>)
    requires |s| > 0 && OperatorKind(s[0]).None? && AllDigits(s[1..])
    ensures Tokens(s) == [Token(Number, s)]
  {
    assert s[1..][..|s| - 1] == s[1..];
    DigitRunUnique(s[1..], |s| - 1);
    assert s[..|s|] == s && s[|s|..] == [];
  }

  /** A string of digits lexes to a single Number token holding all of it. */
  lemma DigitsAreOneToken(d: seq<byte>)
    requires |d| > 0 && AllDigits(d)
    ensures Tokens(d) == [Token(Number, d)]
  {
    assert IsDigit(d[0]);
    NumberIsOneToken(d);
  }

  /** The token stream the parser consumes front to back. */
  class TokenStream {
    var values: seq<Token>

    constructor (values: seq<Token>)
      ensures this.values == values
    {
      this.values := values;
    }

    method Empty() returns (b: bool)
      ensures b <==> values == []
    {
      b := |values| == 0;
    }

    /** The next token; indexing an empty stream panics. */
    method Peek() returns (t: Result<Token>)
      ensures values != [] ==> t == Ok(values[0])
      ensures values == [] ==> t == Panic(IndexOutOfRange)
    {
      if |values| == 0 {
        return Panic(IndexOutOfRange);
      }
      t := Ok(values[0]);
    }

    /** Removes and returns the next token; on an empty stream it panics and nothing changes. */
    method Pop() returns (t: Result<Token>)
      modifies this
      ensures old(values) != [] ==> t == Ok(old(values[0])) && values == old(values[1..])
      ensures old(values) == [] ==> t == Panic(IndexOutOfRange) && values == old(values)
    {
      if |values| == 0 {
        return Panic(IndexOutOfRange);
      }
      t := Ok(values[0]);
      values := values[1..];
    }
  }

  /**
   * The number branch of the lexer: starting from the lexeme [c], consumes
   * characters until a non-digit is found.
   */
  method ScanNumber(c: byte, chars0: seq<byte>) returns (val: seq<byte>, chars: seq<byte>)
    ensures |val| >= 1 && val[0] == c && val + chars == [c] + chars0
    ensures AllDigits(val[1..]) && (chars == [] || !IsDigit(chars[0]))
  {
    val := [c];
    chars := chars0;
    while |chars| > 0 && IsDigit(chars[0])
      invariant |val| >= 1 && val[0] == c && val + chars == [c] + chars0
      invariant AllDigits(val[1..])
      decreases |chars|
    {
      val := val + [chars[0]];
      chars := chars[1..];
    }
  }

  /** A maximal digit run after a non-operator byte is the first token. */
  lemma NumberStep(s: seq<byte>, val: seq<byte>, rest: seq<byte>)
    requires |val| >= 1 && val + rest == s
    requires OperatorKind(s[0]).None? && AllDigits(val[1..])
    requires rest == [] || !IsDigit(rest[0])
    ensures Tokens(s) == [Token(Number, val)] + Tokens(rest)
  {
    assert val == s[..|val|] && rest == s[|val|..];
    assert s[1..][..|val| - 1] == val[1..];
    DigitRunUnique(s[1..], |val| - 1);
  }

  /** An operator or parenthesis byte is a token by itself. */
  lemma OperatorStep(s: seq<byte>)
    requires s != [] && OperatorKind(s[0]).Some?
    ensures Tokens(s) == [Token(OperatorKind(s[0]).value, [s[0]])] + Tokens(s[1..])
  {
  }

  /** Converts a byte string into a fresh stream of tokens. */
  method Lex(s: seq<byte>) returns (tokens: TokenStream)
    ensures fresh(tokens) && tokens.values == Tokens(s)
  {
    tokens := new TokenStream([]);
    var chars := s;
    while |chars| > 0
      invariant tokens.values + Tokens(chars) == Tokens(s)
      decreases |chars|
    {
      ghost var before := chars;
      var c := chars[0];
      chars := chars[1..];

      var kind := OperatorKind(c);
      if kind.Some? {
        var token := Token(kind.value, [c]);
        OperatorStep(before);
        assert (tokens.values + [token]) + Tokens(chars) == tokens.values + ([token] + Tokens(chars));
        tokens.values := tokens.values + [token];
      } else {
        var val;
        val, chars := ScanNumber(c, chars);
        var token := Token(Number, val);
        NumberStep(before, val, chars);
        assert (tokens.values + [token]) + Tokens(chars) == tokens.values + ([token] + Tokens(chars));
        tokens.values := tokens.values + [token];
      }
    }
  }
}
