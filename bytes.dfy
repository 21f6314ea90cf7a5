/** Go strings are byte strings; the lexer works on their bytes. */
module Bytes {

  type byte = x: int | 0 <= x < 256

  const Zero: byte := '0' as int
  const Nine: byte := '9' as int
  const PlusSign: byte := '+' as int
  const MinusSign: byte := '-' as int
  const Star: byte := '*' as int
  const Slash: byte := '/' as int
  const Caret: byte := '^' as int
  const LeftParen: byte := '(' as int
  const RightParen: byte := ')' as int

  predicate IsDigit(b: byte) {
    Zero <= b <= Nine
  }

  predicate AllDigits(s: seq<byte>) {
    forall i :: 0 <= i < |s| ==> IsDigit(s[i])
  }

  /** The bytes of an ASCII string literal, for writing examples. */
  function Ascii(s: string): (r: seq<byte>)
    requires forall i :: 0 <= i < |s| ==> s[i] as int < 128
    ensures |r| == |s|
  {
    seq(|s|, i requires 0 <= i < |s| => s[i] as int)
  }
}
