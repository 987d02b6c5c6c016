/** Bytes as C programs see them, the failure-aware result types used throughout,
    and the few byte constants of the wire protocol. */
module Bytes {

  type Byte = x: int | 0 <= x < 256

  datatype Option<+T> = None | Some(value: T)

  datatype Result<+T, +E> = Ok(value: T) | Err(error: E)

  const CR: Byte := 13
  const LF: Byte := 10
  const DOLLAR: Byte := 36
  const STAR: Byte := 42
  const MINUS: Byte := 45
  const ZERO: Byte := 48
  const CRLF: seq<Byte> := [CR, LF]

  /** The bytes of a text in ASCII. */
  function Ascii(s: string): (r: seq<Byte>)
    requires forall i :: 0 <= i < |s| ==> s[i] < 128 as char
    ensures |r| == |s|
  {
    seq(|s|, i requires 0 <= i < |s| => s[i] as int)
  }

  predicate IsDigit(b: Byte) {
    ZERO <= b <= ZERO + 9
  }

  predicate AllDigits(s: seq<Byte>) {
    forall i :: 0 <= i < |s| ==> IsDigit(s[i])
  }

  /** Appending one after the other is appending all at once. */
  lemma RegroupFour<T>(u: seq<T>, a: seq<T>, b: seq<T>, c: seq<T>, d: seq<T>)
    ensures u + a + b + c + d == u + (a + b + c + d)
  {
    assert u + a + b == u + (a + b);
    assert u + (a + b) + c == u + (a + b + c);
  }

  lemma Regroup<T>(u: seq<T>, w: seq<T>, r: seq<T>)
    ensures (u + w) + r == u + (w + r)
  {
  }

  lemma DropFirst<T>(u: seq<T>, w: seq<T>)
    ensures (u + w)[|u|..] == w
  {
  }
}
