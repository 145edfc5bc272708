/** Bytes, the errors the proxy's I/O code can report, and searching in byte strings. */
module Bytes {
  import opened Wrappers

  newtype byte = x: int | 0 <= x < 256

  type bytes = seq<byte>

  const CR: byte := 13
  const LF: byte := 10
  const SPACE: byte := 32
  const CRLF: bytes := [CR, LF]

  /** One constructor for each error value that the codec and its buffers return. */
  datatype Error =
    | EOF
    | UnexpectedEOF
    | Socket(code: int)
    | NoProgress
    | ShortWrite
    | BufferFull
    | BadInt
    | BadCRLFEnd
    | BadRespType(kind: byte)
    | BadArrayLen
    | BadArrayLenTooLong
    | BadBulkBytesLen
    | BadBulkBytesLenTooLong
    | BadMultiBulkLen
    | BadMultiBulkContent
    | FailedDecoder
    | FailedEncoder

  /** The position of the first `b` in `s`, or `|s|` when there is none. */
  function IndexOf(s: bytes, b: byte): (k: nat)
    ensures k <= |s|
    ensures forall i :: 0 <= i < k ==> s[i] != b
    ensures k < |s| ==> s[k] == b
  {
    if s == [] || s[0] == b then 0 else 1 + IndexOf(s[1..], b)
  }

  /** A first occurrence is determined by what it promises. */
  lemma IndexOfUnique(s: bytes, b: byte, k: nat)
    requires k < |s| && s[k] == b
    requires forall i :: 0 <= i < k ==> s[i] != b
    ensures IndexOf(s, b) == k
  {
  }

  lemma IndexOfAbsent(s: bytes, b: byte)
    requires b !in s
    ensures IndexOf(s, b) == |s|
  {
  }

  lemma Regroup(a: bytes, b: bytes, c: bytes)
    ensures a + (b + c) == (a + b) + c
  {
  }

  function Flatten(chunks: seq<bytes>): bytes
  {
    if chunks == [] then [] else chunks[0] + Flatten(chunks[1..])
  }

  lemma {:induction false} FlattenAppend(a: seq<bytes>, b: seq<bytes>)
    ensures Flatten(a + b) == Flatten(a) + Flatten(b)
  {
    if a == [] {
      assert a + b == b;
    } else {
      assert (a + b)[1..] == a[1..] + b;
      FlattenAppend(a[1..], b);
    }
  }
}
