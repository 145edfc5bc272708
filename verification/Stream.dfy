/** Reading from a byte stream, stated on the bytes still to come: what the buffered reader must compute. */
module Stream {
  import opened Bytes

  /** What surrounds a reader: the size of its buffer and the error its source ends with. */
  datatype Env = Env(cap: nat, end: Error)

  datatype Decoded<+T> = Ok(value: T, rest: bytes) | Bad(error: Error)

  /** Reader.ReadSlice on the bytes still to come: the line must fit in the buffer. */
  function ReadSlice(s: bytes, delim: byte, env: Env): (d: Decoded<bytes>)
    ensures d.Ok? ==> s == d.value + d.rest && |d.value| > 0
  {
    var k := IndexOf(s, delim);
    if k < |s| && k < env.cap then Ok(s[..k + 1], s[k + 1..])
    else if |s| >= env.cap then Bad(BufferFull)
    else Bad(env.end)
  }

  /** Reader.ReadBytes: the line may be any length. */
  function ReadBytes(s: bytes, delim: byte, env: Env): (d: Decoded<bytes>)
    ensures d.Ok? ==> s == d.value + d.rest && |d.value| > 0
  {
    var k := IndexOf(s, delim);
    if k < |s| then Ok(s[..k + 1], s[k + 1..]) else Bad(env.end)
  }

  /** Reader.ReadFull, with the error io.ReadFull substitutes when the stream ends half way. */
  function ReadFull(s: bytes, n: nat, env: Env): (d: Decoded<bytes>)
    ensures d.Ok? ==> s == d.value + d.rest && |d.value| == n
  {
    if n <= |s| then Ok(s[..n], s[n..])
    else Bad(ShortReadError(|s|, env.end))
  }

  function ShortReadError(got: nat, end: Error): Error {
    if got > 0 && end == EOF then UnexpectedEOF else end
  }
}
