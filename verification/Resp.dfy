/** The RESP value type (resp.go) and the byte language it is written in: the reference encoder and decoder. */
module Resp {
  import opened Wrappers
  import opened Bytes
  import opened Numbers
  import opened Stream

  const STRING: byte := 43  // '+'
  const ERROR: byte := 45  // '-'
  const INT: byte := 58  // ':'
  const BULK: byte := 36  // '$'
  const ARRAY: byte := 42  // '*'

  const MAX_BULK_BYTES_LEN: int := 1024 * 1024 * 512
  const MAX_ARRAY_LEN: int := 1024 * 1024

  /** A nil array is not the empty array. */
  datatype Items = Nil | Items(elems: seq<Resp>)

  /** The fields of the Go struct: which of `value` and `items` counts depends on `kind`. */
  datatype Resp = Resp(kind: byte, value: Option<bytes>, items: Items)

  function NewBulkBytes(value: bytes): Resp {
    Resp(BULK, Some(value), Nil)
  }

  predicate IsText(kind: byte) {
    kind == STRING || kind == ERROR || kind == INT
  }

  predicate IsKind(kind: byte) {
    IsText(kind) || kind == BULK || kind == ARRAY
  }

  function Payload(value: Option<bytes>): bytes {
    if value.Some? then value.value else []
  }

  // ---------------------------------------------------------------- encoding

  function Line(n: int): bytes {
    FormatInt(n) + CRLF
  }

  /** Every kind in `r`, at any depth, is one of the five: exactly then encoding `r` reports no error of its own. */
  predicate Known(r: Resp)
    decreases r, 1
  {
    IsKind(r.kind) && (r.kind == ARRAY && r.items.Items? ==> AllKnown(r.items.elems))
  }

  predicate AllKnown(rs: seq<Resp>)
    decreases rs, 0
  {
    rs == [] || (Known(rs[0]) && AllKnown(rs[1..]))
  }

  /** The bytes written for `r`. An unknown kind stops the output right after its own byte. */
  function Encode(r: Resp): (s: bytes)
    ensures |s| > 0 && s[0] == r.kind
    decreases r, 1
  {
    [r.kind] +
    if IsText(r.kind) then Payload(r.value) + CRLF
    else if r.kind == BULK then EncodeBulk(r.value)
    else if r.kind == ARRAY then EncodeArray(r.items)
    else []
  }

  function EncodeBulk(value: Option<bytes>): bytes {
    if value.None? then Line(-1) else Line(|value.value|) + (value.value + CRLF)
  }

  function EncodeAll(rs: seq<Resp>): bytes
    decreases rs, 0
  {
    if rs == [] then [] else Encode(rs[0]) + if Known(rs[0]) then EncodeAll(rs[1..]) else []
  }

  function EncodeArray(items: Items): bytes
    decreases items, 1
  {
    if items.Nil? then Line(-1) else Line(|items.elems|) + EncodeAll(items.elems)
  }

  function EncodeMultiBulk(multi: Items): bytes {
    [ARRAY] + EncodeArray(multi)
  }

  // ---------------------------------------------------------------- decoding

  /** A line without its CRLF. */
  function Chomp(line: bytes): Option<bytes> {
    var n := |line| - 2;
    if n < 0 || line[n] != CR then None else Some(line[..n])
  }

  function DecodeText(s: bytes, env: Env): (d: Decoded<bytes>)
    ensures d.Ok? ==> |d.rest| < |s|
  {
    match ReadBytes(s, LF, env)
    case Bad(e) => Bad(e)
    case Ok(line, rest) =>
      match Chomp(line)
      case None => Bad(BadCRLFEnd)
      case Some(text) => Ok(text, rest)
  }

  function DecodeInt(s: bytes, env: Env): (d: Decoded<int>)
    ensures d.Ok? ==> |d.rest| < |s|
  {
    match ReadSlice(s, LF, env)
    case Bad(e) => Bad(e)
    case Ok(line, rest) =>
      match Chomp(line)
      case None => Bad(BadCRLFEnd)
      case Some(text) =>
        match ParseInt(text)
        case None => Bad(BadInt)
        case Some(n) => Ok(n, rest)
  }

  function DecodeBulk(s: bytes, env: Env): (d: Decoded<Option<bytes>>)
    ensures d.Ok? ==> |d.rest| < |s|
  {
    match DecodeInt(s, env)
    case Bad(e) => Bad(e)
    case Ok(n, rest) =>
      if n < -1 then Bad(BadBulkBytesLen)
      else if n > MAX_BULK_BYTES_LEN then Bad(BadBulkBytesLenTooLong)
      else if n == -1 then Ok(None, rest)
      else
        match ReadFull(rest, n + 2, env)
        case Bad(e) => Bad(e)
        case Ok(b, rest') =>
          if b[n] != CR || b[n + 1] != LF then Bad(BadCRLFEnd) else Ok(Some(b[..n]), rest')
  }

  /** One value. The recursion ends because every value consumes at least one byte. */
  function Decode(s: bytes, env: Env): (d: Decoded<Resp>)
    ensures d.Ok? ==> |d.rest| < |s|
    decreases |s|, 0
  {
    if s == [] then Bad(env.end)
    else if IsText(s[0]) then
      match DecodeText(s[1..], env)
      case Bad(e) => Bad(e)
      case Ok(text, rest) => Ok(Resp(s[0], Some(text), Nil), rest)
    else if s[0] == BULK then
      match DecodeBulk(s[1..], env)
      case Bad(e) => Bad(e)
      case Ok(value, rest) => Ok(Resp(BULK, value, Nil), rest)
    else if s[0] == ARRAY then
      match DecodeArray(s[1..], env)
      case Bad(e) => Bad(e)
      case Ok(items, rest) => Ok(Resp(ARRAY, None, items), rest)
    else Bad(BadRespType(s[0]))
  }

  function DecodeArray(s: bytes, env: Env): (d: Decoded<Items>)
    ensures d.Ok? ==> |d.rest| < |s|
    decreases |s|, 2
  {
    match DecodeInt(s, env)
    case Bad(e) => Bad(e)
    case Ok(n, rest) =>
      if n < -1 then Bad(BadArrayLen)
      else if n > MAX_ARRAY_LEN then Bad(BadArrayLenTooLong)
      else if n == -1 then Ok(Nil, rest)
      else
        match DecodeMany(rest, n, env)
        case Bad(e) => Bad(e)
        case Ok(elems, rest') => Ok(Items(elems), rest')
  }

  /** `n` values, one after the other. */
  function DecodeMany(s: bytes, n: nat, env: Env): (d: Decoded<seq<Resp>>)
    ensures d.Ok? ==> |d.rest| <= |s| && |d.value| == n
    decreases |s|, 1
  {
    if n == 0 then Ok([], s)
    else
      match Decode(s, env)
      case Bad(e) => Bad(e)
      case Ok(r, rest) =>
        match DecodeMany(rest, n - 1, env)
        case Bad(e) => Bad(e)
        case Ok(rs, rest') => Ok([r] + rs, rest')
  }

  /** A word in front of others; nothing between two spaces is no word. */
  function AddWord(w: bytes, ws: seq<bytes>): seq<bytes> {
    if w == [] then ws else [w] + ws
  }

  /** The words of an inline command: maximal runs without a space. */
  function Words(b: bytes): seq<bytes> {
    if b == [] then []
    else
      var k := IndexOf(b, SPACE);
      AddWord(b[..k], if k == |b| then [] else Words(b[k + 1..]))
  }

  predicate AllWords(ws: seq<bytes>) {
    forall w :: w in ws ==> w != [] && SPACE !in w
  }

  lemma NoWords()
    ensures Words([]) == []
  {
  }

  lemma AddWordKeeps(w: bytes, ws: seq<bytes>)
    requires AllWords(ws) && SPACE !in w
    ensures AllWords(AddWord(w, ws))
  {
  }

  lemma {:induction false} WordsAreWords(b: bytes)
    ensures AllWords(Words(b))
  {
    hide IndexOf, AddWord;
    if b != [] {
      var k := IndexOf(b, SPACE);
      var tail := if k == |b| then [] else Words(b[k + 1..]);
      if k < |b| {
        WordsAreWords(b[k + 1..]);
      }
      AddWordKeeps(b[..k], tail);
    }
  }

  function Bulks(ws: seq<bytes>): (rs: seq<Resp>)
    ensures |rs| == |ws|
    ensures forall i :: 0 <= i < |ws| ==> rs[i] == NewBulkBytes(ws[i])
  {
    if ws == [] then [] else [NewBulkBytes(ws[0])] + Bulks(ws[1..])
  }

  /** A client request: an inline command, or an array holding only bulk strings. */
  function DecodeMultiBulk(s: bytes, env: Env): Decoded<seq<Resp>> {
    if s == [] then Bad(env.end)
    else if s[0] != ARRAY then
      match DecodeText(s, env)
      case Bad(e) => Bad(e)
      case Ok(text, rest) =>
        if Words(text) == [] then Bad(BadMultiBulkLen) else Ok(Bulks(Words(text)), rest)
    else
      match DecodeInt(s[1..], env)
      case Bad(e) => Bad(e)
      case Ok(n, rest) =>
        if n <= 0 then Bad(BadArrayLen)
        else if n > MAX_ARRAY_LEN then Bad(BadArrayLenTooLong)
        else DecodeBulks(rest, n, env)
  }

  function DecodeBulks(s: bytes, n: nat, env: Env): Decoded<seq<Resp>> {
    if n == 0 then Ok([], s)
    else
      match Decode(s, env)
      case Bad(e) => Bad(e)
      case Ok(r, rest) =>
        if r.kind != BULK then Bad(BadMultiBulkContent)
        else
          match DecodeBulks(rest, n - 1, env)
          case Bad(e) => Bad(e)
          case Ok(rs, rest') => Ok([r] + rs, rest')
  }
}
