/**
 * The wire format spelled out in bytes: what each value is written as, that a value in the form of the Go struct comes back
 * unchanged, which error each fault on the wire gives, and decimal text digit by digit.
 */
module WireFormat {
  import opened Wrappers
  import opened Bytes
  import opened Numbers
  import opened Stream
  import opened Resp
  import opened RespTheorems

  // ---------------------------------------------------------------- numbers

  /** Decimal text, most significant digit first, without leading zeros, a minus sign in front. */
  lemma DecimalText(n: int, d: int)
    requires n >= 0 && 0 <= d < 10
    ensures FormatInt(d) == [48 + d as byte]
    ensures n > 0 ==> FormatInt(10 * n + d) == FormatInt(n) + [48 + d as byte]
    ensures n > 0 ==> FormatInt(-n) == [45] + FormatInt(n)
  {
    assert (10 * n + d) / 10 == n && (10 * n + d) % 10 == d;
  }

  /** The value of a string of digits: each further digit counts one, and all before it ten times as much. */
  lemma DecimalValue(s: bytes, d: nat)
    requires AllDigits(s) && d < 10
    ensures AllDigits(s + [48 + d as byte]) && Value(s + [48 + d as byte]) == 10 * Value(s) + d
    ensures AllDigits([]) && Value([]) == 0
  {
    ValueAppend(s, 48 + d as byte);
  }

  /** With digits behind an optional sign a text is a number if it fits in 64 bits; nothing else is one. */
  lemma ParsedTexts(s: bytes)
    requires AllDigits(s) && s != []
    ensures
      var v: int := Value(s);
      && ParseInt(s) == (if v < 0x8000_0000_0000_0000 then Some(v) else None)
      && ParseInt([43] + s) == (if v < 0x8000_0000_0000_0000 then Some(v) else None)
      && ParseInt([45] + s) == (if v <= 0x8000_0000_0000_0000 then Some(-v) else None)
  {
    hide Value;
    assert ([43] + s)[1..] == s && ([45] + s)[1..] == s;
    assert IsDigit(s[0]);
  }

  lemma NoOtherNumber(s: bytes)
    requires ParseInt(s).Some?
    ensures
      var start := if s != [] && (s[0] == 43 || s[0] == 45) then 1 else 0;
      start < |s| && forall i :: start <= i < |s| ==> 48 <= s[i] <= 57
  {
    hide Value;
    var body := Unsigned(s);
    var start := |s| - |body|;
    forall i | start <= i < |s|
      ensures 48 <= s[i] <= 57
    {
      assert s[i] == body[i - start] && IsDigit(body[i - start]);
    }
  }

  // ---------------------------------------------------------------- what is written

  /** The encodings of several values, one after the other. */
  function Joined(rs: seq<Resp>): bytes {
    if rs == [] then [] else Joined(rs[..|rs| - 1]) + Encode(rs[|rs| - 1])
  }

  lemma {:induction false} JoinedFromFront(r: Resp, rs: seq<Resp>)
    ensures Joined([r] + rs) == Encode(r) + Joined(rs)
  {
    var all := [r] + rs;
    if rs == [] {
      assert all[..0] == [] && all[0] == r;
    } else {
      var n := |rs| - 1;
      JoinedFromFront(r, rs[..n]);
      assert all[..|all| - 1] == [r] + rs[..n] && all[|all| - 1] == rs[n];
      Regroup(Encode(r), Joined(rs[..n]), Encode(rs[n]));
    }
  }

  lemma {:induction false} EncodeAllIsJoined(rs: seq<Resp>)
    requires AllKnown(rs)
    ensures EncodeAll(rs) == Joined(rs)
  {
    hide Encode, Known;
    if rs != [] {
      EncodeAllIsJoined(rs[1..]);
      JoinedFromFront(rs[0], rs[1..]);
      assert [rs[0]] + rs[1..] == rs;
    }
  }

  /** The five kinds as the Redis protocol writes them: type byte, then a line, a length and a payload, or elements. */
  lemma WrittenForms(v: bytes, es: seq<Resp>, items: Items, value: Option<bytes>)
    requires AllKnown(es)
    ensures forall kind: byte :: kind in {43, 45, 58} ==>
      Encode(Resp(kind, Some(v), items)) == [kind] + (v + [13, 10])
    ensures Encode(Resp(36, Some(v), items)) == [36] + (FormatInt(|v|) + [13, 10] + (v + [13, 10]))
    ensures Encode(Resp(36, None, items)) == [36] + ([45, 49] + [13, 10])
    ensures Encode(Resp(42, value, Items(es))) == [42] + (FormatInt(|es|) + [13, 10] + Joined(es))
    ensures Encode(Resp(42, value, Nil)) == [42] + ([45, 49] + [13, 10])
    ensures EncodeMultiBulk(Items(es)) == [42] + (FormatInt(|es|) + [13, 10] + Joined(es))
    ensures forall kind: byte :: kind !in {43, 45, 58, 36, 42} ==> Encode(Resp(kind, value, items)) == [kind]
  {
    EncodeAllIsJoined(es);
    MinusOne();
    hide FormatInt, EncodeAll, Joined, AllKnown;
  }

  lemma MinusOne()
    ensures FormatInt(-1) == [45, 49]
  {
  }

  // ---------------------------------------------------------------- what comes back

  /** A value that uses the fields of its kind and no others: text or bulk in `value`, elements in `items`. */
  predicate Plain(r: Resp)
    decreases r, 1
  {
    if r.kind == 42 then r.value.None? && (r.items.Items? ==> AllPlain(r.items.elems))
    else r.items.Nil? && (r.kind != 36 ==> r.value.Some?)
  }

  predicate AllPlain(rs: seq<Resp>)
    decreases rs, 0
  {
    rs == [] || (Plain(rs[0]) && AllPlain(rs[1..]))
  }

  /** The normal form keeps the kind and what that kind is made of. */
  lemma NormalKeeps(r: Resp)
    ensures Normal(r).kind == r.kind
    ensures r.kind in {43, 45, 58} ==> Normal(r) == Resp(r.kind, Some(if r.value.Some? then r.value.value else []), Nil)
    ensures r.kind == 36 ==> Normal(r) == Resp(36, r.value, Nil)
    ensures r.kind == 42 && r.items.Nil? ==> Normal(r) == Resp(42, None, Nil)
    ensures r.kind == 42 && r.items.Items? ==>
      var n := Normal(r);
      && n.value.None? && n.items.Items? && |n.items.elems| == |r.items.elems|
      && forall i :: 0 <= i < |r.items.elems| ==> n.items.elems[i] == Normal(r.items.elems[i])
  {
    if r.kind == ARRAY && r.items.Items? {
      NormalAllAt(r.items.elems);
    }
  }

  lemma {:induction false} NormalAllAt(rs: seq<Resp>)
    ensures forall i :: 0 <= i < |rs| ==> NormalAll(rs)[i] == Normal(rs[i])
  {
    hide Normal;
    if rs != [] {
      NormalAllAt(rs[1..]);
      assert NormalAll(rs)[1..] == NormalAll(rs[1..]);
    }
  }

  lemma {:induction false} PlainIsNormal(r: Resp)
    requires Plain(r) && IsKind(r.kind)
    requires r.kind == ARRAY && r.items.Items? ==> AllKnown(r.items.elems)
    ensures Normal(r) == r
    decreases r, 1
  {
    if r.kind == ARRAY && r.items.Items? {
      AllPlainIsNormal(r.items.elems);
    }
  }

  lemma {:induction false} AllPlainIsNormal(rs: seq<Resp>)
    requires AllPlain(rs) && AllKnown(rs)
    ensures NormalAll(rs) == rs
    decreases rs, 0
  {
    hide Normal, Plain;
    if rs != [] {
      PlainIsNormal(rs[0]);
      AllPlainIsNormal(rs[1..]);
    }
  }

  lemma {:induction false} NormalIsPlain(r: Resp)
    requires IsKind(r.kind)
    requires r.kind == ARRAY && r.items.Items? ==> AllKnown(r.items.elems)
    ensures Plain(Normal(r))
    decreases r, 1
  {
    if r.kind == ARRAY && r.items.Items? {
      NormalAllIsPlain(r.items.elems);
    }
  }

  lemma {:induction false} NormalAllIsPlain(rs: seq<Resp>)
    requires AllKnown(rs)
    ensures AllPlain(NormalAll(rs))
    decreases rs, 0
  {
    hide Normal, Plain;
    if rs != [] {
      NormalIsPlain(rs[0]);
      NormalAllIsPlain(rs[1..]);
      assert NormalAll(rs)[1..] == NormalAll(rs[1..]);
    }
  }

  /** A plain value comes back as it is, and the rest of the stream with it. */
  lemma PlainRoundTrip(r: Resp, t: bytes, env: Env)
    requires Plain(r) && Encodable(r, env.cap)
    ensures Decode(Encode(r) + t, env) == Ok(r, t)
  {
    hide Decode, Encode, Encodable, Normal, Plain;
    RoundTrip(r, t, env);
    KnownKind(r);
    PlainIsNormal(r);
  }

  lemma KnownKind(r: Resp)
    requires Known(r)
    ensures IsKind(r.kind) && (r.kind == ARRAY && r.items.Items? ==> AllKnown(r.items.elems))
  {
  }

  /** And no other plain value does. */
  lemma PlainRoundTripExactly(r: Resp, env: Env)
    requires Plain(r)
    ensures (forall t :: Decode(Encode(r) + t, env) == Ok(r, t)) <==> Encodable(r, env.cap)
  {
    hide Encode, Encodable, Plain;
    if Encodable(r, env.cap) {
      forall t
        ensures Decode(Encode(r) + t, env) == Ok(r, t)
      {
        PlainRoundTrip(r, t, env);
      }
    } else if Decode(Encode(r) + [], env) == Ok(r, []) {
      DecodedIsWellFormed(Encode(r) + [], env);
      assert false;
    }
  }

  /** Whatever bytes were accepted, the value is plain and within the limits. */
  lemma DecodedIsPlain(s: bytes, env: Env)
    requires Decode(s, env).Ok?
    ensures Plain(Decode(s, env).value) && Encodable(Decode(s, env).value, env.cap)
  {
    hide Decode, Normal, Encodable;
    var r := Decode(s, env).value;
    DecodedIsWellFormed(s, env);
    RoundTrip(r, [], env);
    KnownKind(r);
    NormalIsPlain(r);
  }

  // ---------------------------------------------------------------- what is refused

  /** A first byte that is no type byte, and no byte at all. */
  lemma UnknownKind(b: byte, t: bytes, env: Env)
    requires b !in {43, 45, 58, 36, 42}
    ensures Decode([b] + t, env) == Bad(BadRespType(b)) && Decode([], env) == Bad(env.end)
  {
  }

  /** A text line that does not end in CR LF, or does not end. */
  lemma BrokenText(kind: byte, v: bytes, t: bytes, env: Env)
    requires kind in {43, 45, 58} && LF !in v
    ensures v == [] || v[|v| - 1] != 13 ==> Decode([kind] + v + [10] + t, env) == Bad(BadCRLFEnd)
    ensures Decode([kind] + v, env) == Bad(env.end)
  {
    var s := [kind] + v + [10] + t;
    assert s[1..] == v + [10] + t;
    IndexOfUnique(s[1..], LF, |v|);
    assert s[1..][..|v| + 1] == v + [10];
    assert ([kind] + v)[1..] == v;
    IndexOfAbsent(v, LF);
  }

  lemma LengthLine(kind: byte, n: int, t: bytes)
    ensures ([kind] + FormatInt(n) + [13, 10] + t)[0] == kind
    ensures ([kind] + FormatInt(n) + [13, 10] + t)[1..] == Line(n) + t
  {
    hide FormatInt;
  }

  /** A length that is out of range, and one for which no number can be read. */
  lemma BadLength(n: int, t: bytes, env: Env)
    requires IsInt64(n) && |FormatInt(n) + [13, 10]| <= env.cap
    ensures n < -1 ==> Decode([36] + FormatInt(n) + [13, 10] + t, env) == Bad(BadBulkBytesLen)
    ensures n > 536870912 ==> Decode([36] + FormatInt(n) + [13, 10] + t, env) == Bad(BadBulkBytesLenTooLong)
    ensures n < -1 ==> Decode([42] + FormatInt(n) + [13, 10] + t, env) == Bad(BadArrayLen)
    ensures n > 1048576 ==> Decode([42] + FormatInt(n) + [13, 10] + t, env) == Bad(BadArrayLenTooLong)
    ensures n <= 0 ==> DecodeMultiBulk([42] + FormatInt(n) + [13, 10] + t, env) == Bad(BadArrayLen)
    ensures n > 1048576 ==> DecodeMultiBulk([42] + FormatInt(n) + [13, 10] + t, env) == Bad(BadArrayLenTooLong)
  {
    hide FormatInt, DecodeInt;
    IntRoundTrip(n, t, env);
    LengthLine(36, n, t);
    LengthLine(42, n, t);
  }

  lemma BadNumberLine(v: bytes, t: bytes, env: Env)
    requires LF !in v
    ensures |v| + 1 < env.cap && ParseInt(v).None? ==> DecodeInt(v + CRLF + t, env) == Bad(BadInt)
    ensures |v| + 1 >= env.cap ==> DecodeInt(v + CRLF + t, env) == Bad(BufferFull)
    ensures |v| < env.cap && (v == [] || v[|v| - 1] != 13) ==> DecodeInt(v + [10] + t, env) == Bad(BadCRLFEnd)
    ensures DecodeInt(v, env) == Bad(if |v| < env.cap then env.end else BufferFull)
  {
    hide ParseInt;
    IndexOfAbsent(v, LF);
    LineIsFound(v, t);
    var s := v + [10] + t;
    IndexOfUnique(s, LF, |v|);
    assert s[..|v| + 1] == v + [10];
  }

  /** A length line that is no number, does not fit the reader's buffer, does not end in CR LF, or does not end. */
  lemma BadLengthLine(kind: byte, v: bytes, t: bytes, env: Env)
    requires (kind == 36 || kind == 42) && LF !in v
    ensures |v| + 1 < env.cap && ParseInt(v).None? ==> Decode([kind] + (v + [13, 10] + t), env) == Bad(BadInt)
    ensures |v| + 1 >= env.cap ==> Decode([kind] + (v + [13, 10] + t), env) == Bad(BufferFull)
    ensures |v| < env.cap && (v == [] || v[|v| - 1] != 13) ==> Decode([kind] + (v + [10] + t), env) == Bad(BadCRLFEnd)
    ensures Decode([kind] + v, env) == Bad(if |v| < env.cap then env.end else BufferFull)
  {
    hide DecodeInt, ParseInt, Decode;
    BadNumberLine(v, t, env);
    LengthStops(kind, v + CRLF + t, env);
    LengthStops(kind, v + [10] + t, env);
    LengthStops(kind, v, env);
  }

  /** The error of the length is the error of the value, and of the request. */
  lemma LengthStops(kind: byte, line: bytes, env: Env)
    requires kind == 36 || kind == 42
    ensures DecodeInt(line, env).Bad? ==> Decode([kind] + line, env) == Bad(DecodeInt(line, env).error)
    ensures DecodeInt(line, env).Bad? && kind == 42 ==>
      DecodeMultiBulk([kind] + line, env) == Bad(DecodeInt(line, env).error)
  {
    hide DecodeInt;
    assert ([kind] + line)[1..] == line;
  }

  /** A payload that is cut short, or is not followed by CR LF. */
  lemma BadPayload(n: nat, v: bytes, t: bytes, env: Env)
    requires n <= MAX_BULK_BYTES_LEN && |FormatInt(n) + [13, 10]| <= env.cap
    ensures |v| < n + 2 ==>
      Decode([36] + FormatInt(n) + [13, 10] + v, env) == Bad(if v != [] && env.end == EOF then UnexpectedEOF else env.end)
    ensures |v| == n + 2 && v[n..] != [13, 10] ==>
      Decode([36] + FormatInt(n) + [13, 10] + (v + t), env) == Bad(BadCRLFEnd)
  {
    hide FormatInt, DecodeInt;
    IntRoundTrip(n, v, env);
    IntRoundTrip(n, v + t, env);
    LengthLine(36, n, v);
    LengthLine(36, n, v + t);
    if |v| == n + 2 {
      assert (v + t)[..n + 2] == v;
      assert v[n..] == [v[n], v[n + 1]];
    }
  }

  /** The first element that is refused decides an array's error; what follows it is not looked at. */
  lemma BadElement(es: seq<Resp>, n: nat, s: bytes, env: Env)
    requires AllEncodable(es, env.cap) && |es| < n <= MAX_ARRAY_LEN && |FormatInt(n) + [13, 10]| <= env.cap
    requires Decode(s, env).Bad?
    ensures Decode([42] + FormatInt(n) + [13, 10] + (EncodeAll(es) + s), env) == Bad(Decode(s, env).error)
  {
    ManyStopAt(es, n, s, env);
    ArrayStops(n, EncodeAll(es) + s, env);
  }

  lemma ArrayStops(n: nat, t: bytes, env: Env)
    requires n <= MAX_ARRAY_LEN && |FormatInt(n) + [13, 10]| <= env.cap && DecodeMany(t, n, env).Bad?
    ensures Decode([42] + FormatInt(n) + [13, 10] + t, env) == Bad(DecodeMany(t, n, env).error)
  {
    hide FormatInt, DecodeInt, DecodeMany;
    IntRoundTrip(n, t, env);
    LengthLine(42, n, t);
  }

  lemma {:induction false} ManyStopAt(es: seq<Resp>, n: nat, s: bytes, env: Env)
    requires AllEncodable(es, env.cap) && |es| < n && Decode(s, env).Bad?
    ensures DecodeMany(EncodeAll(es) + s, n, env) == Bad(Decode(s, env).error)
  {
    hide Decode, Encode, Normal, Encodable;
    if es == [] {
      assert EncodeAll(es) + s == s;
    } else {
      RoundTrip(es[0], EncodeAll(es[1..]) + s, env);
      assert EncodeAll(es) + s == Encode(es[0]) + (EncodeAll(es[1..]) + s);
      ManyStopAt(es[1..], n - 1, s, env);
    }
  }

  // ---------------------------------------------------------------- requests

  /** The words of a line: a run without a space is one word, and spaces between words do not count. */
  lemma WordByWord(w: bytes, rest: bytes)
    requires w != [] && 32 !in w
    ensures Words([]) == [] && Words(w) == [w]
    ensures Words([32] + rest) == Words(rest)
    ensures Words(w + [32] + rest) == [w] + Words(rest)
  {
    IndexOfAbsent(w, SPACE);
    IndexOfUnique([32] + rest, SPACE, 0);
    assert ([32] + rest)[1..] == rest && ([32] + rest)[..0] == [] && w[..|w|] == w;
    var s := w + [32] + rest;
    IndexOfUnique(s, SPACE, |w|);
    assert s[..|w|] == w && s[|w| + 1..] == rest;
  }

  /** An inline command is the list of its words; without a word it is refused. */
  lemma InlineRequest(v: bytes, t: bytes, env: Env)
    requires LF !in v && (v != [] ==> v[0] != 42)
    ensures Words(v) == [] ==> DecodeMultiBulk(v + [13, 10] + t, env) == Bad(BadMultiBulkLen)
    ensures Words(v) != [] ==>
      var d := DecodeMultiBulk(v + [13, 10] + t, env);
      && d.Ok? && d.rest == t && |d.value| == |Words(v)|
      && forall i :: 0 <= i < |d.value| ==> d.value[i] == Resp(36, Some(Words(v)[i]), Nil)
  {
    hide Words, Bulks, DecodeText, DecodeInt, DecodeBulks;
    TextRoundTrip(v, t, env);
    assert (v + [13, 10] + t)[0] != ARRAY;
  }

  lemma BrokenInlineRequest(v: bytes, t: bytes, env: Env)
    requires LF !in v && (v != [] ==> v[0] != 42)
    ensures v == [] || v[|v| - 1] != 13 ==> DecodeMultiBulk(v + [10] + t, env) == Bad(BadCRLFEnd)
    ensures DecodeMultiBulk(v, env) == Bad(env.end)
  {
    hide Words, Bulks, DecodeInt, DecodeBulks;
    var s := v + [10] + t;
    IndexOfUnique(s, LF, |v|);
    assert s[..|v| + 1] == v + [10];
    IndexOfAbsent(v, LF);
  }

  /** The first element of a request that is no value, or no bulk string, decides its error. */
  lemma BadRequestElement(es: seq<Resp>, n: nat, s: bytes, env: Env)
    requires AllEncodable(es, env.cap) && AllBulks(es) && |es| < n <= MAX_ARRAY_LEN
    requires |FormatInt(n) + [13, 10]| <= env.cap && (Decode(s, env).Ok? ==> Decode(s, env).value.kind != 36)
    ensures DecodeMultiBulk([42] + FormatInt(n) + [13, 10] + (EncodeAll(es) + s), env) ==
      Bad(if Decode(s, env).Bad? then Decode(s, env).error else BadMultiBulkContent)
  {
    BulksStopAt(es, n, s, env);
    RequestStops(n, EncodeAll(es) + s, env);
  }

  lemma RequestStops(n: nat, t: bytes, env: Env)
    requires 0 < n <= MAX_ARRAY_LEN && |FormatInt(n) + [13, 10]| <= env.cap
    ensures DecodeMultiBulk([42] + FormatInt(n) + [13, 10] + t, env) == DecodeBulks(t, n, env)
    ensures DecodeMultiBulk([], env) == Bad(env.end)
  {
    hide FormatInt, DecodeInt, DecodeBulks;
    IntRoundTrip(n, t, env);
    LengthLine(42, n, t);
  }

  lemma {:induction false} BulksStopAt(es: seq<Resp>, n: nat, s: bytes, env: Env)
    requires AllEncodable(es, env.cap) && AllBulks(es) && |es| < n && (Decode(s, env).Ok? ==> Decode(s, env).value.kind != 36)
    ensures DecodeBulks(EncodeAll(es) + s, n, env) ==
      Bad(if Decode(s, env).Bad? then Decode(s, env).error else BadMultiBulkContent)
  {
    hide Decode, Encode, Normal, Encodable;
    if es == [] {
      assert EncodeAll(es) + s == s;
    } else {
      RoundTrip(es[0], EncodeAll(es[1..]) + s, env);
      NormalKeeps(es[0]);
      assert EncodeAll(es) + s == Encode(es[0]) + (EncodeAll(es[1..]) + s);
      BulksStopAt(es[1..], n - 1, s, env);
    }
  }
}
