/** What the wire format promises: round trips, the exact encoder domain, and no accepted proper prefix. */
module RespTheorems {
  import opened Wrappers
  import opened Bytes
  import opened Numbers
  import opened Stream
  import opened Resp

  /** Values that survive the wire when the reader's buffer holds `cap` bytes. */
  predicate Encodable(r: Resp, cap: nat)
    decreases r, 1
  {
    || (IsText(r.kind) && LF !in Payload(r.value))
    || (r.kind == BULK && BulkFits(r.value, cap))
    || (r.kind == ARRAY && ArrayFits(r.items, cap))
  }

  predicate BulkFits(value: Option<bytes>, cap: nat) {
    if value.None? then |Line(-1)| <= cap
    else |value.value| <= MAX_BULK_BYTES_LEN && |Line(|value.value|)| <= cap
  }

  predicate ArrayFits(items: Items, cap: nat)
    decreases items, 1
  {
    if items.Nil? then |Line(-1)| <= cap
    else
      && |items.elems| <= MAX_ARRAY_LEN
      && |Line(|items.elems|)| <= cap
      && AllEncodable(items.elems, cap)
  }

  predicate AllEncodable(rs: seq<Resp>, cap: nat)
    decreases rs, 0
  {
    rs == [] || (Encodable(rs[0], cap) && AllEncodable(rs[1..], cap))
  }

  /** The value as the decoder rebuilds it: a nil text becomes empty and the unused field is cleared. */
  function Normal(r: Resp): Resp
    decreases r, 1
  {
    if IsText(r.kind) then Resp(r.kind, Some(Payload(r.value)), Nil)
    else if r.kind == BULK then Resp(BULK, r.value, Nil)
    else if r.items.Nil? then Resp(r.kind, None, Nil)
    else Resp(r.kind, None, Items(NormalAll(r.items.elems)))
  }

  function NormalAll(rs: seq<Resp>): (ns: seq<Resp>)
    ensures |ns| == |rs|
    decreases rs, 0
  {
    if rs == [] then [] else [Normal(rs[0])] + NormalAll(rs[1..])
  }

  /** A decoded value: encodable, and already in the form the decoder produces. */
  predicate WellFormed(r: Resp, cap: nat) {
    Encodable(r, cap) && Normal(r) == r
  }

  // ---------------------------------------------------------------- lines

  lemma FormatHasNoLF(n: int)
    ensures LF !in FormatInt(n)
  {
    var d := Digits(if n < 0 then -n else n);
    assert forall i :: 0 <= i < |d| ==> IsDigit(d[i]);
  }

  /** A line without LF in it, followed by CRLF, is found whole. */
  lemma LineIsFound(text: bytes, t: bytes)
    requires LF !in text
    ensures IndexOf(text + CRLF + t, LF) == |text| + 1
    ensures (text + CRLF + t)[..|text| + 2] == text + CRLF
    ensures (text + CRLF + t)[|text| + 2..] == t
    ensures Chomp(text + CRLF) == Some(text)
  {
    var s := text + CRLF + t;
    assert (text + CRLF)[..|text|] == text;
    IndexOfUnique(s, LF, |text| + 1);
  }

  lemma TextRoundTrip(text: bytes, t: bytes, env: Env)
    requires LF !in text
    ensures DecodeText(text + CRLF + t, env) == Ok(text, t)
  {
    LineIsFound(text, t);
  }

  lemma IntRoundTrip(n: int, t: bytes, env: Env)
    requires IsInt64(n) && |Line(n)| <= env.cap
    ensures DecodeInt(Line(n) + t, env) == Ok(n, t)
  {
    FormatHasNoLF(n);
    LineIsFound(FormatInt(n), t);
    ParseFormat(n);
  }

  lemma BulkRoundTrip(value: Option<bytes>, t: bytes, env: Env)
    requires BulkFits(value, env.cap)
    ensures DecodeBulk(EncodeBulk(value) + t, env) == Ok(value, t)
  {
    if value.None? {
      IntRoundTrip(-1, t, env);
    } else {
      var v := value.value;
      assert EncodeBulk(value) + t == Line(|v|) + (v + CRLF + t);
      IntRoundTrip(|v|, v + CRLF + t, env);
      assert (v + CRLF + t)[..|v| + 2] == v + CRLF;
      assert (v + CRLF + t)[|v| + 2..] == t;
      assert (v + CRLF)[..|v|] == v;
    }
  }

  // ---------------------------------------------------------------- round trips

  /** Decoding what was encoded gives the value back and stops exactly where its encoding stops. */
  lemma {:induction false} RoundTrip(r: Resp, t: bytes, env: Env)
    requires Encodable(r, env.cap)
    ensures Known(r) && Decode(Encode(r) + t, env) == Ok(Normal(r), t)
    decreases r, 2
  {
    hide DecodeText, DecodeBulk, DecodeArray, EncodeBulk, EncodeArray, BulkFits, FormatInt;
    var s := Encode(r) + t;
    assert s[0] == r.kind;
    if IsText(r.kind) {
      assert s[1..] == Payload(r.value) + CRLF + t;
      TextRoundTrip(Payload(r.value), t, env);
    } else if r.kind == BULK {
      assert s[1..] == EncodeBulk(r.value) + t;
      BulkRoundTrip(r.value, t, env);
    } else {
      assert s[1..] == EncodeArray(r.items) + t;
      ArrayRoundTrip(r.items, t, env);
    }
  }

  lemma {:induction false} ArrayRoundTrip(items: Items, t: bytes, env: Env)
    requires ArrayFits(items, env.cap)
    ensures items.Items? ==> AllKnown(items.elems)
    ensures DecodeArray(EncodeArray(items) + t, env)
         == Ok(if items.Nil? then Nil else Items(NormalAll(items.elems)), t)
    decreases items, 1
  {
    if items.Nil? {
      IntRoundTrip(-1, t, env);
    } else {
      var es := items.elems;
      assert EncodeArray(items) + t == Line(|es|) + (EncodeAll(es) + t);
      IntRoundTrip(|es|, EncodeAll(es) + t, env);
      ManyRoundTrip(es, t, env);
    }
  }

  lemma {:induction false} ManyRoundTrip(rs: seq<Resp>, t: bytes, env: Env)
    requires AllEncodable(rs, env.cap)
    ensures AllKnown(rs) && DecodeMany(EncodeAll(rs) + t, |rs|, env) == Ok(NormalAll(rs), t)
    decreases rs, 0
  {
    hide Decode, Encode, Normal, Known;
    if rs == [] {
      assert EncodeAll(rs) + t == t;
    } else {
      RoundTrip(rs[0], EncodeAll(rs[1..]) + t, env);
      assert EncodeAll(rs) + t == Encode(rs[0]) + (EncodeAll(rs[1..]) + t);
      ManyRoundTrip(rs[1..], t, env);
    }
  }

  /** The format's own limits, whatever the buffer: texts without LF, bulks and arrays not too long. */
  predicate WithinLimits(r: Resp)
    decreases r, 1
  {
    || (IsText(r.kind) && LF !in Payload(r.value))
    || (r.kind == BULK && |Payload(r.value)| <= MAX_BULK_BYTES_LEN)
    || (r.kind == ARRAY && (r.items.Items? ==> |r.items.elems| <= MAX_ARRAY_LEN && AllWithinLimits(r.items.elems)))
  }

  predicate AllWithinLimits(rs: seq<Resp>)
    decreases rs, 0
  {
    rs == [] || (WithinLimits(rs[0]) && AllWithinLimits(rs[1..]))
  }

  /** From eleven bytes on the reader's buffer size does not matter. */
  lemma {:induction false} BufferOfElevenBytes(r: Resp, cap: nat)
    requires cap >= 11
    ensures Encodable(r, cap) <==> WithinLimits(r)
    decreases r, 1
  {
    hide Line;
    if r.kind == BULK && r.value.Some? {
      if |r.value.value| <= MAX_BULK_BYTES_LEN {
        ElevenBytesSuffice(|r.value.value|);
      }
    } else if r.kind == ARRAY && r.items.Items? {
      BufferOfElevenBytesAll(r.items.elems, cap);
      if |r.items.elems| <= MAX_ARRAY_LEN {
        ElevenBytesSuffice(|r.items.elems|);
      }
    } else {
      ElevenBytesSuffice(-1);
    }
  }

  lemma {:induction false} BufferOfElevenBytesAll(rs: seq<Resp>, cap: nat)
    requires cap >= 11
    ensures AllEncodable(rs, cap) <==> AllWithinLimits(rs)
    decreases rs, 0
  {
    if rs != [] {
      BufferOfElevenBytes(rs[0], cap);
      BufferOfElevenBytesAll(rs[1..], cap);
    }
  }

  /** Every length line the limits allow fits in eleven bytes. */
  lemma ElevenBytesSuffice(n: int)
    requires -1 <= n <= MAX_BULK_BYTES_LEN
    ensures |Line(n)| <= 11
  {
    assert Pow10(9) == 1_000_000_000 by {
      assert Pow10(3) == 1000;
      assert Pow10(6) == 1000 * Pow10(3);
      assert Pow10(9) == 1000 * Pow10(6);
    }
    if n < 0 {
      FormatLength(n, 1);
    } else {
      FormatLength(n, 9);
    }
  }

  // ---------------------------------------------------------------- the decoder's image

  lemma DecodedIntFits(s: bytes, env: Env)
    ensures DecodeInt(s, env).Ok? ==> IsInt64(DecodeInt(s, env).value) && |Line(DecodeInt(s, env).value)| <= env.cap
  {
    var d := ReadSlice(s, LF, env);
    if DecodeInt(s, env).Ok? {
      FormatIsShortest(Chomp(d.value).value);
    }
  }

  /** Whatever bytes were accepted, with whatever spelling of the lengths, the value is one the encoder can write. */
  lemma {:induction false} DecodedIsWellFormed(s: bytes, env: Env)
    ensures Decode(s, env).Ok? ==> WellFormed(Decode(s, env).value, env.cap)
    decreases |s|, 0
  {
    if Decode(s, env).Ok? {
      if IsText(s[0]) {
        var line := ReadBytes(s[1..], LF, env).value;
        var text := Chomp(line).value;
        assert forall i :: 0 <= i < |text| ==> text[i] == s[1..][i] != LF;
      } else if s[0] == BULK {
        DecodedIntFits(s[1..], env);
      } else {
        DecodedArrayFits(s[1..], env);
      }
    }
  }

  lemma {:induction false} DecodedArrayFits(s: bytes, env: Env)
    ensures var d := DecodeArray(s, env);
            d.Ok? ==> ArrayFits(d.value, env.cap) && (d.value.Items? ==> NormalAll(d.value.elems) == d.value.elems)
    decreases |s|, 2
  {
    DecodedIntFits(s, env);
    var d := DecodeInt(s, env);
    if DecodeArray(s, env).Ok? && d.value >= 0 {
      DecodedManyFit(d.rest, d.value, env);
    }
  }

  lemma {:induction false} DecodedManyFit(s: bytes, n: nat, env: Env)
    ensures var d := DecodeMany(s, n, env);
            d.Ok? ==> AllEncodable(d.value, env.cap) && NormalAll(d.value) == d.value
    decreases |s|, 1
  {
    if n > 0 && DecodeMany(s, n, env).Ok? {
      DecodedIsWellFormed(s, env);
      var first := Decode(s, env);
      DecodedManyFit(first.rest, n - 1, env);
      var rs := DecodeMany(s, n, env).value;
      assert rs[1..] == DecodeMany(first.rest, n - 1, env).value;
    }
  }

  /** The decoder's image is the encoder's domain: a decoded value, encoded again, decodes to itself. */
  lemma ReencodingDecodes(s: bytes, t: bytes, env: Env)
    requires Decode(s, env).Ok?
    ensures var r := Decode(s, env).value; Decode(Encode(r) + t, env) == Ok(r, t)
  {
    DecodedIsWellFormed(s, env);
    RoundTrip(Decode(s, env).value, t, env);
  }

  lemma OnlyEncodable(r: Resp, env: Env)
    requires Decode(Encode(r) + [], env) == Ok(Normal(r), [])
    ensures Encodable(r, env.cap)
  {
    hide Decode, Encode, Normal, Encodable;
    DecodedIsWellFormed(Encode(r) + [], env);
    NormalKeepsEncodable(r, env.cap);
  }

  /** `Encodable` is exact: the values that come back from the wire are these and no others. */
  lemma RoundTripExactly(r: Resp, env: Env)
    ensures (forall t :: Decode(Encode(r) + t, env) == Ok(Normal(r), t)) <==> Encodable(r, env.cap)
  {
    hide Decode, Encode, Normal, Encodable;
    if Encodable(r, env.cap) {
      forall t ensures Decode(Encode(r) + t, env) == Ok(Normal(r), t) {
        RoundTrip(r, t, env);
      }
    } else {
      if Decode(Encode(r) + [], env) == Ok(Normal(r), []) {
        OnlyEncodable(r, env);
      }
      assert Decode(Encode(r) + [], env) != Ok(Normal(r), []);
    }
  }

  lemma {:induction false} NormalKeepsEncodable(r: Resp, cap: nat)
    ensures Encodable(Normal(r), cap) <==> Encodable(r, cap)
    decreases r, 1
  {
    if r.kind == ARRAY && r.items.Items? {
      NormalAllKeepsEncodable(r.items.elems, cap);
    }
  }

  lemma {:induction false} NormalAllKeepsEncodable(rs: seq<Resp>, cap: nat)
    ensures AllEncodable(NormalAll(rs), cap) <==> AllEncodable(rs, cap)
    decreases rs, 0
  {
    if rs != [] {
      NormalKeepsEncodable(rs[0], cap);
      NormalAllKeepsEncodable(rs[1..], cap);
      assert NormalAll(rs)[1..] == NormalAll(rs[1..]);
    }
  }

  // ---------------------------------------------------------------- prefixes

  /** The errors of a stream that stopped early, as opposed to one that is malformed. */
  predicate Truncation(e: Error, env: Env) {
    e == env.end || (env.end == EOF && e == UnexpectedEOF)
  }

  /** How decoding the first part `s` of a stream `s + t` relates to decoding all of it. */
  ghost predicate Cut<T>(whole: Decoded<T>, part: Decoded<T>, t: bytes, env: Env) {
    if whole.Bad? then part.Bad? && (part.error == whole.error || Truncation(part.error, env))
    else if |whole.rest| >= |t| then part.Ok? && part.value == whole.value && part.rest + t == whole.rest
    else part.Bad? && Truncation(part.error, env)
  }

  lemma LineCut(s: bytes, t: bytes, env: Env)
    ensures Cut(ReadSlice(s + t, LF, env), ReadSlice(s, LF, env), t, env)
    ensures Cut(ReadBytes(s + t, LF, env), ReadBytes(s, LF, env), t, env)
  {
    var k := IndexOf(s + t, LF);
    if k < |s| {
      assert forall i :: 0 <= i < k ==> s[i] == (s + t)[i] != LF;
      IndexOfUnique(s, LF, k);
      assert (s + t)[..k + 1] == s[..k + 1];
      assert (s + t)[k + 1..] == s[k + 1..] + t;
    } else {
      assert forall i :: 0 <= i < |s| ==> s[i] == (s + t)[i] != LF;
      IndexOfAbsent(s, LF);
    }
  }

  lemma FullCut(s: bytes, t: bytes, n: nat, env: Env)
    ensures Cut(ReadFull(s + t, n, env), ReadFull(s, n, env), t, env)
  {
    if n <= |s| {
      assert (s + t)[..n] == s[..n];
      assert (s + t)[n..] == s[n..] + t;
    }
  }

  lemma BulkCut(s: bytes, t: bytes, env: Env)
    ensures Cut(DecodeBulk(s + t, env), DecodeBulk(s, env), t, env)
  {
    hide IndexOf, ParseInt;
    LineCut(s, t, env);
    var d := DecodeInt(s, env);
    if d.Ok? && 0 <= d.value <= MAX_BULK_BYTES_LEN {
      FullCut(d.rest, t, d.value + 2, env);
    }
  }

  lemma {:induction false} DecodeCut(s: bytes, t: bytes, env: Env)
    ensures Cut(Decode(s + t, env), Decode(s, env), t, env)
    decreases |s|, 0
  {
    hide DecodeArray, DecodeBulk, IndexOf;
    if s == [] {
      assert s + t == t;
    } else {
      assert (s + t)[1..] == s[1..] + t;
      LineCut(s[1..], t, env);
      BulkCut(s[1..], t, env);
      if s[0] == ARRAY {
        ArrayCut(s[1..], t, env);
      }
    }
  }

  lemma {:induction false} ArrayCut(s: bytes, t: bytes, env: Env)
    ensures Cut(DecodeArray(s + t, env), DecodeArray(s, env), t, env)
    decreases |s|, 2
  {
    hide DecodeMany, IndexOf;
    LineCut(s, t, env);
    var d := DecodeInt(s, env);
    if d.Ok? && 0 <= d.value <= MAX_ARRAY_LEN {
      ManyCut(d.rest, t, d.value, env);
    }
  }

  lemma {:induction false} ManyCut(s: bytes, t: bytes, n: nat, env: Env)
    ensures Cut(DecodeMany(s + t, n, env), DecodeMany(s, n, env), t, env)
    decreases |s|, 1
  {
    hide Decode, Truncation;
    if n > 0 {
      DecodeCut(s, t, env);
      var d := Decode(s, env);
      if d.Ok? {
        ManyCut(d.rest, t, n - 1, env);
      }
    }
  }

  /** A proper prefix of an encoding never decodes: the decoder asks for the missing bytes. */
  lemma NoProperPrefixDecodes(r: Resp, p: bytes, env: Env)
    requires Encodable(r, env.cap)
    requires p < Encode(r)
    ensures Decode(p, env).Bad?
    ensures Decode(p, env).error == env.end || (env.end == EOF && Decode(p, env).error == UnexpectedEOF)
  {
    var t := Encode(r)[|p|..];
    assert p + t == Encode(r) == Encode(r) + [];
    RoundTrip(r, [], env);
    DecodeCut(p, t, env);
  }

  // ---------------------------------------------------------------- client requests

  predicate AllBulks(rs: seq<Resp>) {
    rs == [] || (rs[0].kind == BULK && AllBulks(rs[1..]))
  }

  /** The requests that survive the wire. */
  predicate MultiEncodable(multi: Items, cap: nat) {
    multi.Items? && multi.elems != [] && AllBulks(multi.elems) && ArrayFits(multi, cap)
  }

  /** Reading only bulks is reading values, plus the check that each is a bulk. */
  lemma {:induction false} DecodeBulksIsDecodeMany(s: bytes, n: nat, env: Env)
    ensures DecodeBulks(s, n, env).Ok? <==> DecodeMany(s, n, env).Ok? && AllBulks(DecodeMany(s, n, env).value)
    ensures DecodeBulks(s, n, env).Ok? ==> DecodeBulks(s, n, env) == DecodeMany(s, n, env)
    decreases n
  {
    hide Decode;
    if n > 0 {
      var d := Decode(s, env);
      if d.Ok? {
        DecodeBulksIsDecodeMany(d.rest, n - 1, env);
        var m := DecodeMany(d.rest, n - 1, env);
        if m.Ok? {
          assert ([d.value] + m.value)[1..] == m.value;
        }
      }
    }
  }

  lemma {:induction false} NormalKeepsBulks(rs: seq<Resp>)
    ensures AllBulks(NormalAll(rs)) <==> AllBulks(rs)
  {
    if rs != [] {
      NormalKeepsBulks(rs[1..]);
      assert NormalAll(rs)[1..] == NormalAll(rs[1..]);
    }
  }

  /** A request comes back exactly when it is a non-empty list of bulk strings within the limits. */
  lemma MultiBulkRoundTripExactly(multi: Items, env: Env)
    requires multi.Items?
    ensures (forall t :: DecodeMultiBulk(EncodeMultiBulk(multi) + t, env) == Ok(NormalAll(multi.elems), t)) <==>
      MultiEncodable(multi, env.cap)
  {
    if MultiEncodable(multi, env.cap) {
      forall t ensures DecodeMultiBulk(EncodeMultiBulk(multi) + t, env) == Ok(NormalAll(multi.elems), t) {
        MultiBulkRoundTrip(multi, t, env);
      }
    } else if DecodeMultiBulk(EncodeMultiBulk(multi) + [], env) == Ok(NormalAll(multi.elems), []) {
      var s := EncodeMultiBulk(multi) + [];
      AcceptedRequestIsBulks(s, env);
      NormalAllKeepsEncodable(multi.elems, env.cap);
      NormalKeepsBulks(multi.elems);
    }
  }

  lemma MultiBulkRoundTrip(multi: Items, t: bytes, env: Env)
    requires MultiEncodable(multi, env.cap)
    ensures DecodeMultiBulk(EncodeMultiBulk(multi) + t, env) == Ok(NormalAll(multi.elems), t)
  {
    hide DecodeInt, DecodeBulks, DecodeMany, EncodeAll, NormalAll, AllEncodable, FormatInt;
    var es := multi.elems;
    var s := EncodeMultiBulk(multi) + t;
    assert s[1..] == Line(|es|) + (EncodeAll(es) + t);
    IntRoundTrip(|es|, EncodeAll(es) + t, env);
    ManyRoundTrip(es, t, env);
    NormalKeepsBulks(es);
    DecodeBulksIsDecodeMany(EncodeAll(es) + t, |es|, env);
  }

  /** An accepted request is a non-empty list of bulks; one that arrived as an array is within the limits. */
  lemma AcceptedRequestIsBulks(s: bytes, env: Env)
    requires DecodeMultiBulk(s, env).Ok?
    ensures var ms := DecodeMultiBulk(s, env).value;
            && ms != [] && AllBulks(ms) && NormalAll(ms) == ms
            && (s[0] == ARRAY ==> ArrayFits(Items(ms), env.cap))
  {
    if s[0] == ARRAY {
      var d := DecodeInt(s[1..], env);
      DecodedIntFits(s[1..], env);
      DecodeBulksIsDecodeMany(d.rest, d.value, env);
      DecodedManyFit(d.rest, d.value, env);
    } else {
      BulksAreNormal(Words(DecodeText(s, env).value));
    }
  }

  /** An accepted request can be forwarded and read back exactly when it fits the limits: an inline command need not. */
  lemma AcceptedRequestReencodes(s: bytes, env: Env)
    requires DecodeMultiBulk(s, env).Ok?
    ensures var ms := DecodeMultiBulk(s, env).value;
            (forall t :: DecodeMultiBulk(EncodeMultiBulk(Items(ms)) + t, env) == Ok(ms, t)) <==>
              ArrayFits(Items(ms), env.cap)
  {
    var ms := DecodeMultiBulk(s, env).value;
    AcceptedRequestIsBulks(s, env);
    MultiBulkRoundTripExactly(Items(ms), env);
  }

  lemma {:induction false} BulksAreNormal(ws: seq<bytes>)
    ensures NormalAll(Bulks(ws)) == Bulks(ws) && AllBulks(Bulks(ws))
  {
    if ws != [] {
      BulksAreNormal(ws[1..]);
      assert Bulks(ws)[1..] == Bulks(ws[1..]);
    }
  }

  /** An inline command of n words. */
  function Inline(n: nat): bytes {
    if n == 0 then [] else [97, SPACE] + Inline(n - 1)
  }

  lemma FirstWord(rest: bytes)
    ensures Words([97, SPACE] + rest) == [[97]] + Words(rest)
  {
    hide IndexOf;
    var s: bytes := [97, SPACE] + rest;
    assert s[0] == 97 && s[1] == SPACE && s[..1] == [97] && s[2..] == rest;
    IndexOfUnique(s, SPACE, 1);
  }

  lemma {:induction false} InlineWords(n: nat)
    ensures LF !in Inline(n) && |Words(Inline(n))| == n
  {
    hide Words;
    if n == 0 {
      NoWords();
    } else {
      InlineWords(n - 1);
      FirstWord(Inline(n - 1));
    }
  }

  /** Such a command is accepted and cannot be read back once forwarded, whatever the buffer, if it has too many words. */
  lemma LongInlineIsLost(n: nat, env: Env)
    requires n > MAX_ARRAY_LEN
    ensures
      var d := DecodeMultiBulk(Inline(n) + CRLF, env);
      && d.Ok? && |d.value| == n
      && !forall t :: DecodeMultiBulk(EncodeMultiBulk(Items(d.value)) + t, env) == Ok(d.value, t)
  {
    hide Words, Bulks, DecodeText, EncodeMultiBulk;
    InlineWords(n);
    var s := Inline(n) + CRLF;
    assert s + [] == s && s[0] == 97;
    TextRoundTrip(Inline(n), [], env);
    AcceptedRequestReencodes(s, env);
  }
}
