/** The decoder of decoder.go on the real read buffer, proved equal to the reference decoder on the stream. */
module Decoder {
  import opened Wrappers
  import opened Bytes
  import opened Numbers
  import opened Stream
  import opened BufReader
  import R = Resp

  type Resp = R.Resp

  const NOTHING: Resp := R.Resp(0, None, R.Nil)

  /** A result that only needs `rs` in front of it. */
  function Prepend(rs: seq<Resp>, d: Decoded<seq<Resp>>): Decoded<seq<Resp>> {
    match d
    case Bad(e) => Bad(e)
    case Ok(tail, rest) => Ok(rs + tail, rest)
  }

  lemma PrependNothing(d: Decoded<seq<Resp>>)
    ensures Prepend([], d) == d
  {
    assert d.Ok? ==> [] + d.value == d.value;
  }

  lemma PrependOne(rs: seq<Resp>, r: Resp, tail: seq<Resp>)
    ensures rs + ([r] + tail) == (rs + [r]) + tail
  {
  }

  class Decoder {
    const br: Reader
    var err: Option<Error>

    ghost predicate Valid()
      reads this, br, br.rd, br.slice
    {
      br.Valid() && (err.None? ==> br.err.None?)
    }

    constructor (br: Reader)
      requires br.Valid() && br.err.None?
      ensures Valid() && this.br == br && err.None?
    {
      this.br := br;
      this.err := None;
    }

    /** One value. The first error sticks, and every later call reports a failed decoder. */
    method Decode() returns (r: Resp, e: Option<Error>)
      requires Valid()
      modifies this, br.Footprint()
      ensures Valid() && e == (if old(err).Some? then Some(FailedDecoder) else err)
      ensures fresh(br.Footprint() - old(br.Footprint())) && br.slice.Keeps()
      ensures old(err).Some? ==> err == old(err) && br.Pending() == old(br.Pending())
      ensures old(err).None? ==>
        match R.Decode(old(br.Pending()), br.Env())
        case Ok(value, rest) => e.None? && r == value && br.Pending() == rest
        case Bad(er) => e == Some(er)
    {
      hide R.Decode, Flatten;
      if err.Some? {
        return NOTHING, Some(FailedDecoder);
      }
      r, e := DecodeResp();
      if e.Some? {
        err := e;
      }
    }

    /** One client request, under the same rule. */
    method DecodeMultiBulk() returns (multi: seq<Resp>, e: Option<Error>)
      requires Valid()
      modifies this, br.Footprint()
      ensures Valid() && e == (if old(err).Some? then Some(FailedDecoder) else err)
      ensures fresh(br.Footprint() - old(br.Footprint())) && br.slice.Keeps()
      ensures old(err).Some? ==> err == old(err) && br.Pending() == old(br.Pending())
      ensures old(err).None? ==>
        match R.DecodeMultiBulk(old(br.Pending()), br.Env())
        case Ok(value, rest) => e.None? && multi == value && br.Pending() == rest
        case Bad(er) => e == Some(er)
    {
      hide R.DecodeMultiBulk, Flatten;
      if err.Some? {
        return [], Some(FailedDecoder);
      }
      multi, e := DecodeRequest();
      if e.Some? {
        err := e;
      }
    }

    method DecodeResp() returns (r: Resp, e: Option<Error>)
      requires br.Valid() && br.err.None?
      modifies br.Footprint()
      ensures br.Valid() && fresh(br.Footprint() - old(br.Footprint())) && br.slice.Keeps()
      ensures match R.Decode(old(br.Pending()), br.Env())
              case Ok(value, rest) => e.None? && r == value && br.Pending() == rest && br.err.None?
              case Bad(er) => e == Some(er)
      decreases |br.Pending()|, 0
    {
      hide R.DecodeText, R.DecodeBulk, R.DecodeArray, Flatten;
      r := NOTHING;
      ghost var s := br.Pending();
      var b;
      b, e := br.ReadByte();
      if e.Some? {
        return;
      }
      assert s[0] == b && s[1..] == br.Pending();
      if b == R.STRING || b == R.ERROR || b == R.INT {
        var text;
        text, e := DecodeTextBytes();
        r := R.Resp(b, Some(text), R.Nil);
      } else if b == R.BULK {
        var value;
        value, e := DecodeBulkBytes();
        r := R.Resp(b, value, R.Nil);
      } else if b == R.ARRAY {
        var items;
        items, e := DecodeArray();
        r := R.Resp(b, None, items);
      } else {
        e := Some(BadRespType(b));
      }
    }

    method DecodeTextBytes() returns (text: bytes, e: Option<Error>)
      requires br.Valid() && br.err.None?
      modifies br.Footprint()
      ensures br.Valid() && fresh(br.Footprint() - old(br.Footprint())) && br.slice.Keeps()
      ensures match R.DecodeText(old(br.Pending()), br.Env())
              case Ok(value, rest) => e.None? && text == value && br.Pending() == rest && br.err.None?
              case Bad(er) => e == Some(er)
    {
      hide Stream.ReadBytes, Flatten;
      text := [];
      var line;
      line, e := br.ReadBytes(LF);
      if e.Some? {
        return;
      }
      var b := line.View();
      var n := |b| - 2;
      if n < 0 || b[n] != CR {
        return [], Some(BadCRLFEnd);
      }
      return b[..n], None;
    }

    method DecodeInt() returns (n: int, e: Option<Error>)
      requires br.Valid() && br.err.None?
      modifies br.Footprint()
      ensures br.Valid() && fresh(br.Footprint() - old(br.Footprint())) && br.slice.Keeps()
      ensures match R.DecodeInt(old(br.Pending()), br.Env())
              case Ok(value, rest) => e.None? && n == value && br.Pending() == rest && br.err.None?
              case Bad(er) => e == Some(er)
    {
      hide Stream.ReadSlice, ParseInt, Flatten;
      n := 0;
      var line;
      line, e := br.ReadSlice(LF);
      if e.Some? {
        return;
      }
      var b := line.View();
      var k := |b| - 2;
      if k < 0 || b[k] != CR {
        return 0, Some(BadCRLFEnd);
      }
      var v := Btoi64(b[..k]);
      if v.None? {
        return 0, Some(BadInt);
      }
      return v.value, None;
    }

    method DecodeBulkBytes() returns (value: Option<bytes>, e: Option<Error>)
      requires br.Valid() && br.err.None?
      modifies br.Footprint()
      ensures br.Valid() && fresh(br.Footprint() - old(br.Footprint())) && br.slice.Keeps()
      ensures match R.DecodeBulk(old(br.Pending()), br.Env())
              case Ok(v, rest) => e.None? && value == v && br.Pending() == rest && br.err.None?
              case Bad(er) => e == Some(er)
    {
      hide R.DecodeInt, Stream.ReadFull, Flatten, Reader.Pending, Reader.Valid;
      value := None;
      var n;
      n, e := DecodeInt();
      if e.Some? {
        return;
      }
      if n < -1 {
        return None, Some(BadBulkBytesLen);
      }
      if n > R.MAX_BULK_BYTES_LEN {
        return None, Some(BadBulkBytesLenTooLong);
      }
      if n == -1 {
        return None, None;
      }
      var full;
      full, e := br.ReadFull(n + 2);
      if e.Some? {
        return;
      }
      var b := full.View();
      if b[n] != CR || b[n + 1] != LF {
        return None, Some(BadCRLFEnd);
      }
      return Some(b[..n]), None;
    }

    method DecodeArray() returns (items: R.Items, e: Option<Error>)
      requires br.Valid() && br.err.None?
      modifies br.Footprint()
      ensures br.Valid() && fresh(br.Footprint() - old(br.Footprint())) && br.slice.Keeps()
      ensures match R.DecodeArray(old(br.Pending()), br.Env())
              case Ok(v, rest) => e.None? && items == v && br.Pending() == rest && br.err.None?
              case Bad(er) => e == Some(er)
      decreases |br.Pending()|, 1
    {
      hide R.DecodeInt, R.DecodeMany, Flatten;
      items := R.Nil;
      var n;
      n, e := DecodeInt();
      if e.Some? {
        return;
      }
      if n < -1 {
        return R.Nil, Some(BadArrayLen);
      }
      if n > R.MAX_ARRAY_LEN {
        return R.Nil, Some(BadArrayLenTooLong);
      }
      if n == -1 {
        return R.Nil, None;
      }
      var elems;
      elems, e := DecodeElements(n);
      if e.None? {
        items := R.Items(elems);
      }
    }

    /** The loop that fills an array. */
    method DecodeElements(n: nat) returns (elems: seq<Resp>, e: Option<Error>)
      requires br.Valid() && br.err.None?
      modifies br.Footprint()
      ensures br.Valid() && fresh(br.Footprint() - old(br.Footprint())) && br.slice.Keeps()
      ensures match R.DecodeMany(old(br.Pending()), n, br.Env())
              case Ok(v, rest) => e.None? && elems == v && br.Pending() == rest && br.err.None?
              case Bad(er) => e == Some(er)
      decreases |br.Pending()|, 1
    {
      hide R.Decode, Flatten;
      elems := [];
      ghost var all := R.DecodeMany(br.Pending(), n, br.Env());
      PrependNothing(all);
      for i := 0 to n
        invariant br.Valid() && fresh(br.Footprint() - old(br.Footprint())) && br.slice.Keeps()
        invariant br.err.None? && |br.Pending()| <= old(|br.Pending()|)
        invariant all == Prepend(elems, R.DecodeMany(br.Pending(), n - i, br.Env()))
      {
        var r, er := DecodeResp();
        if er.Some? {
          return [], er;
        }
        ghost var tail := R.DecodeMany(br.Pending(), n - i - 1, br.Env());
        if tail.Ok? {
          PrependOne(elems, r, tail.value);
        }
        elems := elems + [r];
      }
      e := None;
    }

    method DecodeSingleLineMultiBulk() returns (multi: seq<Resp>, e: Option<Error>)
      requires br.Valid() && br.err.None?
      modifies br.Footprint()
      ensures br.Valid() && fresh(br.Footprint() - old(br.Footprint())) && br.slice.Keeps()
      ensures match R.DecodeText(old(br.Pending()), br.Env())
              case Ok(text, rest) =>
                && br.Pending() == rest && br.err.None?
                && (if R.Words(text) == [] then e == Some(BadMultiBulkLen)
                    else e.None? && multi == R.Bulks(R.Words(text)))
              case Bad(er) => e == Some(er)
    {
      hide R.DecodeText, Flatten;
      multi := [];
      var b;
      b, e := DecodeTextBytes();
      if e.Some? {
        return;
      }
      multi := SplitWords(b);
      if |multi| == 0 {
        return [], Some(BadMultiBulkLen);
      }
    }

    method DecodeRequest() returns (multi: seq<Resp>, e: Option<Error>)
      requires br.Valid() && br.err.None?
      modifies br.Footprint()
      ensures br.Valid() && fresh(br.Footprint() - old(br.Footprint())) && br.slice.Keeps()
      ensures match R.DecodeMultiBulk(old(br.Pending()), br.Env())
              case Ok(v, rest) => e.None? && multi == v && br.Pending() == rest && br.err.None?
              case Bad(er) => e == Some(er)
    {
      hide R.DecodeText, R.DecodeInt, R.DecodeBulks, R.Words, R.Bulks, Flatten;
      multi := [];
      ghost var s := br.Pending();
      var b;
      b, e := br.PeekByte();
      if e.Some? {
        return;
      }
      if b != R.ARRAY {
        multi, e := DecodeSingleLineMultiBulk();
        return;
      }
      b, e := br.ReadByte();
      if e.Some? {
        return;
      }
      assert s[1..] == br.Pending();
      var n;
      n, e := DecodeInt();
      if e.Some? {
        return;
      }
      if n <= 0 {
        return [], Some(BadArrayLen);
      }
      if n > R.MAX_ARRAY_LEN {
        return [], Some(BadArrayLenTooLong);
      }
      multi, e := DecodeBulks(n);
    }

    /** The loop that fills a request, refusing anything but bulk strings. */
    method DecodeBulks(n: nat) returns (multi: seq<Resp>, e: Option<Error>)
      requires br.Valid() && br.err.None?
      modifies br.Footprint()
      ensures br.Valid() && fresh(br.Footprint() - old(br.Footprint())) && br.slice.Keeps()
      ensures match R.DecodeBulks(old(br.Pending()), n, br.Env())
              case Ok(v, rest) => e.None? && multi == v && br.Pending() == rest && br.err.None?
              case Bad(er) => e == Some(er)
    {
      hide R.Decode, Flatten;
      multi := [];
      ghost var all := R.DecodeBulks(br.Pending(), n, br.Env());
      PrependNothing(all);
      for i := 0 to n
        invariant br.Valid() && fresh(br.Footprint() - old(br.Footprint())) && br.slice.Keeps()
        invariant br.err.None?
        invariant all == Prepend(multi, R.DecodeBulks(br.Pending(), n - i, br.Env()))
      {
        var r, er := DecodeResp();
        if er.Some? {
          return [], er;
        }
        if r.kind != R.BULK {
          return [], Some(BadMultiBulkContent);
        }
        ghost var tail := R.DecodeBulks(br.Pending(), n - i - 1, br.Env());
        if tail.Ok? {
          PrependOne(multi, r, tail.value);
        }
        multi := multi + [r];
      }
      e := None;
    }
  }

  /** The scan over an inline command finds its words. */
  method SplitWords(b: bytes) returns (multi: seq<Resp>)
    ensures multi == R.Bulks(R.Words(b))
  {
    hide R.Words, R.Bulks;
    multi := [];
    ghost var ws: seq<bytes> := [];
    ghost var tail := R.Words(b);
    BulksOfNothing();
    assert b[0..] == b;
    var l, r := 0, 0;
    while r <= |b|
      invariant l <= r <= |b| + 1
      invariant multi == R.Bulks(ws)
      invariant R.Words(b) == ws + tail
      invariant if l <= |b| then r <= |b| && tail == R.Words(b[l..]) && SPACE !in b[l..r] else tail == []
    {
      if r == |b| || b[r] == SPACE {
        NextWord(b, l, r);
        tail := if r == |b| then [] else R.Words(b[r + 1..]);
        if l < r {
          BulksSnoc(ws, b[l..r]);
          assert ws + ([b[l..r]] + tail) == (ws + [b[l..r]]) + tail;
          ws := ws + [b[l..r]];
          multi := multi + [R.NewBulkBytes(b[l..r])];
        }
        l := r + 1;
      }
      r := r + 1;
    }
    assert ws + [] == ws;
  }

  lemma BulksOfNothing()
    ensures R.Bulks([]) == []
  {
  }

  lemma WordEnd(b: bytes, l: nat, r: nat)
    requires l <= r <= |b| && SPACE !in b[l..r] && (r == |b| || b[r] == SPACE)
    ensures IndexOf(b[l..], SPACE) == r - l
  {
    hide IndexOf;
    var s := b[l..];
    assert forall i :: 0 <= i < r - l ==> s[i] == b[l..r][i];
    if r < |b| {
      IndexOfUnique(s, SPACE, r - l);
    } else {
      IndexOfAbsent(s, SPACE);
    }
  }

  /** Words, one step. */
  lemma WordsStep(s: bytes)
    requires s != []
    ensures
      var k := IndexOf(s, SPACE);
      R.Words(s) == R.AddWord(s[..k], if k == |s| then [] else R.Words(s[k + 1..]))
  {
    hide IndexOf, R.AddWord;
  }

  lemma NextWord(b: bytes, l: nat, r: nat)
    requires l <= r <= |b| && SPACE !in b[l..r] && (r == |b| || b[r] == SPACE)
    ensures var tail := if r == |b| then [] else R.Words(b[r + 1..]);
            R.Words(b[l..]) == if l < r then [b[l..r]] + tail else tail
  {
    hide IndexOf, R.Words;
    WordEnd(b, l, r);
    var s := b[l..];
    if s == [] {
      R.NoWords();
    } else {
      WordsStep(s);
    }
    assert s[..r - l] == b[l..r];
    if r < |b| {
      assert s[r - l + 1..] == b[r + 1..];
    }
  }

  lemma {:induction false} BulksSnoc(ws: seq<bytes>, w: bytes)
    ensures R.Bulks(ws + [w]) == R.Bulks(ws) + [R.NewBulkBytes(w)]
  {
    if ws != [] {
      assert (ws + [w])[1..] == ws[1..] + [w];
      BulksSnoc(ws[1..], w);
    }
  }
}
