/** Encoder, write buffer, wire, read buffer and decoder put together: what is sent is what arrives. */
module Transfer {
  import opened Wrappers
  import opened Bytes
  import opened Numbers
  import opened Stream
  import opened Slices
  import opened BufReader
  import opened BufWriter
  import opened Encoder
  import opened Decoder
  import opened RespTheorems
  import opened WireFormat
  import R = Resp

  type Resp = R.Resp

  /** Encodes the values in order, flushing after the i-th one when `flushes` says so, and at the end. */
  method Send(e: Encoder, rs: seq<Resp>, flushes: seq<bool>)
    requires e.Valid() && e.err.None? && e.bw.wr.script == [] && R.AllKnown(rs) && |flushes| == |rs|
    modifies e, e.bw, e.bw.buf, e.bw.wr
    ensures e.Valid() && e.err.None? && e.bw.wr.script == []
    ensures e.bw.wr.delivered == old(e.bw.Accepted()) + R.EncodeAll(rs) == e.bw.Accepted()
  {
    hide R.Encode, R.Known;
    ghost var start := e.bw.Accepted();
    ghost var done: bytes := [];
    assert rs[0..] == rs;
    for i := 0 to |rs|
      invariant e.Valid() && e.err.None? && e.bw.wr.script == []
      invariant R.AllKnown(rs[i..]) && R.EncodeAll(rs) == done + R.EncodeAll(rs[i..])
      invariant e.bw.Accepted() == start + done
    {
      assert rs[i..][1..] == rs[i + 1..] && rs[i..][0] == rs[i];
      Regroup(start, done, R.Encode(rs[i]));
      Regroup(done, R.Encode(rs[i]), R.EncodeAll(rs[i + 1..]));
      var er := e.Encode(rs[i], flushes[i]);
      done := done + R.Encode(rs[i]);
    }
    assert rs[|rs|..] == [];
    var er := e.Flush();
  }

  /** Decodes `n` values, stopping at the first error. */
  method Receive(d: Decoder, n: nat) returns (rs: seq<Resp>, e: Option<Error>)
    requires d.Valid() && d.err.None?
    modifies d, d.br.Footprint()
    ensures d.Valid()
    ensures match R.DecodeMany(old(d.br.Pending()), n, d.br.Env())
            case Ok(value, rest) => e.None? && rs == value && d.br.Pending() == rest
            case Bad(er) => e == Some(er)
  {
    hide R.Decode, Flatten;
    rs := [];
    ghost var all := R.DecodeMany(d.br.Pending(), n, d.br.Env());
    PrependNothing(all);
    for i := 0 to n
      invariant d.Valid() && d.err.None?
      invariant fresh(d.br.Footprint() - old(d.br.Footprint()))
      invariant all == Prepend(rs, R.DecodeMany(d.br.Pending(), n - i, d.br.Env()))
    {
      var r, er := d.Decode();
      if er.Some? {
        return [], er;
      }
      ghost var tail := R.DecodeMany(d.br.Pending(), n - i - 1, d.br.Env());
      if tail.Ok? {
        PrependOne(rs, r, tail.value);
      }
      rs := rs + [r];
    }
    e := None;
  }

  function BufferSize(size: int): nat {
    if size <= 0 then 1024 else size
  }

  /**
   * For any values that fit the limits, any write buffer, any moments of flushing, any read buffer that holds their
   * length lines and any way the stream is cut into reads: the values arrive in order and the rest stays unread.
   */
  method ValuesArrive(rs: seq<Resp>, wsize: int, flushes: seq<bool>, rsize: int, chunks: seq<bytes>, tail: bytes)
    returns (wire: bytes, out: seq<Resp>, rest: bytes)
    requires AllEncodable(rs, BufferSize(rsize)) && |flushes| == |rs|
    requires Flatten(chunks) == R.EncodeAll(rs) + tail && forall i :: 0 <= i < |chunks| ==> chunks[i] != []
    ensures wire == R.EncodeAll(rs)
    ensures out == NormalAll(rs) && rest == tail
    ensures AllPlain(rs) ==> out == rs
  {
    hide Flatten, R.EncodeAll, R.DecodeMany, R.AllKnown, AllEncodable, NormalAll, AllPlain;
    hide Encoder.Valid, Reader.Valid, Reader.Pending;
    ghost var env := Env(BufferSize(rsize), EOF);
    ManyRoundTrip(rs, tail, env);
    if AllPlain(rs) {
      AllPlainIsNormal(rs);
    }
    var e := NewSender(wsize);
    Send(e, rs, flushes);
    wire := e.bw.wr.delivered;
    var d := NewReceiver(rsize, chunks);
    var er;
    out, er := Receive(d, |rs|);
    rest := Unread(d.br);
  }

  /** An encoder on a new connection whose every write succeeds. */
  method NewSender(wsize: int) returns (e: Encoder)
    ensures e.Valid() && e.err.None? && e.bw.wr.script == [] && e.bw.Accepted() == []
    ensures fresh(e) && fresh(e.bw) && fresh(e.bw.buf) && fresh(e.bw.wr)
  {
    var table := new ItoaTable();
    var sink := new Sink([]);
    var w := new Writer(sink, wsize);
    e := new Encoder(w, table);
  }

  /** A decoder on a connection that delivers these chunks and ends. */
  method NewReceiver(rsize: int, chunks: seq<bytes>) returns (d: Decoder)
    requires forall i :: 0 <= i < |chunks| ==> chunks[i] != []
    ensures d.Valid() && d.err.None? && d.br.Pending() == Flatten(chunks)
    ensures d.br.Env() == Env(BufferSize(rsize), EOF)
    ensures fresh(d) && fresh(d.br.Footprint())
  {
    hide Flatten;
    var source := new Source(chunks, EOF);
    var r := new Reader(source, rsize);
    d := new Decoder(r);
  }

  /** Everything a reader has not consumed. */
  method Unread(r: Reader) returns (s: bytes)
    requires r.Valid()
    ensures s == r.Pending()
  {
    s := r.buf[r.rpos..r.wpos];
    var i := 0;
    assert r.rd.chunks[0..] == r.rd.chunks;
    while i < |r.rd.chunks|
      invariant i <= |r.rd.chunks|
      invariant s + Flatten(r.rd.chunks[i..]) == r.Pending()
    {
      assert r.rd.chunks[i..][1..] == r.rd.chunks[i + 1..];
      Regroup(s, r.rd.chunks[i], Flatten(r.rd.chunks[i + 1..]));
      s := s + r.rd.chunks[i];
      i := i + 1;
    }
    assert r.rd.chunks[|r.rd.chunks|..] == [];
  }

  predicate AllRequests(ms: seq<seq<Resp>>, cap: nat) {
    ms == [] || (MultiEncodable(R.Items(ms[0]), cap) && AllRequests(ms[1..], cap))
  }

  function EncodeRequests(ms: seq<seq<Resp>>): bytes {
    if ms == [] then [] else R.EncodeMultiBulk(R.Items(ms[0])) + EncodeRequests(ms[1..])
  }

  function NormalRequests(ms: seq<seq<Resp>>): seq<seq<Resp>> {
    if ms == [] then [] else [NormalAll(ms[0])] + NormalRequests(ms[1..])
  }

  lemma {:induction false} PlainRequests(ms: seq<seq<Resp>>, cap: nat)
    requires AllRequests(ms, cap) && forall m :: m in ms ==> AllPlain(m)
    ensures NormalRequests(ms) == ms
  {
    hide AllPlain, NormalAll, AllEncodable, R.AllKnown, R.DecodeMany, R.EncodeAll;
    if ms != [] {
      ManyRoundTrip(ms[0], [], Env(cap, EOF));
      AllPlainIsNormal(ms[0]);
      PlainRequests(ms[1..], cap);
    }
  }

  /** The same for client requests: non-empty lists of bulk strings. */
  method RequestsArrive(ms: seq<seq<Resp>>, wsize: int, flushes: seq<bool>, rsize: int, chunks: seq<bytes>, tail: bytes)
    returns (wire: bytes, out: seq<seq<Resp>>, rest: bytes)
    requires AllRequests(ms, BufferSize(rsize)) && |flushes| == |ms|
    requires Flatten(chunks) == EncodeRequests(ms) + tail && forall i :: 0 <= i < |chunks| ==> chunks[i] != []
    ensures wire == EncodeRequests(ms)
    ensures out == NormalRequests(ms) && rest == tail
    ensures (forall m :: m in ms ==> AllPlain(m)) ==> out == ms
  {
    hide Flatten, EncodeRequests, AllRequests, NormalRequests, AllPlain;
    hide Encoder.Valid, Reader.Valid, Reader.Pending;
    var e := NewSender(wsize);
    SendRequests(e, ms, flushes, BufferSize(rsize));
    wire := e.bw.wr.delivered;
    var d := NewReceiver(rsize, chunks);
    out := ReceiveRequests(d, |ms|, ms, tail);
    if forall m :: m in ms ==> AllPlain(m) {
      PlainRequests(ms, BufferSize(rsize));
    }
    rest := Unread(d.br);
  }

  method SendRequest(e: Encoder, m: seq<Resp>, flush: bool, ghost cap: nat)
    requires e.Valid() && e.err.None? && e.bw.wr.script == [] && MultiEncodable(R.Items(m), cap)
    modifies e, e.bw, e.bw.buf, e.bw.wr
    ensures e.Valid() && e.err.None? && e.bw.wr.script == []
    ensures e.bw.Accepted() == old(e.bw.Accepted()) + R.EncodeMultiBulk(R.Items(m))
  {
    hide R.EncodeMultiBulk, MultiEncodable, KnownItems;
    RequestKnown(m, cap);
    var er := e.EncodeMultiBulk(R.Items(m), flush);
  }

  method SendRequests(e: Encoder, ms: seq<seq<Resp>>, flushes: seq<bool>, ghost cap: nat)
    requires e.Valid() && e.err.None? && e.bw.wr.script == [] && AllRequests(ms, cap) && |flushes| == |ms|
    modifies e, e.bw, e.bw.buf, e.bw.wr
    ensures e.Valid() && e.err.None? && e.bw.wr.script == []
    ensures e.bw.wr.delivered == old(e.bw.Accepted()) + EncodeRequests(ms) == e.bw.Accepted()
  {
    hide R.EncodeMultiBulk, MultiEncodable;
    ghost var start := e.bw.Accepted();
    ghost var done: bytes := [];
    assert ms[0..] == ms;
    for i := 0 to |ms|
      invariant e.Valid() && e.err.None? && e.bw.wr.script == []
      invariant AllRequests(ms[i..], cap) && EncodeRequests(ms) == done + EncodeRequests(ms[i..])
      invariant e.bw.Accepted() == start + done
    {
      assert ms[i..][1..] == ms[i + 1..] && ms[i..][0] == ms[i];
      ghost var text := R.EncodeMultiBulk(R.Items(ms[i]));
      Regroup(start, done, text);
      Regroup(done, text, EncodeRequests(ms[i + 1..]));
      SendRequest(e, ms[i], flushes[i], cap);
      done := done + text;
    }
    assert ms[|ms|..] == [];
    var er := e.Flush();
  }

  lemma RequestKnown(m: seq<Resp>, cap: nat)
    requires MultiEncodable(R.Items(m), cap)
    ensures KnownItems(R.Items(m))
  {
    ManyRoundTrip(m, [], Env(cap, EOF));
  }

  method ReceiveRequests(d: Decoder, n: nat, ghost ms: seq<seq<Resp>>, ghost tail: bytes)
    returns (out: seq<seq<Resp>>)
    requires d.Valid() && d.err.None? && n == |ms| && AllRequests(ms, d.br.buf.Length)
    requires d.br.Pending() == EncodeRequests(ms) + tail
    modifies d, d.br.Footprint()
    ensures d.Valid() && d.br.Pending() == tail && out == NormalRequests(ms)
  {
    hide R.EncodeMultiBulk, R.DecodeMultiBulk, MultiEncodable, NormalAll, Flatten;
    out := [];
    assert ms[0..] == ms;
    for i := 0 to n
      invariant d.Valid() && d.err.None?
      invariant fresh(d.br.Footprint() - old(d.br.Footprint()))
      invariant AllRequests(ms[i..], d.br.buf.Length)
      invariant d.br.Pending() == EncodeRequests(ms[i..]) + tail
      invariant NormalRequests(ms) == out + NormalRequests(ms[i..])
    {
      assert ms[i..][1..] == ms[i + 1..] && ms[i..][0] == ms[i];
      Regroup(R.EncodeMultiBulk(R.Items(ms[i])), EncodeRequests(ms[i + 1..]), tail);
      var m := ReceiveRequest(d, ms[i], EncodeRequests(ms[i + 1..]) + tail);
      assert out + ([m] + NormalRequests(ms[i + 1..])) == (out + [m]) + NormalRequests(ms[i + 1..]);
      out := out + [m];
    }
    assert ms[|ms|..] == [];
    assert out + [] == out;
  }

  method ReceiveRequest(d: Decoder, ghost m: seq<Resp>, ghost after: bytes) returns (out: seq<Resp>)
    requires d.Valid() && d.err.None? && MultiEncodable(R.Items(m), d.br.buf.Length)
    requires d.br.Pending() == R.EncodeMultiBulk(R.Items(m)) + after
    modifies d, d.br.Footprint()
    ensures d.Valid() && d.err.None? && fresh(d.br.Footprint() - old(d.br.Footprint()))
    ensures d.br.Pending() == after && out == NormalAll(m)
  {
    hide R.EncodeMultiBulk, R.DecodeMultiBulk, MultiEncodable, NormalAll, Flatten;
    MultiBulkRoundTrip(R.Items(m), after, d.br.Env());
    var er;
    out, er := d.DecodeMultiBulk();
  }
}
