/** The encoder of encoder.go on the real write buffer, proved to write the reference encoding. */
module Encoder {
  import opened Wrappers
  import opened Bytes
  import opened Numbers
  import opened BufWriter
  import R = Resp

  type Resp = R.Resp

  class Encoder {
    const bw: Writer
    const table: ItoaTable
    var err: Option<Error>

    ghost predicate Valid()
      reads this, bw, table, table.offset
    {
      bw.Valid() && table.Valid() && (err.None? ==> bw.err.None?)
    }

    constructor (bw: Writer, table: ItoaTable)
      requires bw.Valid() && table.Valid() && bw.err.None?
      ensures Valid() && this.bw == bw && this.table == table && err.None?
    {
      this.bw := bw;
      this.table := table;
      this.err := None;
    }

    /** An error of the write buffer is passed on; otherwise the value has an unknown kind somewhere, and it is named. */
    ghost predicate Explains(e: Error)
      reads bw
    {
      if bw.err.Some? then Some(e) == bw.err else e.BadRespType? && !R.IsKind(e.kind)
    }

    /** One value, then a flush on demand. The first error sticks. */
    method Encode(r: Resp, flush: bool) returns (e: Option<Error>)
      requires Valid()
      modifies this, bw, bw.buf, bw.wr
      ensures Valid() && e == (if old(err).Some? then Some(FailedEncoder) else err)
      ensures old(err).Some? ==> err == old(err) && unchanged(bw, bw.buf, bw.wr)
      ensures old(err).None? ==> bw.Sent(R.Encode(r))
      ensures e.None? ==> R.Known(r) && (flush ==> bw.wr.delivered == bw.Accepted())
      ensures e.Some? && old(err).None? ==> bw.err.Some? || !R.Known(r)
      ensures e.Some? && old(err).None? ==>
        if bw.err.Some? then e == bw.err
        else e.value.BadRespType? && e.value.kind !in {43, 45, 58, 36, 42} && (r.kind != R.ARRAY ==> e.value.kind == r.kind)
    {
      hide R.Encode, R.Known;
      if err.Some? {
        return Some(FailedEncoder);
      }
      e := EncodeResp(r);
      if e.Some? {
        err := e;
      } else if flush {
        err := bw.Flush();
      }
      e := err;
    }

    /** One request, under the same rule. */
    method EncodeMultiBulk(multi: R.Items, flush: bool) returns (e: Option<Error>)
      requires Valid()
      modifies this, bw, bw.buf, bw.wr
      ensures Valid() && e == (if old(err).Some? then Some(FailedEncoder) else err)
      ensures old(err).Some? ==> err == old(err) && unchanged(bw, bw.buf, bw.wr)
      ensures old(err).None? ==> bw.Sent(R.EncodeMultiBulk(multi))
      ensures e.None? ==> KnownItems(multi) && (flush ==> bw.wr.delivered == bw.Accepted())
      ensures e.Some? && old(err).None? ==> bw.err.Some? || !KnownItems(multi)
      ensures e.Some? && old(err).None? ==>
        if bw.err.Some? then e == bw.err else e.value.BadRespType? && e.value.kind !in {43, 45, 58, 36, 42}
    {
      hide R.EncodeArray, KnownItems;
      if err.Some? {
        return Some(FailedEncoder);
      }
      Regroup(bw.Accepted(), [R.ARRAY], R.EncodeArray(multi));
      e := bw.WriteByte(R.ARRAY);
      if e.None? {
        e := EncodeArray(multi);
      }
      if e.Some? {
        err := e;
      } else if flush {
        err := bw.Flush();
      }
      e := err;
    }

    method Flush() returns (e: Option<Error>)
      requires Valid()
      modifies this, bw, bw.wr
      ensures Valid() && e == (if old(err).Some? then Some(FailedEncoder) else err)
      ensures old(err).Some? ==> err == old(err) && unchanged(bw, bw.wr)
      ensures old(err).None? ==> bw.Sent([])
      ensures e.None? ==> bw.wr.delivered == bw.Accepted()
      ensures e.Some? && old(err).None? ==> bw.err.Some?
    {
      if err.Some? {
        return Some(FailedEncoder);
      }
      e := bw.Flush();
      if e.Some? {
        err := e;
      }
      e := err;
    }

    method EncodeResp(r: Resp) returns (e: Option<Error>)
      requires Valid() && err.None?
      modifies bw, bw.buf, bw.wr
      ensures bw.Valid() && bw.Sent(R.Encode(r))
      ensures e.None? <==> bw.err.None? && R.Known(r)
      ensures e.Some? ==> Explains(e.value) && (bw.err.None? && r.kind != R.ARRAY ==> e == Some(BadRespType(r.kind)))
      decreases r, 1
    {
      hide R.EncodeBulk, R.EncodeArray, R.AllKnown;
      Regroup(bw.Accepted(), [r.kind], R.Encode(r)[1..]);
      e := bw.WriteByte(r.kind);
      if e.Some? {
        return;
      }
      if r.kind == R.STRING || r.kind == R.ERROR || r.kind == R.INT {
        e := EncodeTextBytes(R.Payload(r.value));
      } else if r.kind == R.BULK {
        e := EncodeBulkBytes(r.value);
      } else if r.kind == R.ARRAY {
        e := EncodeArray(r.items);
      } else {
        e := Some(BadRespType(r.kind));
      }
    }

    method EncodeTextBytes(b: bytes) returns (e: Option<Error>)
      requires Valid() && err.None?
      modifies bw, bw.buf, bw.wr
      ensures bw.Valid() && bw.Sent(b + CRLF)
      ensures e == bw.err
    {
      Regroup(bw.Accepted(), b, CRLF);
      var n;
      n, e := bw.Write(b);
      if e.Some? {
        return;
      }
      n, e := bw.WriteString(CRLF);
    }

    method EncodeInt(v: int) returns (e: Option<Error>)
      requires Valid() && err.None?
      modifies bw, bw.buf, bw.wr
      ensures bw.Valid() && bw.Sent(R.Line(v))
      ensures e == bw.err
    {
      hide FormatInt;
      var s := table.Itoa(v);
      Regroup(bw.Accepted(), s, CRLF);
      var n;
      n, e := bw.WriteString(s);
      if e.Some? {
        return;
      }
      n, e := bw.WriteString(CRLF);
    }

    method EncodeBulkBytes(value: Option<bytes>) returns (e: Option<Error>)
      requires Valid() && err.None?
      modifies bw, bw.buf, bw.wr
      ensures bw.Valid() && bw.Sent(R.EncodeBulk(value))
      ensures e == bw.err
    {
      hide R.Line;
      if value.None? {
        e := EncodeInt(-1);
      } else {
        Regroup(bw.Accepted(), R.Line(|value.value|), value.value + CRLF);
        e := EncodeInt(|value.value|);
        if e.Some? {
          return;
        }
        e := EncodeTextBytes(value.value);
      }
    }

    method EncodeArray(items: R.Items) returns (e: Option<Error>)
      requires Valid() && err.None?
      modifies bw, bw.buf, bw.wr
      ensures bw.Valid() && bw.Sent(R.EncodeArray(items))
      ensures e.None? <==> bw.err.None? && KnownItems(items)
      ensures e.Some? ==> Explains(e.value)
      decreases items, 0
    {
      hide R.Line, R.EncodeAll, R.AllKnown;
      if items.Nil? {
        e := EncodeInt(-1);
      } else {
        Regroup(bw.Accepted(), R.Line(|items.elems|), R.EncodeAll(items.elems));
        e := EncodeInt(|items.elems|);
        if e.Some? {
          return;
        }
        e := EncodeElements(items.elems);
      }
    }

    /** The loop over an array's elements. */
    method EncodeElements(elems: seq<Resp>) returns (e: Option<Error>)
      requires Valid() && err.None?
      modifies bw, bw.buf, bw.wr
      ensures bw.Valid() && bw.Sent(R.EncodeAll(elems))
      ensures e.None? <==> bw.err.None? && R.AllKnown(elems)
      ensures e.Some? ==> Explains(e.value)
      decreases elems, 0
    {
      hide R.Encode, R.Known;
      ghost var start := bw.Accepted();
      ghost var all := R.EncodeAll(elems);
      ghost var done: bytes := [];
      e := None;
      assert elems[0..] == elems;
      for i := 0 to |elems|
        invariant Valid() && err.None? && e.None?
        invariant all == done + R.EncodeAll(elems[i..])
        invariant R.AllKnown(elems) <==> R.AllKnown(elems[i..])
        invariant bw.Accepted() == start + done
        invariant old(bw.wr.delivered) <= bw.wr.delivered <= start + all
        invariant |bw.wr.script| <= |old(bw.wr.script)|
      {
        assert elems[i..][1..] == elems[i + 1..] && elems[i..][0] == elems[i];
        Regroup(start, done, R.Encode(elems[i]));
        e := EncodeResp(elems[i]);
        if e.Some? {
          return;
        }
        Regroup(done, R.Encode(elems[i]), R.EncodeAll(elems[i + 1..]));
        done := done + R.Encode(elems[i]);
      }
      assert elems[|elems|..] == [];
    }
  }

  predicate KnownItems(items: R.Items) {
    items.Items? ==> R.AllKnown(items.elems)
  }
}
