/** The write buffer of bufio.go, refined to "bytes delivered, then bytes buffered". */
module BufWriter {
  import opened Wrappers
  import opened Bytes
  import opened Slices

  /** How one call on the underlying io.Writer ends: everything taken, or only `n` bytes, with or without an error. */
  datatype Fate = Whole | Part(n: nat, err: Option<Error>)

  /** The underlying io.Writer. Its script says how the next calls end; after it, every call succeeds. */
  class Sink {
    var delivered: bytes
    var script: seq<Fate>

    constructor (script: seq<Fate>)
      ensures delivered == [] && this.script == script
    {
      delivered := [];
      this.script := script;
    }

    method Write(p: bytes) returns (n: nat, err: Option<Error>)
      modifies this
      ensures n <= |p| && delivered == old(delivered) + p[..n]
      ensures n < |p| || err.Some? ==> |script| < |old(script)|
      ensures |script| <= |old(script)|
      ensures old(script) == [] ==> n == |p| && err.None?
      ensures err == if old(script) != [] && old(script)[0].Part? then old(script)[0].err else None
      ensures n < |p| ==> old(script) != [] && old(script)[0].Part?
    {
      n, err := |p|, None;
      if script != [] {
        if script[0].Part? {
          n := if script[0].n < |p| then script[0].n else |p|;
          err := script[0].err;
        }
        script := script[1..];
      }
      delivered := delivered + p[..n];
    }
  }

  class Writer {
    var err: Option<Error>
    const buf: array<byte>
    const wr: Sink
    var wpos: nat

    ghost predicate Valid()
      reads this
    {
      wpos <= buf.Length && buf.Length > 0
    }

    /** Everything accepted so far: delivered, then buffered. */
    ghost function Accepted(): bytes
      requires Valid()
      reads this, buf, wr
    {
      wr.delivered + buf[..wpos]
    }

    /** The effect of calls that wrote `text`: unless an error stuck, exactly that was accepted; never more was delivered. */
    twostate predicate Sent(text: bytes)
      requires old(Valid()) && Valid()
      reads this, buf, wr
    {
      && (old(err).Some? ==> err == old(err))
      && (err.None? ==> Accepted() == old(Accepted()) + text)
      && old(wr.delivered) <= wr.delivered <= old(Accepted()) + text
      && |wr.script| <= |old(wr.script)|
      && (old(err).None? && old(wr.script) == [] ==> err.None?)
    }

    constructor (wr: Sink, size: int)
      ensures Valid() && this.wr == wr && err.None? && Accepted() == wr.delivered
      ensures buf.Length == if size <= 0 then 1024 else size
      ensures fresh(this) && fresh(buf)
    {
      this.err := None;
      this.buf := new byte[if size <= 0 then 1024 else size];
      this.wr := wr;
      this.wpos := 0;
    }

    function Available(): nat
      requires wpos <= buf.Length
      reads this
    {
      buf.Length - wpos
    }

    /** Sends the buffer. A failed or short delivery sticks; what did go out is a prefix of what was accepted. */
    method Flush() returns (e: Option<Error>)
      requires Valid()
      modifies this`err, this`wpos, wr
      ensures Valid() && e == err && (old(err).Some? ==> err == old(err) && unchanged(this, wr))
      ensures err.None? ==> wpos == 0 && Accepted() == wr.delivered == old(Accepted())
      ensures old(wr.delivered) <= wr.delivered <= old(Accepted())
      ensures |wr.script| <= |old(wr.script)|
      ensures old(err).None? && old(wr.script) == [] ==> err.None?
      ensures err.Some? && old(err).None? ==> |wr.script| < |old(wr.script)|
      ensures err.Some? && old(err).None? ==>
        && old(wr.script)[0].Part?
        && err == if old(wr.script)[0].err.Some? then old(wr.script)[0].err else Some(ShortWrite)
    {
      if err.Some? {
        return err;
      }
      if wpos == 0 {
        return None;
      }
      var n, e' := wr.Write(buf[..wpos]);
      if e'.Some? {
        err := e';
      } else if n < wpos {
        err := Some(ShortWrite);
      } else {
        wpos := 0;
      }
      e := err;
    }

    /** Puts as much of `p` in the buffer as fits. */
    method Buffer(p: bytes) returns (n: nat)
      requires Valid()
      modifies this`wpos, buf
      ensures Valid() && n == if old(Available()) < |p| then old(Available()) else |p|
      ensures wpos == old(wpos) + n && Accepted() == old(Accepted()) + p[..n]
    {
      n := CopyIn(Slice(buf, wpos, buf.Length - wpos), p);
      assert buf[..wpos + n] == buf[..wpos] + buf[wpos..wpos + n];
      Regroup(wr.delivered, buf[..wpos], p[..n]);
      wpos := wpos + n;
    }

    /** Whatever the mix of buffering, flushing and direct writes, all of `p` is accepted or an error sticks. */
    method Write(p: bytes) returns (nn: nat, e: Option<Error>)
      requires Valid()
      modifies this`err, this`wpos, buf, wr
      ensures Valid() && e == err && (old(err).Some? ==> err == old(err) && nn == 0 && unchanged(this, wr, buf))
      ensures Sent(p) && (err.None? ==> nn == |p|)
    {
      nn := 0;
      ghost var all := Accepted() + p;
      var q := p;
      while err.None? && |q| > Available()
        invariant Valid() && nn + |q| == |p|
        invariant err.None? ==> all == Accepted() + q
        invariant old(wr.delivered) <= wr.delivered <= all
        invariant old(err).Some? ==> err == old(err) && nn == 0 && unchanged(this, wr, buf)
        invariant |wr.script| <= |old(wr.script)|
        invariant old(err).None? && old(wr.script) == [] ==> err.None?
        decreases err.None?, |q|, wpos, |wr.script|
      {
        ghost var accepted := Accepted();
        var n;
        if wpos == 0 {
          var e';
          n, e' := wr.Write(q);
          err := e';
        } else {
          n := Buffer(q);
          var f := Flush();
        }
        SplitRest(accepted, q, n);
        nn, q := nn + n, q[n..];
      }
      if err.Some? || |q| == 0 {
        return nn, err;
      }
      var n := Buffer(q);
      return nn + n, None;
    }

    method WriteByte(c: byte) returns (e: Option<Error>)
      requires Valid()
      modifies this`err, this`wpos, buf, wr
      ensures Valid() && e == err && (old(err).Some? ==> err == old(err) && unchanged(this, wr, buf))
      ensures Sent([c])
    {
      if err.Some? {
        return err;
      }
      if Available() == 0 {
        var f := Flush();
        if f.Some? {
          return err;
        }
      }
      buf[wpos] := c;
      assert buf[..wpos + 1] == old(if Available() == 0 then [] else buf[..wpos]) + [c];
      wpos := wpos + 1;
      e := None;
    }

    /** As Write, but always through the buffer. */
    method WriteString(p: bytes) returns (nn: nat, e: Option<Error>)
      requires Valid()
      modifies this`err, this`wpos, buf, wr
      ensures Valid() && e == err && (old(err).Some? ==> err == old(err) && nn == 0 && unchanged(this, wr, buf))
      ensures Sent(p) && (err.None? ==> nn == |p|)
    {
      nn := 0;
      ghost var all := Accepted() + p;
      var q := p;
      while err.None? && |q| > Available()
        invariant Valid() && nn + |q| == |p|
        invariant err.None? ==> all == Accepted() + q
        invariant old(wr.delivered) <= wr.delivered <= all
        invariant old(err).Some? ==> err == old(err) && nn == 0 && unchanged(this, wr, buf)
        invariant |wr.script| <= |old(wr.script)|
        invariant old(err).None? && old(wr.script) == [] ==> err.None?
        decreases err.None?, |q|, wpos
      {
        ghost var accepted := Accepted();
        var n := Buffer(q);
        SplitRest(accepted, q, n);
        var f := Flush();
        nn, q := nn + n, q[n..];
      }
      if err.Some? || |q| == 0 {
        return nn, err;
      }
      var n := Buffer(q);
      return nn + n, None;
    }
  }

  lemma SplitRest(a: bytes, q: bytes, n: nat)
    requires n <= |q|
    ensures a + q == (a + q[..n]) + q[n..]
  {
  }

  datatype Op = Put(p: bytes) | PutByte(c: byte) | PutString(s: bytes) | Sync

  function Text(op: Op): bytes {
    match op
    case Put(p) => p
    case PutByte(c) => [c]
    case PutString(s) => s
    case Sync => []
  }

  function Texts(ops: seq<Op>): bytes {
    if ops == [] then [] else Text(ops[0]) + Texts(ops[1..])
  }

  /** Any mix of calls: without an error nothing is lost, added or reordered; with one, a prefix went out. */
  method Run(w: Writer, ops: seq<Op>)
    requires w.Valid()
    modifies w, w.buf, w.wr
    ensures w.Valid()
    ensures w.err.None? ==> w.Accepted() == old(w.Accepted()) + Texts(ops)
    ensures old(w.wr.delivered) <= w.wr.delivered <= old(w.Accepted()) + Texts(ops)
    ensures old(w.err).None? && old(w.wr.script) == [] ==> w.err.None?
  {
    ghost var all := w.Accepted() + Texts(ops);
    for i := 0 to |ops|
      invariant w.Valid()
      invariant w.err.None? ==> all == w.Accepted() + Texts(ops[i..])
      invariant old(w.wr.delivered) <= w.wr.delivered <= all
      invariant old(w.err).None? && old(w.wr.script) == [] ==> w.err.None? && w.wr.script == []
    {
      ghost var accepted := w.Accepted();
      assert ops[i..][1..] == ops[i + 1..];
      Regroup(accepted, Text(ops[i]), Texts(ops[i + 1..]));
      match ops[i] {
        case Put(p) => var n, e := w.Write(p);
        case PutByte(c) => var e := w.WriteByte(c);
        case PutString(s) => var n, e := w.WriteString(s);
        case Sync => var e := w.Flush();
      }
    }
  }
}
