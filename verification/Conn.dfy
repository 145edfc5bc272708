/** When FlushEncoder flushes by itself: `late` says that MaxInterval has passed since the last write. */
module FlushRule {
  predicate NeedFlush(nbuffered: nat, maxBuffered: nat, late: bool) {
    nbuffered != 0 && (maxBuffered < nbuffered || late)
  }
}

/** The counting encoder of conn.go, which both the backend writer and the session writer flush through. */
module Conn {
  import opened Wrappers
  import opened Bytes
  import opened BufWriter
  import opened Encoder
  import FlushRule
  import R = Resp

  class FlushEncoder {
    const conn: Encoder
    const maxBuffered: nat
    var nbuffered: nat

    /** Whatever is not counted as buffered has left the write buffer. */
    ghost predicate Valid()
      reads this, conn, conn.bw, conn.bw.buf, conn.bw.wr, conn.table, conn.table.offset
    {
      conn.Valid() && (conn.err.None? && nbuffered == 0 ==> conn.bw.wr.delivered == conn.bw.Accepted())
    }

    constructor (conn: Encoder, maxBuffered: nat)
      requires conn.Valid() && conn.bw.wr.delivered == conn.bw.Accepted()
      ensures Valid() && this.conn == conn && this.maxBuffered == maxBuffered && nbuffered == 0
    {
      this.conn := conn;
      this.maxBuffered := maxBuffered;
      this.nbuffered := 0;
    }

    predicate NeedFlush(late: bool)
      reads this
    {
      FlushRule.NeedFlush(nbuffered, maxBuffered, late)
    }

    method Flush(force: bool, late: bool) returns (e: Option<Error>)
      requires Valid()
      modifies this, conn, conn.bw, conn.bw.wr
      ensures Valid()
      ensures e.None? ==>
        if force || (old(nbuffered) != 0 && (old(nbuffered) > maxBuffered || late))
        then nbuffered == 0 && conn.bw.wr.delivered == conn.bw.Accepted()
        else unchanged(this, conn, conn.bw, conn.bw.wr)
      ensures e.None? ==> nbuffered <= maxBuffered && conn.bw.Sent([])
      ensures e.Some? ==> conn.err.Some? && nbuffered == old(nbuffered)
    {
      e := None;
      if force || NeedFlush(late) {
        e := conn.Flush();
        if e.Some? {
          return;
        }
        nbuffered := 0;
      }
    }

    method Encode(resp: R.Resp) returns (e: Option<Error>)
      requires Valid()
      modifies this, conn, conn.bw, conn.bw.buf, conn.bw.wr
      ensures Valid()
      ensures e.None? ==> nbuffered == old(nbuffered) + 1 && conn.err.None? && conn.bw.Sent(R.Encode(resp))
      ensures e.Some? ==> nbuffered == old(nbuffered) && conn.err.Some?
    {
      e := conn.Encode(resp, false);
      if e.None? {
        nbuffered := nbuffered + 1;
      }
    }

    method EncodeMultiBulk(multi: R.Items) returns (e: Option<Error>)
      requires Valid()
      modifies this, conn, conn.bw, conn.bw.buf, conn.bw.wr
      ensures Valid()
      ensures e.None? ==> nbuffered == old(nbuffered) + 1 && conn.err.None? && conn.bw.Sent(R.EncodeMultiBulk(multi))
      ensures e.Some? ==> nbuffered == old(nbuffered) && conn.err.Some?
    {
      e := conn.EncodeMultiBulk(multi, false);
      if e.None? {
        nbuffered := nbuffered + 1;
      }
    }
  }
}
