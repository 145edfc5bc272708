/** The compacting read buffer of bufio.go, refined to the stream "buffered bytes, then bytes still to come". */
module BufReader {
  import opened Wrappers
  import opened Bytes
  import opened Slices
  import opened Stream

  /** The underlying io.Reader: it delivers non-empty chunks in whatever sizes, then fails for good with `end`. */
  class Source {
    var chunks: seq<bytes>
    const end: Error

    ghost predicate Valid()
      reads this
    {
      end != BufferFull && forall i :: 0 <= i < |chunks| ==> chunks[i] != []
    }

    ghost function Rest(): bytes
      reads this
    {
      Flatten(chunks)
    }

    constructor (chunks: seq<bytes>, end: Error)
      requires end != BufferFull && forall i :: 0 <= i < |chunks| ==> chunks[i] != []
      ensures Valid() && Rest() == Flatten(chunks) && this.end == end
    {
      this.chunks := chunks;
      this.end := end;
    }

    /** One read: at most one chunk, at most p.len bytes; an empty `p` reads nothing. */
    method Read(p: Slice) returns (n: nat, err: Option<Error>)
      requires Valid() && p.Ok()
      modifies this`chunks, p.a
      ensures Valid()
      ensures n <= p.len && (err.None? && p.len > 0 ==> n > 0)
      ensures p.len == 0 ==> err.None?
      ensures err.Some? ==> err == Some(end) && n == 0 && old(Rest()) == [] == Rest()
      ensures old(Rest()) == p.Take(n) + Rest()
      ensures OnlyWrote(p, n)
    {
      if p.len == 0 {
        return 0, None;
      }
      if chunks == [] {
        return 0, Some(end);
      }
      n := CopyIn(p, chunks[0]);
      TakeFromFirst(chunks, n);
      chunks := if n == |chunks[0]| then chunks[1..] else [chunks[0][n..]] + chunks[1..];
      err := None;
    }
  }

  lemma FlattenHead(c: bytes, rest: seq<bytes>)
    ensures Flatten([c] + rest) == c + Flatten(rest)
  {
    assert ([c] + rest)[1..] == rest;
  }

  lemma TakeFromFirst(chunks: seq<bytes>, n: nat)
    requires chunks != [] && n <= |chunks[0]|
    ensures Flatten(chunks) == chunks[0][..n] + Flatten([chunks[0][n..]] + chunks[1..])
    ensures n == |chunks[0]| ==> Flatten(chunks) == chunks[0][..n] + Flatten(chunks[1..])
  {
    hide Flatten;
    FlattenHead(chunks[0], chunks[1..]);
    FlattenHead(chunks[0][n..], chunks[1..]);
    assert chunks == [chunks[0]] + chunks[1..];
    Regroup(chunks[0][..n], chunks[0][n..], Flatten(chunks[1..]));
    assert chunks[0] == chunks[0][..n] + chunks[0][n..];
  }

  class Reader {
    var err: Option<Error>
    const buf: array<byte>
    const rd: Source
    var rpos: nat
    var wpos: nat
    const slice: SliceAlloc

    ghost predicate Valid()
      reads this, rd, slice
    {
      && rpos <= wpos <= buf.Length && buf.Length > 0
      && rd.Valid() && slice.Valid()
      && slice.buf.a != buf && (forall s :: s in slice.given ==> s.a != buf)
      && (err.Some? ==> err == Some(NoProgress) || (err == Some(rd.end) && rd.Rest() == []))
    }

    /** All that the methods below may write: fresh arrays apart, the read buffer and the current arena. */
    ghost function Footprint(): set<object>
      reads this, slice
    {
      {this, buf, rd, slice, slice.buf.a}
    }

    /** The bytes not consumed yet: buffered, then still to come. */
    ghost function Pending(): bytes
      requires Valid()
      reads this, buf, rd, slice
    {
      buf[rpos..wpos] + rd.Rest()
    }

    ghost function Env(): Env {
      Stream.Env(buf.Length, rd.end)
    }

    constructor (rd: Source, size: int)
      requires rd.Valid()
      ensures Valid() && this.rd == rd && err.None?
      ensures buf.Length == if size <= 0 then 1024 else size
      ensures Pending() == rd.Rest()
      ensures fresh(Footprint() - {rd})
    {
      this.err := None;
      this.buf := new byte[if size <= 0 then 1024 else size];
      this.rd := rd;
      this.rpos := 0;
      this.wpos := 0;
      this.slice := new SliceAlloc();
    }

    function Buffered(): nat
      requires rpos <= wpos
      reads this
    {
      wpos - rpos
    }

    method Compact()
      requires Valid()
      modifies this`rpos, this`wpos, buf
      ensures Valid() && rpos == 0 && wpos == old(Buffered()) && Pending() == old(Pending())
      ensures buf[..wpos] == old(buf[rpos..wpos])
    {
      hide Flatten, SliceAlloc.Valid;
      if rpos > 0 {
        ghost var unread := buf[rpos..wpos];
        var all := Slice(buf, 0, buf.Length);
        var n := Copy(all, Slice(buf, rpos, wpos - rpos));
        assert buf[..n] == all.Take(n) == unread;
        rpos := 0;
        wpos := n;
      }
      assert buf[rpos..wpos] == buf[..wpos];
    }

    /** One read behind the buffered bytes, which start the buffer. */
    method ReadBehind()
      requires Valid() && rpos == 0 && err.None?
      modifies this`err, this`wpos, buf, rd`chunks
      ensures Valid() && Pending() == old(Pending()) && wpos >= old(wpos)
      ensures err.None? <==> wpos > old(wpos)
      ensures old(wpos) == buf.Length ==> err == Some(NoProgress)
      ensures old(wpos) < buf.Length && err.Some? ==> err == Some(rd.end) && Pending() == buf[rpos..wpos]
    {
      hide Flatten, SliceAlloc.Valid;
      ghost var unread := buf[..wpos];
      var free := Slice(buf, wpos, buf.Length - wpos);
      var n, e := rd.Read(free);
      assert buf[..wpos] == unread;
      assert buf[..wpos + n] == unread + free.Take(n);
      if e.Some? {
        err := e;
      } else if n == 0 {
        err := Some(NoProgress);
      } else {
        Regroup(unread, free.Take(n), rd.Rest());
        wpos := wpos + n;
      }
      assert buf[rpos..wpos] == buf[..wpos];
    }

    /** Moves the unread bytes to the front and reads more behind them; a full buffer has no room for more. */
    method Fill() returns (e: Option<Error>)
      requires Valid()
      modifies this`err, this`rpos, this`wpos, buf, rd`chunks
      ensures Valid() && Pending() == old(Pending()) && e == err
      ensures old(err).Some? ==> err == old(err)
      ensures old(err).None? ==>
        if old(Buffered()) == buf.Length then e == Some(NoProgress)
        else if e.None? then Buffered() > old(Buffered())
        else e == Some(rd.end) && Pending() == buf[rpos..wpos] && Buffered() == old(Buffered())
    {
      hide Valid, Pending;
      InBounds();
      if err.Some? {
        return err;
      }
      Compact();
      InBounds();
      ReadBehind();
      e := err;
    }

    lemma InBounds()
      requires Valid()
      ensures rpos <= wpos <= buf.Length && buf.Length > 0
    {
    }

    /** The first buffered byte. */
    method TakeByte() returns (c: byte)
      requires Valid() && Buffered() > 0
      modifies this`rpos
      ensures Valid() && [c] + Pending() == old(Pending())
    {
      hide Flatten, SliceAlloc.Valid;
      c := buf[rpos];
      assert buf[rpos..wpos] == [c] + buf[rpos + 1..wpos];
      Regroup([c], buf[rpos + 1..wpos], rd.Rest());
      rpos := rpos + 1;
    }

    method ReadByte() returns (c: byte, e: Option<Error>)
      requires Valid()
      modifies this`err, this`rpos, this`wpos, buf, rd`chunks
      ensures Valid()
      ensures old(err).Some? ==> e == old(err) == err
      ensures old(err).None? ==>
        if old(Pending()) == [] then e == Some(rd.end) == err
        else e.None? && err.None? && [c] + Pending() == old(Pending())
    {
      hide Flatten, SliceAlloc.Valid;
      c := 0;
      if err.Some? {
        return 0, err;
      }
      if Buffered() == 0 {
        var f := Fill();
        if f.Some? {
          assert buf[rpos..wpos] == [];
          return 0, err;
        }
      }
      c := TakeByte();
      assert [c] + Pending() != [];
      e := None;
    }

    method PeekByte() returns (c: byte, e: Option<Error>)
      requires Valid()
      modifies this`err, this`rpos, this`wpos, buf, rd`chunks
      ensures Valid() && Pending() == old(Pending())
      ensures old(err).Some? ==> e == old(err) == err
      ensures old(err).None? ==>
        if Pending() == [] then e == Some(rd.end) == err
        else e.None? && err.None? && c == Pending()[0]
    {
      hide Flatten, SliceAlloc.Valid;
      c := 0;
      if err.Some? {
        return 0, err;
      }
      if Buffered() == 0 {
        var f := Fill();
        if f.Some? {
          assert buf[rpos..wpos] == [];
          return 0, err;
        }
      }
      c := buf[rpos];
      assert Pending()[0] == c;
      e := None;
    }

    /** Reads into `p`: from the buffer if it holds anything, else straight into a `p` at least as large as it. */
    method Read(p: Slice) returns (n: nat, e: Option<Error>)
      requires Valid() && p.Ok() && p.a != buf
      modifies this`err, this`rpos, this`wpos, buf, rd`chunks, p.a
      ensures Valid()
      ensures n <= p.len && OnlyWrote(p, n) && e == err
      ensures old(Pending()) == p.Take(n) + Pending()
      ensures old(err).Some? ==> e == old(err)
      ensures old(err).None? && p.len > 0 ==> (if old(Pending()) == [] then e == Some(rd.end) else e.None?)
      ensures e.None? && p.len > 0 ==> n > 0
      ensures e.Some? ==> n == 0
    {
      hide Flatten;
      if err.Some? || p.len == 0 {
        return 0, err;
      }
      if Buffered() == 0 {
        assert Pending() == rd.Rest();
        if p.len >= buf.Length {
          var e';
          n, e' := rd.Read(p);
          if e'.Some? {
            err := e';
          }
          assert Pending() == rd.Rest();
          return n, err;
        }
        var f := Fill();
        if f.Some? {
          return 0, err;
        }
      }
      n := TakeBuffered(p);
      e := None;
    }

    method TakeBuffered(p: Slice) returns (n: nat)
      requires Valid() && p.Ok() && p.a != buf
      modifies this`rpos, p.a
      ensures Valid() && n == if p.len < old(Buffered()) then p.len else old(Buffered())
      ensures OnlyWrote(p, n) && old(Pending()) == p.Take(n) + Pending()
    {
      hide Flatten;
      n := Copy(p, Slice(buf, rpos, wpos - rpos));
      assert buf[rpos..wpos] == buf[rpos..rpos + n] + buf[rpos + n..wpos];
      rpos := rpos + n;
    }

    /** The next line as a window on the buffer itself: the next Fill overwrites it. */
    method ReadSlice(delim: byte) returns (line: Slice, e: Option<Error>)
      requires Valid()
      modifies this`err, this`rpos, this`wpos, buf, rd`chunks
      ensures Valid() && line.Ok() && line.a == buf
      ensures old(err).Some? ==> e == old(err) == err
      ensures old(err).None? ==>
        match Stream.ReadSlice(old(Pending()), delim, Env())
        case Ok(text, rest) => e.None? && err.None? && line.View() == text && Pending() == rest
        case Bad(er) =>
          && e == Some(er)
          && (if er == BufferFull then
                err.None? && line.View() == old(Pending())[..buf.Length] && Pending() == old(Pending())[buf.Length..]
              else err == e)
    {
      hide Flatten, IndexOf, Stream.ReadSlice;
      line := Slice(buf, 0, 0);
      if err.Some? {
        return line, err;
      }
      ghost var s := Pending();
      while true
        invariant Valid() && err.None? && Pending() == s
        decreases buf.Length - Buffered()
      {
        var done;
        done, line, e := ScanBuffer(delim);
        if done {
          return;
        }
        ghost var unread := buf[rpos..wpos];
        ghost var rest := rd.Rest();
        var f := Fill();
        if f.Some? {
          assert s == unread by {
            assert |s| == |unread|;
          }
          return line, err;
        }
      }
    }

    /** What ReadSlice does with the bytes at hand: it is done when they hold the delimiter or fill the buffer. */
    method ScanBuffer(delim: byte) returns (done: bool, line: Slice, e: Option<Error>)
      requires Valid() && err.None?
      modifies this`rpos
      ensures Valid() && line.Ok() && line.a == buf
      ensures done ==>
        match Stream.ReadSlice(old(Pending()), delim, Env())
        case Ok(text, rest) => e.None? && line.View() == text && Pending() == rest
        case Bad(er) =>
          && er == BufferFull && e == Some(er)
          && line.View() == old(Pending())[..buf.Length] && Pending() == old(Pending())[buf.Length..]
      ensures !done ==>
        && rpos == old(rpos) && Buffered() < buf.Length
        && (Pending() == buf[rpos..wpos] ==> Stream.ReadSlice(Pending(), delim, Env()) == Bad(rd.end))
    {
      hide Flatten, IndexOf, Stream.ReadSlice, SliceAlloc.Valid;
      ghost var unread := buf[rpos..wpos];
      var index := IndexOf(buf[rpos..wpos], delim);
      LineInBuffer(unread, rd.Rest(), delim, Env());
      line, e := Slice(buf, 0, 0), None;
      if index < Buffered() {
        line := Slice(buf, rpos, index + 1);
        assert unread[..index + 1] == line.View();
        assert unread[index + 1..] == buf[rpos + index + 1..wpos];
        rpos := rpos + index + 1;
        return true, line, None;
      }
      if Buffered() == buf.Length {
        assert rpos == 0 && wpos == buf.Length;
        assert unread == buf[0..buf.Length];
        rpos := wpos;
        assert buf[rpos..wpos] == [] && [] + rd.Rest() == rd.Rest();
        return true, Slice(buf, 0, buf.Length), Some(BufferFull);
      }
      done := false;
    }

    /** The next line, however many times it overflows the buffer, in a region of its own. */
    method ReadBytes(delim: byte) returns (line: Slice, e: Option<Error>)
      requires Valid()
      modifies Footprint()
      ensures Valid() && fresh(Footprint() - old(Footprint())) && slice.Keeps()
      ensures old(err).Some? ==> e == old(err) == err
      ensures old(err).None? ==>
        match Stream.ReadBytes(old(Pending()), delim, Env())
        case Ok(text, rest) =>
          && e.None? && err.None? && Pending() == rest
          && line in slice.given && line.Ok() && line.View() == text
        case Bad(er) => e == Some(er) == err
    {
      hide Flatten, Stream.ReadBytes;
      line := Slice(buf, 0, 0);
      var full, last, size, e', texts := ReadFragments(delim);
      if e'.Some? {
        return line, err;
      }
      line := Join(full, last, size, texts);
      e := None;
    }

    /** The loop of ReadBytes: a copy of the buffer each time the line overflows it, then the window holding its end. */
    method ReadFragments(delim: byte)
      returns (full: seq<Slice>, last: Slice, size: nat, e: Option<Error>, ghost texts: seq<bytes>)
      requires Valid()
      modifies Footprint()
      ensures Valid() && fresh(Footprint() - old(Footprint())) && slice.Keeps()
      ensures Holds(full, texts) && forall i :: 0 <= i < |full| ==> full[i] in slice.given
      ensures old(err).Some? ==> e == old(err) == err
      ensures old(err).None? ==>
        match Stream.ReadBytes(old(Pending()), delim, Env())
        case Ok(text, rest) =>
          && e.None? && err.None? && Pending() == rest
          && last.Ok() && last.a == buf && text == Flatten(texts) + last.View() && size == |text|
        case Bad(er) => e == Some(er) == err
    {
      hide Flatten, Stream.ReadBytes, Stream.ReadSlice;
      full, size, texts := [], 0, [];
      ghost var got: bytes := [];
      ghost var s := Pending();
      NothingYet(texts);
      while true
        invariant Valid() && fresh(Footprint() - old(Footprint())) && slice.Keeps()
        invariant Holds(full, texts) && forall i :: 0 <= i < |full| ==> full[i] in slice.given
        invariant err == old(err)
        invariant got == Flatten(texts) && size == |got|
        invariant s == got + Pending() && delim !in got
        decreases |Pending()|
      {
        last, e := ReadPiece(delim, got);
        if e.None? {
          size := size + last.len;
          return;
        }
        if e != Some(BufferFull) {
          return;
        }
        Regroup(got, last.View(), Pending());
        FlattenSnoc(texts, last.View());
        full, texts := full + [last], texts + [last.View()];
        got := got + last.View();
        size := size + last.len;
      }
    }

    /** One turn of that loop, for a line of which `got` is already gone: its end, or a copy of a whole buffer. */
    method ReadPiece(delim: byte, ghost got: bytes) returns (piece: Slice, e: Option<Error>)
      requires Valid() && delim !in got
      modifies Footprint()
      ensures Valid() && fresh(Footprint() - old(Footprint())) && slice.Keeps()
      ensures old(err).Some? ==> e == old(err) == err && e != Some(BufferFull)
      ensures piece.Ok()
      ensures e.None? ==>
        && err.None? && piece.a == buf
        && Stream.ReadBytes(got + old(Pending()), delim, Env()) == Ok(got + piece.View(), Pending())
      ensures e == Some(BufferFull) ==>
        && err.None? && piece in slice.given && piece.len > 0 && delim !in piece.View()
        && old(Pending()) == piece.View() + Pending()
      ensures old(err).None? && e.Some? && e != Some(BufferFull) ==>
        e == Some(rd.end) == err && Stream.ReadBytes(got + old(Pending()), delim, Env()) == Bad(rd.end)
    {
      hide Flatten, Stream.ReadBytes, Stream.ReadSlice;
      ghost var pending := Pending();
      LineAfter(got, pending, delim, Env());
      piece, e := ReadSlice(delim);
      if e == Some(BufferFull) {
        piece := Detach(piece);
      }
    }

    /** Copies a window on the buffer out to a region of its own. */
    method Detach(f: Slice) returns (dup: Slice)
      requires Valid() && f.Ok() && f.a == buf
      modifies slice, slice.buf.a
      ensures Valid() && fresh(Footprint() - old(Footprint())) && slice.Keeps()
      ensures dup in slice.given && dup.Ok() && dup.View() == f.View()
      ensures Pending() == old(Pending())
    {
      dup := slice.Make(f.len);
      var n := slice.Put(dup, 0, f);
      assert dup.View() == dup.Take(n);
    }

    /** The fragments of an overlong line, put together. */
    method Join(full: seq<Slice>, last: Slice, size: nat, ghost texts: seq<bytes>) returns (b: Slice)
      requires Valid() && last.Ok() && last.a == buf
      requires Holds(full, texts) && forall i :: 0 <= i < |full| ==> full[i] in slice.given
      requires size == |Flatten(texts)| + last.len
      modifies slice, slice.buf.a
      ensures Valid() && fresh(Footprint() - old(Footprint())) && slice.Keeps()
      ensures b in slice.given && b.Ok() && b.View() == Flatten(texts) + last.View()
      ensures Pending() == old(Pending())
    {
      hide Flatten;
      b := slice.Make(size);
      var n := JoinFragments(full, b, texts);
      var m := slice.Put(b, n, last);
    }

    method JoinFragments(full: seq<Slice>, b: Slice, ghost texts: seq<bytes>) returns (n: nat)
      requires Valid() && b in slice.given && b !in full && |Flatten(texts)| <= b.len
      requires Holds(full, texts) && forall i :: 0 <= i < |full| ==> full[i] in slice.given
      modifies b.a
      ensures n == |Flatten(texts)| && b.Take(n) == Flatten(texts)
      ensures forall s :: s in slice.given && s != b ==> s.View() == old(s.View())
    {
      hide Flatten;
      n := 0;
      NothingYet(texts);
      for i := 0 to |full|
        invariant n == |Flatten(texts[..i])| <= b.len
        invariant b.Take(n) == Flatten(texts[..i])
        invariant forall s :: s in slice.given && s != b ==> s.View() == old(s.View())
      {
        FlattenTake(texts, i);
        assert full[i].View() == texts[i];
        var m := slice.Put(b, n, full[i]);
        n := n + m;
      }
      assert texts[..|full|] == texts;
    }

    /** One Read into full[got:], which leaves every other region alone. */
    method ReadInto(full: Slice, got: nat, ghost s: bytes) returns (m: nat, e: Option<Error>)
      requires Valid() && full in slice.given && got < full.len
      requires s == full.Take(got) + Pending()
      modifies this`err, this`rpos, this`wpos, buf, rd`chunks, full.a
      ensures Valid() && got + m <= full.len && e == err
      ensures s == full.Take(got + m) + Pending()
      ensures forall s :: s in slice.given && s != full ==> s.View() == old(s.View())
      ensures old(err).Some? ==> e == old(err)
      ensures e.Some? && old(err).None? ==> e == Some(rd.end) && Pending() == []
      ensures if e.None? then m > 0 else m == 0
    {
      hide Flatten;
      ghost var was := full.Take(got);
      ghost var pending := Pending();
      var p := full.Sub(got, full.len);
      m, e := Read(p);
      TakeMore(full, got, m);
      Regroup(was, p.Take(m), Pending());
      assert full.Take(got) == was;
      forall s | s in slice.given && s != full && s.a == full.a
        ensures s.View() == old(s.View())
      {
        assert Disjoint(s, full);
      }
    }

    /** io.ReadFull(b, full): reads until the region is full or the stream ends. */
    method IoReadFull(full: Slice) returns (e: Option<Error>)
      requires Valid() && full in slice.given && err.None?
      modifies this`err, this`rpos, this`wpos, buf, rd`chunks, full.a
      ensures Valid()
      ensures forall s :: s in slice.given && s != full ==> s.View() == old(s.View())
      ensures match Stream.ReadFull(old(Pending()), full.len, Env())
              case Ok(text, rest) => e.None? && err.None? && Pending() == rest && full.View() == text
              case Bad(er) => e == Some(er) && err == Some(rd.end)
    {
      hide Flatten, Stream.ReadFull, Disjoint, OnlyWrote, Pending;
      ghost var s := Pending();
      var got := 0;
      e := None;
      assert full.Take(0) == [];
      while got < full.len && e.None?
        invariant Valid() && got <= full.len && e == err
        invariant s == full.Take(got) + Pending()
        invariant e.Some? ==> e == Some(rd.end) && Pending() == [] && got < full.len
        invariant forall s :: s in slice.given && s != full ==> s.View() == old(s.View())
        decreases full.len - got, e.None?
      {
        var m, e' := ReadInto(full, got, s);
        got := got + m;
        e := e';
      }
      FullRead(full.Take(got), Pending(), full.len, Env());
      if got < full.len && got > 0 && e == Some(EOF) {
        e := Some(UnexpectedEOF);
      }
    }

    /** The next `n` bytes, in a region of their own. */
    method ReadFull(n: nat) returns (full: Slice, e: Option<Error>)
      requires Valid()
      modifies Footprint()
      ensures Valid() && fresh(Footprint() - old(Footprint())) && slice.Keeps()
      ensures old(err).Some? ==> e == old(err) == err
      ensures old(err).None? && n == 0 ==> e.None? && err.None? && Pending() == old(Pending())
      ensures old(err).None? && n > 0 ==>
        match Stream.ReadFull(old(Pending()), n, Env())
        case Ok(text, rest) =>
          && e.None? && err.None? && Pending() == rest
          && full in slice.given && full.Ok() && full.View() == text
        case Bad(er) => e == Some(er) && err == Some(rd.end)
    {
      hide Flatten, Stream.ReadFull;
      full := Slice(buf, 0, 0);
      if err.Some? || n == 0 {
        return full, err;
      }
      full := slice.Make(n);
      e := IoReadFull(full);
    }
  }

  ghost predicate Holds(full: seq<Slice>, texts: seq<bytes>)
    reads set i | 0 <= i < |full| :: full[i].a
  {
    |full| == |texts| && forall i :: 0 <= i < |full| ==> full[i].Ok() && full[i].View() == texts[i]
  }

  /** What the buffered bytes alone decide about the next line. */
  lemma LineInBuffer(unread: bytes, rest: bytes, delim: byte, env: Env)
    requires |unread| <= env.cap
    ensures var k := IndexOf(unread, delim);
            var d := Stream.ReadSlice(unread + rest, delim, env);
            if k < |unread| then d == Ok(unread[..k + 1], unread[k + 1..] + rest)
            else if |unread| == env.cap then
              d == Bad(BufferFull) && (unread + rest)[..env.cap] == unread && (unread + rest)[env.cap..] == rest
            else rest == [] ==> d == Bad(env.end)
  {
    hide IndexOf;
    var k := IndexOf(unread, delim);
    if k < |unread| {
      IndexOfUnique(unread + rest, delim, k);
      assert (unread + rest)[..k + 1] == unread[..k + 1];
      assert (unread + rest)[k + 1..] == unread[k + 1..] + rest;
    } else {
      assert forall i :: 0 <= i < |unread| ==> (unread + rest)[i] == unread[i] != delim;
    }
  }

  /** Where the line ends, seen from the start of a line whose first part is already gone. */
  lemma LineAfter(head: bytes, pending: bytes, delim: byte, env: Env)
    requires delim !in head && env.end != BufferFull
    ensures match Stream.ReadSlice(pending, delim, env)
            case Ok(text, rest) => Stream.ReadBytes(head + pending, delim, env) == Ok(head + text, rest)
            case Bad(e) =>
              if e == BufferFull then env.cap <= |pending| && delim !in pending[..env.cap]
              else e == env.end && Stream.ReadBytes(head + pending, delim, env) == Bad(env.end)
  {
    hide IndexOf;
    var s := head + pending;
    var k := IndexOf(pending, delim);
    if k < |pending| {
      IndexOfUnique(s, delim, |head| + k);
      assert s[..|head| + k + 1] == head + pending[..k + 1];
      assert s[|head| + k + 1..] == pending[k + 1..];
    } else {
      IndexOfAbsent(s, delim);
    }
  }

  /** What the loop of io.ReadFull gathered: all it wanted, or all there was. */
  lemma FullRead(got: bytes, pending: bytes, n: nat, env: Env)
    requires |got| == n || (|got| < n && pending == [])
    ensures Stream.ReadFull(got + pending, n, env)
         == if |got| == n then Ok(got, pending)
            else Bad(if |got| > 0 && env.end == EOF then UnexpectedEOF else env.end)
  {
    assert (got + pending)[..|got|] == got;
  }

  lemma NothingYet(texts: seq<bytes>)
    ensures Flatten(texts[..0]) == []
    ensures texts == [] ==> Flatten(texts) == []
  {
  }

  lemma FlattenSnoc(texts: seq<bytes>, t: bytes)
    ensures Flatten(texts + [t]) == Flatten(texts) + t
  {
    FlattenAppend(texts, [t]);
    assert Flatten([t]) == t + Flatten([]);
  }

  lemma FlattenTake(texts: seq<bytes>, i: nat)
    requires i < |texts|
    ensures Flatten(texts[..i + 1]) == Flatten(texts[..i]) + texts[i]
    ensures |Flatten(texts[..i + 1])| <= |Flatten(texts)|
  {
    assert texts[..i + 1] == texts[..i] + [texts[i]];
    FlattenSnoc(texts[..i], texts[i]);
    assert texts == texts[..i + 1] + texts[i + 1..];
    FlattenAppend(texts[..i + 1], texts[i + 1..]);
  }
}
