/** Whole runs of reader calls: what they return depends on the stream and the buffer size only, and it stays put. */
module ReaderRuns {
  import opened Wrappers
  import opened Bytes
  import opened Slices
  import opened Stream
  import opened BufReader

  datatype Op = Byte | Peek | Line(delim: byte) | LongLine(delim: byte) | Full(n: nat)

  /** What one call returns: the bytes and the error. */
  datatype Outcome = Outcome(text: bytes, err: Option<Error>)

  /** What is left to read, and the reader's sticky error. */
  datatype State = State(pending: bytes, err: Option<Error>)

  function Call(op: Op, s: bytes, env: Env): Decoded<bytes> {
    match op
    case Byte => if s == [] then Bad(env.end) else Ok(s[..1], s[1..])
    case Peek => if s == [] then Bad(env.end) else Ok(s[..1], s)
    case Line(delim) => Stream.ReadSlice(s, delim, env)
    case LongLine(delim) => Stream.ReadBytes(s, delim, env)
    case Full(n) => Stream.ReadFull(s, n, env)
  }

  /** One call, computed from the stream alone. A full buffer is reported and skipped; other errors stick. */
  function Advance(op: Op, st: State, env: Env): (r: (Outcome, State))
    requires env.cap > 0
  {
    if st.err.Some? then (Outcome([], st.err), st)
    else
      match Call(op, st.pending, env)
      case Ok(text, rest) => (Outcome(text, None), State(rest, None))
      case Bad(e) =>
        if op.Line? && |st.pending| >= env.cap
        then (Outcome(st.pending[..env.cap], Some(e)), State(st.pending[env.cap..], None))
        else (Outcome([], Some(e)), State(st.pending, Some(env.end)))
  }

  function Outcomes(ops: seq<Op>, st: State, env: Env): (outs: seq<Outcome>)
    requires env.cap > 0
    ensures |outs| == |ops|
  {
    if ops == [] then []
    else
      var (out, next) := Advance(ops[0], st, env);
      [out] + Outcomes(ops[1..], next, env)
  }

  lemma OutcomesFrom(outs: seq<Outcome>, ops: seq<Op>, i: nat, st: State, env: Env)
    requires env.cap > 0 && i < |ops|
    ensures
      var (out, next) := Advance(ops[i], st, env);
      outs + Outcomes(ops[i..], st, env) == outs + [out] + Outcomes(ops[i + 1..], next, env)
  {
    hide Advance;
    assert ops[i..][1..] == ops[i + 1..];
  }

  /** The calls whose bytes come in a region of their own; the others leave them in the read buffer. */
  predicate Detached(op: Op, out: Outcome) {
    out.err.None? && (op.LongLine? || (op.Full? && op.n > 0))
  }

  /** The region of a call still holds the bytes the call returned. */
  ghost predicate Holds(slice: SliceAlloc, region: Slice, out: Outcome)
    reads slice, region.a
  {
    region in slice.given && region.Ok() && region.View() == out.text
  }

  /** A call whose bytes stay in the read buffer. */
  method Look(r: Reader, op: Op) returns (out: Outcome)
    requires r.Valid() && (op.Byte? || op.Peek? || op.Line?)
    modifies r`err, r`rpos, r`wpos, r.buf, r.rd`chunks
    ensures r.Valid()
    ensures
      var (o, next) := Advance(op, State(old(r.Pending()), old(r.err)), r.Env());
      out == o && r.err == next.err && (r.err.None? ==> r.Pending() == next.pending)
  {
    hide Flatten, IndexOf, SliceAlloc.Valid;
    match op {
      case Byte =>
        var c, e := r.ReadByte();
        out := Outcome(if e.None? then [c] else [], e);
      case Peek =>
        var c, e := r.PeekByte();
        out := Outcome(if e.None? then [c] else [], e);
      case Line(delim) =>
        var line, e := r.ReadSlice(delim);
        out := Outcome(if e.None? || e == Some(BufferFull) then line.View() else [], e);
    }
  }

  method LookAhead(r: Reader, op: Op) returns (out: Outcome)
    requires r.Valid() && (op.Byte? || op.Peek? || op.Line?)
    modifies r`err, r`rpos, r`wpos, r.buf, r.rd`chunks
    ensures r.Valid() && r.slice.Keeps()
    ensures
      var (o, next) := Advance(op, State(old(r.Pending()), old(r.err)), r.Env());
      out == o && r.err == next.err && (r.err.None? ==> r.Pending() == next.pending)
  {
    hide Advance;
    out := Look(r, op);
  }

  /** A call whose bytes come in a region of their own. */
  method Fetch(r: Reader, op: Op) returns (out: Outcome, ghost region: Slice)
    requires r.Valid() && (op.LongLine? || op.Full?)
    modifies r.Footprint()
    ensures r.Valid() && fresh(r.Footprint() - old(r.Footprint())) && r.slice.Keeps()
    ensures
      var (o, next) := Advance(op, State(old(r.Pending()), old(r.err)), r.Env());
      out == o && r.err == next.err && (r.err.None? ==> r.Pending() == next.pending)
    ensures Detached(op, out) ==> Holds(r.slice, region, out)
  {
    hide Flatten, IndexOf, SliceAlloc.Valid;
    if op.LongLine? {
      var line, e := r.ReadBytes(op.delim);
      out, region := Outcome(if e.None? then line.View() else [], e), line;
    } else {
      var full, e := r.ReadFull(op.n);
      out, region := Outcome(if e.None? && op.n > 0 then full.View() else [], e), full;
    }
  }

  /** One call on the real reader. */
  method Step(r: Reader, op: Op) returns (out: Outcome, ghost region: Slice)
    requires r.Valid()
    modifies r.Footprint()
    ensures r.Valid() && fresh(r.Footprint() - old(r.Footprint())) && r.slice.Keeps()
    ensures
      var (o, next) := Advance(op, State(old(r.Pending()), old(r.err)), r.Env());
      out == o && r.err == next.err && (r.err.None? ==> r.Pending() == next.pending)
    ensures Detached(op, out) ==> Holds(r.slice, region, out)
  {
    hide Advance, Holds, SliceAlloc.Valid;
    region := Slice(r.buf, 0, 0);
    if op.LongLine? || op.Full? {
      out, region := Fetch(r, op);
    } else {
      out := LookAhead(r, op);
    }
  }

  /**
   * A whole run. However the stream is cut into chunks the outcomes are those computed from the stream itself, and at
   * the end every region returned during the run, or before it, holds the bytes it was returned with.
   */
  method Run(r: Reader, ops: seq<Op>) returns (outs: seq<Outcome>, ghost regions: seq<Slice>)
    requires r.Valid()
    modifies r.Footprint()
    ensures r.Valid() && fresh(r.Footprint() - old(r.Footprint()))
    ensures outs == Outcomes(ops, State(old(r.Pending()), old(r.err)), r.Env())
    ensures r.slice.Keeps()
    ensures |regions| == |outs| && forall i :: 0 <= i < |ops| && Detached(ops[i], outs[i]) ==>
      Holds(r.slice, regions[i], outs[i])
  {
    hide Call, Outcomes;
    outs, regions := [], [];
    ghost var env := r.Env();
    ghost var st := State(r.Pending(), r.err);
    ghost var all := Outcomes(ops, st, env);
    assert ops[0..] == ops;
    for i := 0 to |ops|
      invariant r.Valid() && fresh(r.Footprint() - old(r.Footprint())) && r.slice.Keeps()
      invariant st.err == r.err && (st.err.None? ==> st.pending == r.Pending())
      invariant all == outs + Outcomes(ops[i..], st, env)
      invariant |outs| == i == |regions|
      invariant forall j :: 0 <= j < i && Detached(ops[j], outs[j]) ==> Holds(r.slice, regions[j], outs[j])
    {
      OutcomesFrom(outs, ops, i, st, env);
      ghost var region;
      var out;
      out, region := Step(r, ops[i]);
      st := Advance(ops[i], st, env).1;
      outs, regions := outs + [out], regions + [region];
    }
    assert ops[|ops|..] == [];
    NoOutcomes(st, env);
  }

  lemma NoOutcomes(st: State, env: Env)
    requires env.cap > 0
    ensures Outcomes([], st, env) == []
  {
  }
}
