/** What every step of the backend pipeline keeps. */
module PipelineInvariants {
  import opened Wrappers
  import opened Pipeline

  // ---------------------------------------------------------------- places

  function One(o: Option<Tok>): seq<Tok> {
    if o.Some? then [o.value] else []
  }

  /** The request in the writer's hand. */
  function InHand(w: Writer): seq<Tok> {
    if w.Encoding? || w.Flushing? || w.Pushing? then [w.tok] else []
  }

  /** How often `t` occurs in `ts`. */
  function Count(ts: seq<Tok>, t: Tok): nat {
    multiset(ts)[t]
  }

  /** How often `t` waits for its reply on one connection. */
  function Waiting(r: Round, t: Tok): nat {
    Count(One(r.hand), t) + Count(r.tasks, t)
  }

  function WaitingAll(rs: seq<Round>, t: Tok): nat {
    if rs == [] then 0 else WaitingAll(rs[..|rs| - 1], t) + Waiting(rs[|rs| - 1], t)
  }

  function WrittenAll(rs: seq<Round>, t: Tok): nat {
    if rs == [] then 0 else WrittenAll(rs[..|rs| - 1], t) + Count(rs[|rs| - 1].written, t)
  }

  function DoneToks(done: seq<Done>): (ts: seq<Tok>)
    ensures |ts| == |done| && forall i :: 0 <= i < |done| ==> ts[i] == done[i].tok
  {
    seq(|done|, i requires 0 <= i < |done| => done[i].tok)
  }

  /** How often `t` is found, over all the places a pushed request can be in. */
  function Everywhere(s: State, t: Tok): nat {
    Count(s.input, t) + Count(InHand(s.writer), t) + WaitingAll(s.rounds, t)
    + Count(DoneToks(s.done), t) + Count(s.panicked, t)
  }

  /** Nothing is lost and nothing is duplicated. */
  ghost predicate Conserved(s: State) {
    forall t: Tok :: Count(s.pushed, t) == Everywhere(s, t)
  }

  /** A request is written at most as often as it was pushed, over all connections together. */
  ghost predicate WrittenOnce(s: State) {
    forall t: Tok :: WrittenAll(s.rounds, t) + Unwritten(s, t) <= Count(s.pushed, t)
  }

  function Unwritten(s: State, t: Tok): nat {
    Count(s.input, t) + if s.writer.Encoding? then Count([s.writer.tok], t) else 0
  }

  predicate Numbered(s: State) {
    forall i :: 0 <= i < |s.pushed| ==> s.pushed[i].serial == i
  }

  function CountReq(ts: seq<Tok>, r: Req): nat {
    if ts == [] then 0 else CountReq(ts[..|ts| - 1], r) + if ts[|ts| - 1].req == r then 1 else 0
  }

  ghost predicate BatchesCount(s: State) {
    forall r: Req :: Counter(s.batch, r) == CountReq(s.pushed, r) - CountReq(DoneToks(s.done), r)
  }

  // ---------------------------------------------------------------- connections

  /** The request written on connection `i` that is still in the writer's hand. */
  function Held(s: State, i: nat): seq<Tok> {
    if i + 1 == |s.rounds| && (s.writer.Flushing? || s.writer.Pushing?) then [s.writer.tok] else []
  }

  /** What was written, in order: answered, then in the reader's hand, then in the channel, then in the writer's hand. */
  function InOrder(r: Round, held: seq<Tok>): seq<Tok> {
    r.resolved + (One(r.hand) + (r.tasks + (held + r.lost)))
  }

  predicate RoundOk(r: Round, cap: nat, held: seq<Tok>) {
    && r.written == InOrder(r, held)
    && r.decoded <= |r.served| <= r.sent <= |r.written| && r.flushed <= r.sent
    && (forall k :: 0 <= k < |r.served| ==> r.served[k].to == r.written[k])
    && (r.mode.Reading? ==> r.decoded == |r.resolved|)
    && |r.tasks| <= cap
    && (r.mode.Gone? ==> r.tasks == [] && r.hand.None? && r.closed)
  }

  predicate RoundsOk(s: State) {
    forall i :: 0 <= i < |s.rounds| ==> RoundOk(s.rounds[i], s.cap, Held(s, i))
  }

  /** The flush discipline of loopWriter on the current connection. */
  predicate WriterOk(s: State) {
    && (s.writer.Closing? ==> s.rounds != [])
    && (Active(s.writer) ==> s.rounds != [] && CurrentOk(s, Last(s)))
  }

  predicate CurrentOk(s: State, r: Round) {
    && !r.closed && r.lost == [] && r.nbuffered == |r.written| - r.flushed
    && (if s.writer.Flushing? then r.nbuffered <= s.cap / 2 + 1 else r.nbuffered <= s.cap / 2)
    && (s.writer.Pushing? && s.input == [] ==> r.nbuffered == 0)
    && (s.writer == Idle(false) && s.input == [] ==> r.nbuffered == 0)
  }

  /** A successful completion carries the server's answer to the same request, taken at the position it was written at. */
  predicate PairOk(d: Done, rs: seq<Round>) {
    d.outcome.Reply? ==>
      var i, k := d.outcome.round, d.outcome.index;
      && i < |rs| && k < |rs[i].served| && k < |rs[i].written|
      && rs[i].served[k] == d.outcome.answer && rs[i].written[k] == d.tok == d.outcome.answer.to
  }

  predicate Paired(s: State) {
    forall j :: 0 <= j < |s.done| ==> PairOk(s.done[j], s.rounds)
  }

  ghost predicate Inv(s: State) {
    Conserved(s) && WrittenOnce(s) && Numbered(s) && BatchesCount(s) && RoundsOk(s) && WriterOk(s) && Paired(s)
  }

  // ---------------------------------------------------------------- counting

  lemma {:induction false} WaitingAllUpdate(rs: seq<Round>, i: nat, r: Round, t: Tok)
    requires i < |rs|
    ensures WaitingAll(rs[i := r], t) + Waiting(rs[i], t) == WaitingAll(rs, t) + Waiting(r, t)
    ensures WrittenAll(rs[i := r], t) + Count(rs[i].written, t) == WrittenAll(rs, t) + Count(r.written, t)
  {
    hide Waiting, Count;
    var n := |rs| - 1;
    if i < n {
      assert rs[i := r][..n] == rs[..n][i := r];
      WaitingAllUpdate(rs[..n], i, r, t);
    } else {
      assert rs[i := r][..n] == rs[..n];
    }
  }

  lemma WaitingAllSnoc(rs: seq<Round>, r: Round, t: Tok)
    ensures WaitingAll(rs + [r], t) == WaitingAll(rs, t) + Waiting(r, t)
    ensures WrittenAll(rs + [r], t) == WrittenAll(rs, t) + Count(r.written, t)
  {
    assert (rs + [r])[..|rs|] == rs;
  }

  lemma CountHead(ts: seq<Tok>, t: Tok)
    requires ts != []
    ensures Count(ts, t) == Count([ts[0]], t) + Count(ts[1..], t)
  {
    assert ts == [ts[0]] + ts[1..];
  }

  lemma CountAppend(ts: seq<Tok>, u: Tok, t: Tok)
    ensures Count(ts + [u], t) == Count(ts, t) + Count([u], t)
  {
  }

  lemma CountNone(t: Tok)
    ensures Count([], t) == 0
  {
  }

  lemma DoneSnoc(done: seq<Done>, d: Done)
    ensures DoneToks(done + [d]) == DoneToks(done) + [d.tok]
  {
  }

  lemma CountReqSnoc(ts: seq<Tok>, t: Tok, r: Req)
    ensures CountReq(ts + [t], r) == CountReq(ts, r) + if t.req == r then 1 else 0
  {
    assert (ts + [t])[..|ts|] == ts;
  }

  /** What the completions of one step add. */
  lemma RecordCounts(s: State, ds: seq<Done>, t: Tok)
    requires |ds| <= 1
    ensures Count(DoneToks(Record(s, ds).done), t) == Count(DoneToks(s.done), t) + Count(DoneToks(ds), t)
  {
    if ds != [] {
      DoneSnoc(s.done, ds[0]);
      assert DoneToks(ds) == [ds[0].tok];
    }
  }

  // ---------------------------------------------------------------- conservation

  lemma ConservedStep(s: State, step: Step)
    requires Conserved(s) && Enabled(s, step)
    ensures Conserved(Apply(s, step))
  {
    hide Everywhere, ControlEnabled, OutEnabled, ConnEnabled, DoPush, DoControl, DoOut, DoConn;
    forall t: Tok ensures Count(Apply(s, step).pushed, t) == Everywhere(Apply(s, step), t) {
      assert Count(s.pushed, t) == Everywhere(s, t);
      match step {
        case Push(req) => PushCounts(s, req, t);
        case Control(c) => ControlCounts(s, c, t);
        case Out(o) => OutCounts(s, o, t);
        case OnConn(i, e) => ConnCounts(s, i, e, t);
        case _ => CloseCounts(s, t);
      }
    }
  }

  lemma CloseCounts(s: State, t: Tok)
    ensures Everywhere(s.(inputClosed := true), t) == Everywhere(s, t)
    ensures Everywhere(s.(closed := true), t) == Everywhere(s, t)
  {
  }

  lemma PushCounts(s: State, req: Req, t: Tok)
    ensures var s' := DoPush(s, req);
            Count(s'.pushed, t) - Everywhere(s', t) == Count(s.pushed, t) - Everywhere(s, t)
    ensures WrittenAll(s.rounds, t) + Unwritten(s, t) <= Count(s.pushed, t) ==>
            var s' := DoPush(s, req); WrittenAll(s'.rounds, t) + Unwritten(s', t) <= Count(s'.pushed, t)
  {
    hide WaitingAll, WrittenAll, Count, DoneToks;
    var tok := Tok(req, |s.pushed|);
    CountAppend(s.pushed, tok, t);
    CountAppend(s.panicked, tok, t);
    CountAppend(s.input, tok, t);
    DoneSnoc(s.done, Done(tok, Unsent));
    CountAppend(DoneToks(s.done), tok, t);
  }

  lemma ControlCounts(s: State, c: ControlStep, t: Tok)
    requires ControlEnabled(s, c)
    ensures Everywhere(DoControl(s, c), t) == Everywhere(s, t) && DoControl(s, c).pushed == s.pushed
  {
    hide WaitingAll, Count;
    CountNone(t);
    RecordCounts(s, ControlDone(s, c), t);
    assert ControlDone(s, c) != [] ==> DoneToks(ControlDone(s, c)) == [ControlDone(s, c)[0].tok];
    if TakesInput(c) {
      CountHead(s.input, t);
    }
    if c.Connect? {
      WaitingAllSnoc(s.rounds, FRESH_ROUND, t);
    }
  }

  lemma OutCounts(s: State, o: OutStep, t: Tok)
    requires OutEnabled(s, o)
    ensures Everywhere(DoOut(s, o), t) == Everywhere(s, t) && DoOut(s, o).pushed == s.pushed
  {
    hide WaitingAll, Count, MustFlush;
    WaitingAllUpdate(s.rounds, |s.rounds| - 1, OutRound(s, o), t);
    CountNone(t);
    RecordCounts(s, OutDone(s, o), t);
    if !o.CloseTasks? {
      CountAppend(Last(s).tasks, s.writer.tok, t);
      assert OutDone(s, o) != [] ==> DoneToks(OutDone(s, o)) == [s.writer.tok];
    }
  }

  lemma ConnCounts(s: State, i: nat, e: ConnStep, t: Tok)
    requires i < |s.rounds| && ConnEnabled(s.rounds[i], e)
    ensures Everywhere(DoConn(s, i, e), t) == Everywhere(s, t) && DoConn(s, i, e).pushed == s.pushed
  {
    hide WaitingAll, Count;
    var r := s.rounds[i];
    WaitingAllUpdate(s.rounds, i, ConnRound(r, e), t);
    CountNone(t);
    RecordCounts(s, ConnDone(r, i, e), t);
    assert ConnDone(r, i, e) != [] ==> DoneToks(ConnDone(r, i, e)) == [r.hand.value];
    if e.Take? {
      CountHead(r.tasks, t);
    }
  }

  // ---------------------------------------------------------------- written once

  lemma WrittenOnceStep(s: State, step: Step)
    requires WrittenOnce(s) && Enabled(s, step)
    ensures WrittenOnce(Apply(s, step))
  {
    hide WrittenAll, Unwritten, Count, ControlEnabled, OutEnabled, ConnEnabled, DoPush, DoControl, DoOut, DoConn;
    var s' := Apply(s, step);
    forall t: Tok ensures WrittenAll(s'.rounds, t) + Unwritten(s', t) <= Count(s'.pushed, t) {
      assert WrittenAll(s.rounds, t) + Unwritten(s, t) <= Count(s.pushed, t);
      match step {
        case Push(req) => PushCounts(s, req, t);
        case Control(c) => ControlWrites(s, c, t);
        case Out(o) => OutWrites(s, o, t);
        case OnConn(i, e) => ConnWrites(s, i, e, t);
        case _ => CloseWrites(s, t);
      }
    }
  }

  lemma CloseWrites(s: State, t: Tok)
    ensures Unwritten(s.(inputClosed := true), t) == Unwritten(s, t) == Unwritten(s.(closed := true), t)
  {
  }

  lemma ControlWrites(s: State, c: ControlStep, t: Tok)
    requires ControlEnabled(s, c)
    ensures var s' := DoControl(s, c);
            WrittenAll(s'.rounds, t) + Unwritten(s', t) <= WrittenAll(s.rounds, t) + Unwritten(s, t)
    ensures DoControl(s, c).pushed == s.pushed
  {
    hide WrittenAll, WaitingAll, Count;
    CountNone(t);
    if TakesInput(c) {
      CountHead(s.input, t);
    }
    if c.Connect? {
      WaitingAllSnoc(s.rounds, FRESH_ROUND, t);
    }
  }

  lemma OutWrites(s: State, o: OutStep, t: Tok)
    requires OutEnabled(s, o)
    ensures var s' := DoOut(s, o);
            WrittenAll(s'.rounds, t) + Unwritten(s', t) <= WrittenAll(s.rounds, t) + Unwritten(s, t)
    ensures DoOut(s, o).pushed == s.pushed
  {
    hide WrittenAll, WaitingAll, Count, MustFlush;
    WaitingAllUpdate(s.rounds, |s.rounds| - 1, OutRound(s, o), t);
    if !o.CloseTasks? {
      CountAppend(Last(s).written, s.writer.tok, t);
    }
  }

  lemma ConnWrites(s: State, i: nat, e: ConnStep, t: Tok)
    requires i < |s.rounds| && ConnEnabled(s.rounds[i], e)
    ensures var s' := DoConn(s, i, e);
            WrittenAll(s'.rounds, t) + Unwritten(s', t) == WrittenAll(s.rounds, t) + Unwritten(s, t)
    ensures DoConn(s, i, e).pushed == s.pushed
  {
    hide WrittenAll, WaitingAll, Count;
    WaitingAllUpdate(s.rounds, i, ConnRound(s.rounds[i], e), t);
  }

  // ---------------------------------------------------------------- counters

  lemma RecordBatches(s: State, ds: seq<Done>, r: Req)
    requires |ds| <= 1
    ensures var s' := Record(s, ds);
            Counter(s'.batch, r) + CountReq(DoneToks(s'.done), r) == Counter(s.batch, r) + CountReq(DoneToks(s.done), r)
  {
    if ds != [] {
      DoneSnoc(s.done, ds[0]);
      CountReqSnoc(DoneToks(s.done), ds[0].tok, r);
    }
  }

  /** The counters follow the two logs. */
  lemma BatchesStep(s: State, step: Step)
    requires BatchesCount(s) && Enabled(s, step)
    ensures BatchesCount(Apply(s, step))
  {
    hide CountReq, DoneToks, ControlWriter, OutWriter, OutRound, ConnRound;
    var s' := Apply(s, step);
    forall r: Req ensures Counter(s'.batch, r) == CountReq(s'.pushed, r) - CountReq(DoneToks(s'.done), r) {
      assert Counter(s.batch, r) == CountReq(s.pushed, r) - CountReq(DoneToks(s.done), r);
      match step {
        case Push(req) =>
          var tok := Tok(req, |s.pushed|);
          CountReqSnoc(s.pushed, tok, r);
          DoneSnoc(s.done, Done(tok, Unsent));
          CountReqSnoc(DoneToks(s.done), tok, r);
        case Control(c) => RecordBatches(s, ControlDone(s, c), r);
        case Out(o) => RecordBatches(s, OutDone(s, o), r);
        case OnConn(i, e) => RecordBatches(s, ConnDone(s.rounds[i], i, e), r);
        case _ =>
      }
    }
  }

  // ---------------------------------------------------------------- order on each connection

  lemma MoveTask(a: seq<Tok>, b: seq<Tok>, t: Tok, c: seq<Tok>, d: seq<Tok>)
    ensures (a + (b + (c + ([] + [])))) + [t] == a + (b + (c + ([t] + [])))
    ensures a + (b + (c + ([t] + d))) == a + (b + ((c + [t]) + ([] + d)))
    ensures a + (b + (c + ([t] + []))) == a + (b + (c + ([] + ([] + [t]))))
    ensures (a + (b + (c + ([] + [])))) + [t] == a + (b + (c + ([] + ([] + [t]))))
  {
  }

  lemma MoveHand(a: seq<Tok>, h: Tok, c: seq<Tok>, d: seq<Tok>)
    ensures a + ([h] + (c + d)) == (a + [h]) + ([] + (c + d))
    ensures a + ([] + ([] + ([h] + d))) == a + ([h] + ([] + ([] + d)))
  {
  }

  lemma TakeTask(a: seq<Tok>, c: seq<Tok>, d: seq<Tok>)
    requires c != []
    ensures a + ([] + (c + d)) == a + ([c[0]] + (c[1..] + d))
  {
  }

  lemma ConnRoundOk(r: Round, e: ConnStep, cap: nat, held: seq<Tok>)
    requires RoundOk(r, cap, held) && ConnEnabled(r, e)
    ensures RoundOk(ConnRound(r, e), cap, held)
  {
    if e.Take? {
      TakeTask(r.resolved, r.tasks, held + r.lost);
    }
    if r.hand.Some? {
      MoveHand(r.resolved, r.hand.value, r.tasks, held + r.lost);
    }
  }

  lemma OutRoundOk(s: State, o: OutStep)
    requires OutEnabled(s, o) && WriterOk(s) && RoundOk(Last(s), s.cap, Held(s, |s.rounds| - 1))
    ensures RoundOk(OutRound(s, o), s.cap, if o.EncodeOk? || o.FlushOk? then [s.writer.tok] else [])
  {
    hide MustFlush;
    var r := Last(s);
    if !o.CloseTasks? {
      MoveTask(r.resolved, One(r.hand), s.writer.tok, r.tasks, r.lost);
      MoveHand(r.resolved, s.writer.tok, r.tasks, r.lost);
    }
  }

  lemma RoundsStep(s: State, step: Step)
    requires RoundsOk(s) && WriterOk(s) && Enabled(s, step)
    ensures RoundsOk(Apply(s, step))
  {
    hide RoundOk, ConnRound, OutRound, ConnEnabled, CurrentOk, ConnDone, OutDone, ControlDone, MustFlush;
    var s' := Apply(s, step);
    var n := |s.rounds|;
    forall i | 0 <= i < |s'.rounds| ensures RoundOk(s'.rounds[i], s'.cap, Held(s', i)) {
      if i < n {
        assert RoundOk(s.rounds[i], s.cap, Held(s, i));
      }
      match step {
        case Control(c) =>
          FreshRoundOk(s.cap);
        case Out(o) =>
          OutRoundOk(s, o);
        case OnConn(j, e) =>
          if i == j {
            ConnRoundOk(s.rounds[i], e, s.cap, Held(s, i));
          }
        case _ =>
      }
    }
  }

  lemma FreshRoundOk(cap: nat)
    ensures RoundOk(FRESH_ROUND, cap, [])
  {
  }

  /** After each flush test at most half the channel is unflushed, and nothing at all if no other request is waiting. */
  lemma WriterStep(s: State, step: Step)
    requires RoundsOk(s) && WriterOk(s) && Enabled(s, step)
    ensures WriterOk(Apply(s, step))
  {
    hide WriterOk, DoControl, DoOut, DoConn, DoPush, ControlEnabled, OutEnabled, ConnEnabled;
    match step {
      case Push(req) => PushWriterOk(s, req);
      case Control(c) => ControlWriterOk(s, c);
      case Out(o) => OutWriterOk(s, o);
      case OnConn(i, e) => ConnWriterOk(s, i, e);
      case _ => CloseWriterOk(s);
    }
  }

  lemma CloseWriterOk(s: State)
    requires WriterOk(s)
    ensures WriterOk(s.(inputClosed := true)) && WriterOk(s.(closed := true))
  {
  }

  lemma PushWriterOk(s: State, req: Req)
    requires WriterOk(s)
    ensures WriterOk(DoPush(s, req))
  {
  }

  lemma ControlWriterOk(s: State, c: ControlStep)
    requires WriterOk(s) && ControlEnabled(s, c)
    ensures WriterOk(DoControl(s, c))
  {
  }

  lemma OutWriterOk(s: State, o: OutStep)
    requires WriterOk(s) && OutEnabled(s, o)
    ensures WriterOk(DoOut(s, o))
  {
  }

  lemma ConnWriterOk(s: State, i: nat, e: ConnStep)
    requires WriterOk(s) && i < |s.rounds| && ConnEnabled(s.rounds[i], e)
    ensures WriterOk(DoConn(s, i, e))
  {
  }

  // ---------------------------------------------------------------- pairing

  predicate Extends(rs: seq<Round>, rs': seq<Round>) {
    && |rs| <= |rs'|
    && forall i :: 0 <= i < |rs| ==> rs[i].written <= rs'[i].written && rs[i].served <= rs'[i].served
  }

  lemma RoundsOnlyGrow(s: State, step: Step)
    requires Enabled(s, step)
    ensures Extends(s.rounds, Apply(s, step).rounds)
  {
    hide Record, ControlDone, OutDone, ConnDone, MustFlush, ControlWriter, OutWriter;
  }

  lemma PairStays(d: Done, rs: seq<Round>, rs': seq<Round>)
    requires PairOk(d, rs) && Extends(rs, rs')
    ensures PairOk(d, rs')
  {
  }

  /** The reader takes the server's next answer for the request it holds: both sides count the same positions. */
  lemma NewPair(s: State, i: nat)
    requires i < |s.rounds| && RoundOk(s.rounds[i], s.cap, Held(s, i)) && ConnEnabled(s.rounds[i], DecodeOk)
    ensures PairOk(ConnDone(s.rounds[i], i, DecodeOk)[0], s.rounds)
  {
    var r := s.rounds[i];
    assert r.written[|r.resolved|] == r.hand.value;
  }

  lemma PairedStep(s: State, step: Step)
    requires Paired(s) && RoundsOk(s) && Enabled(s, step)
    ensures Paired(Apply(s, step))
  {
    hide PairOk, Extends, RoundOk, ControlEnabled, OutEnabled, ConnRound, OutRound, ControlWriter, OutWriter;
    var s' := Apply(s, step);
    RoundsOnlyGrow(s, step);
    forall j | 0 <= j < |s'.done| ensures PairOk(s'.done[j], s'.rounds) {
      if j < |s.done| {
        PairStays(s.done[j], s.rounds, s'.rounds);
      } else if step.OnConn? && step.e.DecodeOk? {
        NewPair(s, step.i);
        PairStays(s'.done[j], s.rounds, s'.rounds);
      } else {
        NoReply(s'.done[j], s'.rounds);
      }
    }
  }

  lemma NoReply(d: Done, rs: seq<Round>)
    requires !d.outcome.Reply?
    ensures PairOk(d, rs)
  {
  }

  // ---------------------------------------------------------------- all together

  lemma InitInv(cap: nat)
    ensures Inv(Init(cap))
  {
  }

  lemma NumberedStep(s: State, step: Step)
    requires Numbered(s) && Enabled(s, step)
    ensures Numbered(Apply(s, step))
  {
    hide ControlDone, OutDone, ConnDone, MustFlush, ControlWriter, OutWriter, ConnRound, OutRound;
  }

  lemma StepInv(s: State, step: Step)
    requires Inv(s) && Enabled(s, step)
    ensures Inv(Apply(s, step))
  {
    hide Conserved, WrittenOnce, Numbered, BatchesCount, RoundsOk, WriterOk, Paired, Apply, Enabled;
    ConservedStep(s, step);
    WrittenOnceStep(s, step);
    NumberedStep(s, step);
    BatchesStep(s, step);
    RoundsStep(s, step);
    WriterStep(s, step);
    PairedStep(s, step);
  }

  /** Every state of every run satisfies the invariant. */
  lemma {:induction false} RunInv(s: State, steps: seq<Step>)
    requires Inv(s) && IsRun(s, steps)
    ensures Inv(After(s, steps))
    decreases |steps|
  {
    hide Inv, Apply, Enabled;
    if steps != [] {
      StepInv(s, steps[0]);
      RunInv(Apply(s, steps[0]), steps[1..]);
    }
  }
}
