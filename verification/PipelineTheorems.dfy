/** What holds in every reachable state of the backend pipeline, and two states that show where it stops. */
module PipelineTheorems {
  import opened Wrappers
  import opened Pipeline
  import opened PipelineInvariants

  /** Reachable from a new BackendConn whose task channels have capacity `cap`. */
  ghost predicate Reachable(s: State) {
    exists cap: nat, steps: seq<Step> :: IsRun(Init(cap), steps) && After(Init(cap), steps) == s
  }

  lemma ReachableInv(s: State)
    requires Reachable(s)
    ensures Inv(s)
  {
    hide Inv;
    var cap: nat, steps: seq<Step> :| IsRun(Init(cap), steps) && After(Init(cap), steps) == s;
    InitInv(cap);
    RunInv(Init(cap), steps);
  }

  // ---------------------------------------------------------------- exactly once

  lemma NumberedDistinct(s: State, t: Tok)
    requires Numbered(s)
    ensures Count(s.pushed, t) == if t in s.pushed then 1 else 0
  {
    CountOfDistinct(s.pushed, t);
  }

  lemma {:induction false} CountOfDistinct(ts: seq<Tok>, t: Tok)
    requires forall i, j :: 0 <= i < j < |ts| ==> ts[i] != ts[j]
    ensures multiset(ts)[t] == if t in ts then 1 else 0
  {
    if ts != [] {
      var n := |ts| - 1;
      assert ts == ts[..n] + [ts[n]];
      CountOfDistinct(ts[..n], t);
    }
  }

  /**
   * Every push is in exactly one place: on the input channel, in the writer's hand, waiting on one connection,
   * completed, or dead on a closed channel. Nothing else is in any of these places.
   */
  lemma ExactlyOnePlace(s: State, t: Tok)
    requires Reachable(s)
    ensures Everywhere(s, t) == if t in s.pushed then 1 else 0
  {
    ReachableInv(s);
    NumberedDistinct(s, t);
    assert Count(s.pushed, t) == Everywhere(s, t);
  }

  /** No push is completed twice, not by one reader, not by two of them, not by a reader and the writer. */
  lemma CompletedAtMostOnce(s: State, i: nat, j: nat)
    requires Reachable(s) && i < j < |s.done|
    ensures s.done[i].tok != s.done[j].tok
  {
    var ts := DoneToks(s.done);
    ExactlyOnePlace(s, ts[i]);
    if ts[i] == ts[j] {
      TwiceCounts(ts, i, j);
    }
  }

  lemma TwiceCounts(ts: seq<Tok>, i: nat, j: nat)
    requires i < j < |ts| && ts[i] == ts[j]
    ensures multiset(ts)[ts[i]] >= 2
  {
    assert ts == ts[..j] + [ts[j]] + ts[j + 1..];
    assert ts[..j][i] == ts[i];
  }

  /** The pushes of `r` that no one has completed yet. */
  function Unresolved(s: State, r: Req): set<Tok> {
    set t | t in s.pushed && t.req == r && t !in DoneToks(s.done)
  }

  function OfReq(ts: seq<Tok>, r: Req): set<Tok> {
    set t | t in ts && t.req == r
  }

  lemma {:induction false} CountReqIsSize(ts: seq<Tok>, r: Req)
    requires forall i, j :: 0 <= i < j < |ts| ==> ts[i] != ts[j]
    ensures CountReq(ts, r) == |OfReq(ts, r)|
  {
    if ts != [] {
      var n := |ts| - 1;
      CountReqIsSize(ts[..n], r);
      if ts[n].req == r {
        assert OfReq(ts, r) == OfReq(ts[..n], r) + {ts[n]};
      } else {
        assert OfReq(ts, r) == OfReq(ts[..n], r);
      }
    }
  }

  lemma DoneWasPushed(s: State, t: Tok)
    requires Reachable(s) && t in DoneToks(s.done)
    ensures t in s.pushed
  {
    ExactlyOnePlace(s, t);
  }

  /** A request's batch counter is the number of its pushes still unresolved; it is never negative. */
  lemma BatchIsUnresolved(s: State, r: Req)
    requires Reachable(s)
    ensures Counter(s.batch, r) == |Unresolved(s, r)|
  {
    ReachableInv(s);
    var dt := DoneToks(s.done);
    CountReqIsSize(s.pushed, r);
    forall i, j | 0 <= i < j < |dt| ensures dt[i] != dt[j] {
      CompletedAtMostOnce(s, i, j);
    }
    CountReqIsSize(dt, r);
    forall t | t in OfReq(dt, r) ensures t in OfReq(s.pushed, r) {
      DoneWasPushed(s, t);
    }
    assert Unresolved(s, r) == OfReq(s.pushed, r) - OfReq(dt, r);
  }

  // ---------------------------------------------------------------- reply pairing

  /**
   * A successful response is the server's answer to that very request, on the one connection it was written to,
   * and at the position it was written at.
   */
  lemma ReplyIsItsOwn(s: State, j: nat)
    requires Reachable(s) && j < |s.done| && s.done[j].outcome.Reply?
    ensures var d := s.done[j];
            && d.outcome.answer.to == d.tok
            && d.outcome.round < |s.rounds|
            && var r := s.rounds[d.outcome.round];
               && d.outcome.index < |r.written| && r.written[d.outcome.index] == d.tok
               && d.outcome.index < |r.served| && r.served[d.outcome.index] == d.outcome.answer
    ensures forall i :: 0 <= i < |s.rounds| && i != s.done[j].outcome.round ==> s.done[j].tok !in s.rounds[i].written
  {
    hide Reachable, Conserved, WrittenOnce, Numbered, BatchesCount, RoundsOk, WriterOk, DoneToks, Count, WrittenAll;
    ReachableInv(s);
    var d := s.done[j];
    assert PairOk(d, s.rounds);
    forall i | 0 <= i < |s.rounds| && i != d.outcome.round ensures d.tok !in s.rounds[i].written {
      OnOneConnection(s, d.tok, d.outcome.round, i);
    }
  }

  /** A request written on one connection is written on no other. */
  lemma OnOneConnection(s: State, t: Tok, i: nat, j: nat)
    requires Reachable(s) && i < |s.rounds| && j < |s.rounds| && i != j && t in s.rounds[i].written
    ensures t !in s.rounds[j].written
  {
    hide Reachable, Conserved, BatchesCount, RoundsOk, WriterOk, Paired, WrittenAll;
    ReachableInv(s);
    NumberedDistinct(s, t);
    assert WrittenAll(s.rounds, t) + Unwritten(s, t) <= Count(s.pushed, t);
    WrittenAllCovers(s.rounds, i, j, t);
  }

  lemma {:induction false} WrittenAllCovers(rs: seq<Round>, i: nat, j: nat, t: Tok)
    requires i < |rs| && j < |rs| && i != j
    ensures Count(rs[i].written, t) + Count(rs[j].written, t) <= WrittenAll(rs, t)
  {
    var n := |rs| - 1;
    if i < n && j < n {
      WrittenAllCovers(rs[..n], i, j, t);
    } else {
      WrittenAllCoversOne(rs[..n], if i < n then i else j, t);
    }
  }

  lemma {:induction false} WrittenAllCoversOne(rs: seq<Round>, i: nat, t: Tok)
    requires i < |rs|
    ensures Count(rs[i].written, t) <= WrittenAll(rs, t)
  {
    var n := |rs| - 1;
    if i < n {
      WrittenAllCoversOne(rs[..n], i, t);
    }
  }

  /** On each connection, what was written is what was resolved, then the reader's hand, the channel, the writer's hand. */
  lemma WrittenInOrder(s: State, i: nat)
    requires Reachable(s) && i < |s.rounds|
    ensures s.rounds[i].written == InOrder(s.rounds[i], Held(s, i))
    ensures |s.rounds[i].tasks| <= s.cap
  {
    ReachableInv(s);
    assert RoundOk(s.rounds[i], s.cap, Held(s, i));
  }

  // ---------------------------------------------------------------- no deadlock on the tasks channel

  /** The writer wants to hand a request over and cannot. */
  predicate Blocked(s: State) {
    s.writer.Pushing? && s.rounds != [] && !OutEnabled(s, PushTask) && !OutEnabled(s, Handoff)
  }

  /** The channel is full, and the reader is not waiting to be handed a request. */
  lemma BlockedExactly(s: State)
    requires s.rounds != []
    ensures Blocked(s) <==>
      s.writer.Pushing? && |Last(s).tasks| >= s.cap && (Last(s).hand.Some? || Last(s).mode.Gone? || Last(s).tasks != [])
  {
  }

  /** Whatever the capacity: when the writer is blocked, the reply the reader waits for is to a flushed request. */
  lemma BlockedAwaitsFlushed(s: State)
    requires Reachable(s) && Blocked(s)
    ensures var r := Last(s);
            r.mode.Reading? && r.hand.Some? ==>
              r.decoded < r.flushed <= r.sent <= |r.written| && r.written[r.decoded] == r.hand.value
  {
    ReachableInv(s);
    var r := Last(s);
    assert RoundOk(r, s.cap, Held(s, |s.rounds| - 1));
    if r.mode.Reading? && r.hand.Some? {
      assert r.written[|r.resolved|] == r.hand.value;
    }
  }

  /** The reader's and the server's next steps when the writer is blocked; none of them is a failure. */
  function Unblock(r: Round): seq<ConnStep> {
    if r.hand.None? then [Take]
    else if r.mode.Draining? then [DrainTask] + if r.tasks == [] then [] else [Take]
    else
      (if r.decoded < |r.served| then [] else [Serve(0)]) + [DecodeOk] + if r.tasks == [] then [] else [Take]
  }

  /** Those steps are all possible, one after the other, and then the writer goes on. */
  lemma BlockedCanProceed(s: State)
    requires Reachable(s) && Blocked(s)
    ensures Runs(s, |s.rounds| - 1, Unblock(Last(s)))
    ensures !Blocked(RunConn(s, |s.rounds| - 1, Unblock(Last(s))))
    ensures |Unblock(Last(s))| <= 3 && forall e :: e in Unblock(Last(s)) ==> e.Take? || e.Serve? || e.DecodeOk? || e.DrainTask?
  {
    hide Reachable, Conserved, WrittenOnce, BatchesCount, Paired, Record, ConnRound, ConnDone;
    BlockedAwaitsFlushed(s);
    ReachableInv(s);
    var i := |s.rounds| - 1;
    var r := Last(s);
    assert RoundOk(r, s.cap, Held(s, i));
    var es := Unblock(r);
    if r.hand.None? {
      RunOne(s, i, es);
    } else if r.mode.Reading? && r.decoded == |r.served| {
      var s1 := AfterServe(s, i);
      assert es[1..] == [DecodeOk] + if r.tasks == [] then [] else [Take];
      RunDecode(s1, i, DecodeOk, es[1..]);
    } else {
      RunDecode(s, i, es[0], es);
    }
  }

  lemma AfterServe(s: State, i: nat) returns (s1: State)
    requires i < |s.rounds| && ConnEnabled(s.rounds[i], Serve(0)) && s.rounds[i].decoded == |s.rounds[i].served|
    ensures s1 == DoConn(s, i, Serve(0)) && s1.writer == s.writer && s1.cap == s.cap && |s1.rounds| == |s.rounds|
    ensures s1.rounds[i] == s.rounds[i].(served := s1.rounds[i].served) && s1.rounds[i].decoded < |s1.rounds[i].served|
  {
    s1 := DoConn(s, i, Serve(0));
  }

  predicate Runs(s: State, i: nat, es: seq<ConnStep>)
    decreases |es|
  {
    es == [] || (i < |s.rounds| && ConnEnabled(s.rounds[i], es[0]) && Runs(DoConn(s, i, es[0]), i, es[1..]))
  }

  function RunConn(s: State, i: nat, es: seq<ConnStep>): State
    requires Runs(s, i, es)
    decreases |es|
  {
    if es == [] then s else RunConn(DoConn(s, i, es[0]), i, es[1..])
  }

  lemma RunOne(s: State, i: nat, es: seq<ConnStep>)
    requires i + 1 == |s.rounds| && es == [Take] && ConnEnabled(s.rounds[i], Take) && s.writer.Pushing?
    requires |s.rounds[i].tasks| <= s.cap
    ensures Runs(s, i, es) && !Blocked(RunConn(s, i, es))
  {
    var s1 := DoConn(s, i, Take);
    assert es[1..] == [];
    assert Runs(s1, i, es[1..]);
    assert RunConn(s, i, es) == s1;
    assert OutEnabled(s1, PushTask);
  }

  lemma RunDecode(s: State, i: nat, e: ConnStep, es: seq<ConnStep>)
    requires i + 1 == |s.rounds| && (e.DecodeOk? || e.DrainTask?) && ConnEnabled(s.rounds[i], e) && s.writer.Pushing?
    requires es == [e] + if s.rounds[i].tasks == [] then [] else [Take]
    requires |s.rounds[i].tasks| <= s.cap
    ensures Runs(s, i, es) && !Blocked(RunConn(s, i, es))
  {
    var s1 := DoConn(s, i, e);
    if s.rounds[i].tasks == [] {
      assert es[1..] == [];
      assert Runs(s1, i, es[1..]);
      assert RunConn(s, i, es) == s1;
      assert OutEnabled(s1, Handoff);
    } else {
      assert es[1..] == [Take];
      RunOne(s1, i, es[1..]);
      assert RunConn(s, i, es) == RunConn(s1, i, es[1..]);
    }
  }

  // ---------------------------------------------------------------- the idle writer

  /** An idle writer with nothing to receive has flushed all it wrote, unless the last thing it did was to skip a request. */
  lemma IdleHasFlushed(s: State)
    requires Reachable(s) && s.writer == Idle(false) && s.input == []
    ensures s.rounds != [] && Last(s).flushed == |Last(s).written|
  {
    ReachableInv(s);
  }

  /** With room for at most one task even a skipped request leaves nothing unflushed. */
  lemma SmallChannelHasFlushed(s: State)
    requires Reachable(s) && s.cap <= 1 && s.writer.Idle?
    ensures s.rounds != [] && Last(s).flushed == |Last(s).written|
  {
    ReachableInv(s);
  }

  lemma Extend(s: State, step: Step)
    requires Reachable(s) && Enabled(s, step)
    ensures Reachable(Apply(s, step))
  {
    hide Enabled, Apply;
    var cap: nat, steps: seq<Step> :| IsRun(Init(cap), steps) && After(Init(cap), steps) == s;
    RunSnoc(Init(cap), steps, step);
  }

  lemma {:induction false} RunSnoc(s: State, steps: seq<Step>, step: Step)
    requires IsRun(s, steps) && Enabled(After(s, steps), step)
    ensures IsRun(s, steps + [step]) && After(s, steps + [step]) == Apply(After(s, steps), step)
    decreases |steps|
  {
    hide Enabled, Apply;
    if steps == [] {
      assert (steps + [step])[1..] == [];
    } else {
      assert (steps + [step])[1..] == steps[1..] + [step];
      RunSnoc(Apply(s, steps[0]), steps[1..], step);
    }
  }

  lemma InitReachable(cap: nat)
    ensures Reachable(Init(cap))
  {
    assert IsRun(Init(cap), []) && After(Init(cap), []) == Init(cap);
  }

  const FIRST: Req := Req(0, false)
  const WRITE: Req := Req(1, false)
  const READ: Req := Req(2, true)

  /**
   * The exception is real: a written request stays unflushed, with its reader waiting for it, while the writer is idle
   * because the request behind it was skipped. Only another request can move it. A first request has been flushed and
   * answered before, less than MaxInterval ago.
   */
  lemma SkippedRequestStrandsOthers(cap: nat) returns (s: State)
    requires cap >= 2
    ensures Reachable(s) && s.cap == cap
    ensures s.writer == Idle(true) && s.input == [] && |s.rounds| == 1
    ensures
      var r := Last(s);
      && r.hand == Some(Tok(WRITE, 1)) && r.written == [Tok(FIRST, 0), Tok(WRITE, 1)]
      && r.flushed == r.sent == |r.resolved| == 1
  {
    hide Reachable;
    s := SecondRequestBuffered(cap);
    s := Go(s, OnConn(0, Take));
    s := Go(s, Control(Receive));
    s := Go(s, Control(SkipBroken));
  }

  /** The connection once its first request has been flushed and answered. */
  const ANSWERED_ROUND: Round :=
    FRESH_ROUND.(written := [Tok(FIRST, 0)], flushed := 1, sent := 1, served := [Answer(Tok(FIRST, 0), 0)],
                 decoded := 1, resolved := [Tok(FIRST, 0)])

  lemma SecondRequestBuffered(cap: nat) returns (s: State)
    requires cap >= 2
    ensures Reachable(s)
    ensures s.cap == cap && s.writer == Idle(false) && s.input == [Tok(READ, 2)]
    ensures |s.rounds| == 1
    ensures s.rounds[0] ==
      ANSWERED_ROUND.(written := [Tok(FIRST, 0), Tok(WRITE, 1)], nbuffered := 1, tasks := [Tok(WRITE, 1)])
  {
    hide Reachable, Complete;
    s := SecondRequestWritten(cap);
    s := Go(s, Out(FlushOk(false)));
    s := Go(s, Out(PushTask));
    assert s.rounds[0].tasks == [Tok(WRITE, 1)];
  }

  lemma SecondRequestWritten(cap: nat) returns (s: State)
    requires cap >= 2
    ensures Reachable(s)
    ensures s.cap == cap && s.writer == Flushing(Tok(WRITE, 1)) && s.input == [Tok(READ, 2)]
    ensures |s.rounds| == 1
    ensures s.rounds[0] == ANSWERED_ROUND.(written := [Tok(FIRST, 0), Tok(WRITE, 1)], nbuffered := 1)
  {
    hide Reachable, Complete;
    s := TwoRequestsWaiting(cap);
    s := Go(s, Control(Receive));
    s := Go(s, Out(EncodeOk));
    assert s.rounds[0].written == [Tok(FIRST, 0), Tok(WRITE, 1)];
  }

  lemma TwoRequestsWaiting(cap: nat) returns (s: State)
    requires cap >= 2
    ensures Reachable(s)
    ensures s.cap == cap && s.writer == Idle(false) && s.input == [Tok(WRITE, 1), Tok(READ, 2)]
    ensures |s.rounds| == 1 && s.rounds[0] == ANSWERED_ROUND
  {
    hide Reachable;
    s := FirstRequestAnswered(cap);
    s := Go(s, Push(WRITE));
    s := Go(s, Push(READ));
  }

  lemma FirstRequestAnswered(cap: nat) returns (s: State)
    requires cap >= 2
    ensures Reachable(s)
    ensures s.cap == cap && s.writer == Idle(false) && s.input == [] && !s.inputClosed && |s.pushed| == 1
    ensures |s.rounds| == 1 && s.rounds[0] == ANSWERED_ROUND
  {
    hide Reachable;
    s := FirstRequestFlushed(cap);
    s := Go(s, OnConn(0, Take));
    s := Go(s, OnConn(0, Serve(0)));
    s := Go(s, OnConn(0, DecodeOk));
    assert s.rounds[0] == ANSWERED_ROUND;
  }

  lemma FirstRequestFlushed(cap: nat) returns (s: State)
    requires cap >= 2
    ensures Reachable(s)
    ensures s.cap == cap && s.writer == Idle(false) && s.input == [] && !s.inputClosed && |s.pushed| == 1
    ensures |s.rounds| == 1
    ensures s.rounds[0] == FRESH_ROUND.(written := [Tok(FIRST, 0)], flushed := 1, sent := 1, tasks := [Tok(FIRST, 0)])
  {
    hide Reachable, Complete;
    s := FirstRequestWaiting(cap);
    s := Go(s, Control(Receive));
    s := Go(s, Out(EncodeOk));
    s := Go(s, Out(FlushOk(false)));
    s := Go(s, Out(PushTask));
    assert s.rounds[0].written == [Tok(FIRST, 0)] == s.rounds[0].tasks;
  }

  lemma FirstRequestWaiting(cap: nat) returns (s: State)
    ensures Reachable(s)
    ensures s.cap == cap && s.writer == Idle(false) && s.input == [Tok(FIRST, 0)] && !s.inputClosed && |s.pushed| == 1
    ensures s.rounds == [FRESH_ROUND]
  {
    hide Reachable;
    InitReachable(cap);
    s := Init(cap);
    s := Go(s, Control(Start));
    s := Go(s, Control(Connect(true)));
    s := Go(s, Push(FIRST));
  }

  lemma Go(s: State, step: Step) returns (s': State)
    requires Reachable(s) && Enabled(s, step)
    ensures Reachable(s') && s' == Apply(s, step)
  {
    Extend(s, step);
    s' := Apply(s, step);
  }

  /**
   * In every reachable state a writer that waits for a request, with none there, has flushed all it wrote: that holds
   * exactly for channels of capacity zero and one.
   */
  lemma IdleIsFlushedExactly(cap: nat)
    ensures
      (forall s: State :: Reachable(s) && s.cap == cap && s.writer.Idle? && s.input == [] ==>
         s.rounds != [] && Last(s).flushed == |Last(s).written|)
      <==> cap <= 1
  {
    hide Reachable;
    if cap <= 1 {
      forall s: State | Reachable(s) && s.cap == cap && s.writer.Idle? && s.input == []
        ensures s.rounds != [] && Last(s).flushed == |Last(s).written|
      {
        SmallChannelHasFlushed(s);
      }
    } else {
      var s := SkippedRequestStrandsOthers(cap);
      assert Last(s).flushed != |Last(s).written|;
    }
  }

  /** After the writer has stopped no step takes anything from the input channel. */
  lemma {:induction false} StoppedForGood(s: State, steps: seq<Step>)
    requires s.writer.Stopped? && IsRun(s, steps)
    ensures After(s, steps).writer.Stopped? && s.input <= After(s, steps).input
    decreases |steps|
  {
    if steps != [] {
      StoppedStep(s, steps[0]);
      StoppedForGood(Apply(s, steps[0]), steps[1..]);
    }
  }

  lemma StoppedStep(s: State, step: Step)
    requires s.writer.Stopped? && Enabled(s, step)
    ensures Apply(s, step).writer.Stopped? && s.input <= Apply(s, step).input
  {
    hide ConnRound, ConnDone;
  }

  /**
   * A request pushed after the last drain and before `closed` is seen stays in the input channel of a stopped writer, and
   * whatever happens next it is not answered.
   */
  lemma LatePushIsNeverAnswered(cap: nat) returns (s: State)
    ensures Reachable(s)
    ensures s.writer == Stopped && s.input == [Tok(WRITE, 0)] && Counter(s.batch, WRITE) == 1
    ensures forall steps :: IsRun(s, steps) ==> Tok(WRITE, 0) !in DoneToks(After(s, steps).done)
  {
    hide Reachable;
    InitReachable(cap);
    s := Init(cap);
    s := Go(s, Control(Start));
    s := Go(s, Control(Connect(false)));
    s := Go(s, Push(WRITE));
    s := Go(s, CloseInput);
    s := Go(s, SetClosed);
    s := Go(s, Control(DrainEnd));
    s := Go(s, Control(Start));
    forall steps | IsRun(s, steps)
      ensures Tok(WRITE, 0) !in DoneToks(After(s, steps).done)
    {
      StrandedForEver(s, steps, Tok(WRITE, 0));
    }
  }

  lemma {:induction false} ReachableRun(s: State, steps: seq<Step>)
    requires Reachable(s) && IsRun(s, steps)
    ensures Reachable(After(s, steps))
    decreases |steps|
  {
    hide Reachable, Enabled, Apply;
    if steps != [] {
      Extend(s, steps[0]);
      ReachableRun(Apply(s, steps[0]), steps[1..]);
    }
  }

  lemma InputIsUndone(s: State, t: Tok)
    requires Reachable(s) && t in s.input
    ensures t !in DoneToks(s.done)
  {
    hide Reachable, WaitingAll;
    ExactlyOnePlace(s, t);
  }

  /** What is on the input channel of a stopped writer is completed in no continuation of the run. */
  lemma StrandedForEver(s: State, steps: seq<Step>, t: Tok)
    requires Reachable(s) && s.writer.Stopped? && t in s.input && IsRun(s, steps)
    ensures t !in DoneToks(After(s, steps).done)
  {
    hide Reachable, IsRun, After, DoneToks;
    StoppedForGood(s, steps);
    ReachableRun(s, steps);
    InputIsUndone(After(s, steps), t);
  }

  lemma {:induction false} NothingWaits(rs: seq<Round>, t: Tok)
    requires forall i :: 0 <= i < |rs| ==> rs[i].mode.Gone? && rs[i].tasks == [] && rs[i].hand.None?
    ensures WaitingAll(rs, t) == 0
  {
    if rs != [] {
      NothingWaits(rs[..|rs| - 1], t);
    }
  }

  /**
   * Once the writer has stopped and every reader is gone, the pushes that were never completed are exactly those still on
   * the input channel and those that hit the closed channel.
   */
  lemma UnansweredExactly(s: State, t: Tok)
    requires Reachable(s) && s.writer.Stopped? && t in s.pushed
    requires forall i :: 0 <= i < |s.rounds| ==> s.rounds[i].mode.Gone?
    ensures t !in DoneToks(s.done) <==> t in s.input || t in s.panicked
  {
    hide Reachable, DoneToks;
    ReachableInv(s);
    forall i | 0 <= i < |s.rounds|
      ensures s.rounds[i].tasks == [] && s.rounds[i].hand.None?
    {
      assert RoundOk(s.rounds[i], s.cap, Held(s, i));
    }
    NothingWaits(s.rounds, t);
    ExactlyOnePlace(s, t);
  }
}
