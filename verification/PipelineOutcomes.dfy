/**
 * What the backend pipeline does with each push, in every reachable state: which outcome its place on a connection brings,
 * in which order pushes are written, and what becomes of the input when a connection is given up.
 */
module PipelineOutcomes {
  import opened Wrappers
  import opened Pipeline
  import opened PipelineInvariants
  import opened PipelineTheorems

  // ---------------------------------------------------------------- single steps

  /** Completions are only added, and each push is numbered by its place. */
  lemma OnlyAdds(s: State, step: Step)
    requires Enabled(s, step)
    ensures s.done <= Apply(s, step).done
    ensures Apply(s, step).pushed == s.pushed + if step.Push? then [Tok(step.req, |s.pushed|)] else []
  {
    hide ControlWriter, ControlFails, OutWriter, OutRound, ConnRound;
  }

  /** A push goes to the end of the input; on a full one it completes at once, unsent; on a closed one it panics. */
  lemma PushGoes(s: State, req: Req)
    ensures
      var s', t := Apply(s, Push(req)), Tok(req, |s.pushed|);
      && (s.inputClosed ==> s'.input == s.input && s'.done == s.done && s'.panicked == s.panicked + [t])
      && (!s.inputClosed && |s.input| < 10240 ==>
            s'.input == s.input + [t] && s'.done == s.done && s'.panicked == s.panicked)
      && (!s.inputClosed && |s.input| >= 10240 ==>
            s'.input == s.input && s'.done == s.done + [Done(t, Unsent)] && s'.panicked == s.panicked)
  {
  }

  /** A connection that could be made is a new one, and forgives the failures before it. */
  lemma ConnectsAfresh(s: State)
    requires ControlEnabled(s, Connect(true))
    ensures
      var s' := Apply(s, Control(Connect(true)));
      && s'.writer.Idle? && s'.fails == 0 && |s'.rounds| == |s.rounds| + 1
      && var r := Last(s');
         && r.written == [] == r.tasks && r.served == [] && r.flushed == r.sent == r.decoded == 0
         && !r.closed && r.mode == Reading && r.hand.None?
    ensures Apply(s, Control(Connect(false))).fails == s.fails
  {
  }

  /** The writer leaves a connection without an error when the input has ended, and with one when a write fails. */
  lemma LeavesConnection(s: State, o: OutStep)
    ensures ControlEnabled(s, InputEnded) ==>
      && s.inputClosed && s.input == []
      && Apply(s, Control(InputEnded)) == s.(writer := Closing(false))
    ensures OutEnabled(s, o) && (o.EncodeFail? || o.FlushFail?) ==>
      var s' := Apply(s, Out(o));
      && s'.writer == Closing(true) && s'.done == s.done + [Done(s.writer.tok, Failed(WriteFailure))]
  {
  }

  /** A read-only request whose client has gone completes as broken; while the writer delays, requests are reset. */
  lemma SkipsAndResets(s: State)
    ensures ControlEnabled(s, SkipBroken) <==> s.writer.Encoding? && s.writer.tok.req.readOnly
    ensures ControlEnabled(s, SkipBroken) ==>
      var s' := Apply(s, Control(SkipBroken));
      s'.done == s.done + [Done(s.writer.tok, Failed(RequestIsBroken))] && s'.writer.Idle? && s'.input == s.input
    ensures ControlEnabled(s, DelayReset) ==>
      var s' := Apply(s, Control(DelayReset));
      s'.done == s.done + [Done(s.input[0], Failed(ConnReset))] && s'.writer.Delaying? && s'.input == s.input[1..]
  {
  }

  /** A connection that ends in an error is retried at once ten times in a row, and after a delay from then on. */
  lemma RetriesExactly(s: State)
    requires ControlEnabled(s, DrainEnd)
    ensures
      var s' := Apply(s, Control(DrainEnd));
      && s'.fails == (if s.writer.failed then s.fails + 1 else s.fails)
      && s'.writer == if s.writer.failed && s'.fails > 10 then Delaying else Starting
    ensures s.writer == Emptying(0, s.writer.failed)
  {
  }

  /** Giving a connection up, or not getting one, drains what is on the input at that moment. */
  lemma GivingUpDrains(s: State, step: Step)
    requires Enabled(s, step) && (step == Out(CloseTasks) || step == Control(Connect(false)))
    ensures
      var s' := Apply(s, step);
      && s'.input == s.input && s'.done == s.done
      && s'.writer.Emptying? && s'.writer.left == |s.input|
      && (s'.writer.failed <==> s.writer != Closing(false))
      && (step == Out(CloseTasks) ==> |s'.rounds| == |s.rounds| && Last(s').closed)
  {
  }

  // ---------------------------------------------------------------- the place decides the outcome

  /** The k-th resolved request of connection i: answered, or the one the failure hit, or one behind it. */
  function OutcomeAt(r: Round, i: nat, k: nat): Outcome {
    if k < r.decoded && k < |r.served| then Reply(i, k, r.served[k])
    else if k == r.decoded then Failed(ReadFailure)
    else Failed(ConnReset)
  }

  predicate RoundDone(done: seq<Done>, r: Round, i: nat) {
    && r.decoded <= |r.resolved| && r.decoded <= |r.served|
    && (r.mode.Draining? ==> r.decoded < |r.resolved|)
    && (forall k :: 0 <= k < |r.resolved| ==> Done(r.resolved[k], OutcomeAt(r, i, k)) in done)
    && (forall t :: t in r.lost ==> Done(t, Failed(WriteFailure)) in done)
  }

  predicate OutcomesOk(s: State) {
    && (forall i :: 0 <= i < |s.rounds| ==> RoundDone(s.done, s.rounds[i], i))
    && (forall j :: 0 <= j < |s.done| && s.done[j].outcome == Failed(RequestIsBroken) ==> s.done[j].tok.req.readOnly)
  }

  lemma RoundStaysDone(done: seq<Done>, done': seq<Done>, r: Round, r': Round, i: nat)
    requires RoundDone(done, r, i) && done <= done'
    requires r'.resolved == r.resolved && r'.decoded == r.decoded && (r'.mode.Draining? ==> r.mode.Draining?)
    requires r.served <= r'.served
    requires forall t :: t in r'.lost ==> t in r.lost || Done(t, Failed(WriteFailure)) in done'
    ensures RoundDone(done', r', i)
  {
    forall d | d in done
      ensures d in done'
    {
      var j :| 0 <= j < |done| && done[j] == d;
      assert done'[j] == d;
    }
    forall k | 0 <= k < |r'.resolved|
      ensures Done(r'.resolved[k], OutcomeAt(r', i, k)) in done'
    {
      assert OutcomeAt(r', i, k) == OutcomeAt(r, i, k);
      assert Done(r.resolved[k], OutcomeAt(r, i, k)) in done;
    }
  }

  /** The reader resolves one request more. */
  lemma RoundResolves(done: seq<Done>, r: Round, i: nat, e: ConnStep)
    requires RoundDone(done, r, i) && ConnEnabled(r, e) && (e.DecodeOk? || e.DecodeFail? || e.DrainTask?)
    requires r.mode.Reading? ==> r.decoded == |r.resolved|
    ensures RoundDone(done + ConnDone(r, i, e), ConnRound(r, e), i)
  {
    var r', done' := ConnRound(r, e), done + ConnDone(r, i, e);
    assert r'.resolved == r.resolved + [r.hand.value];
    assert ConnDone(r, i, e)[0] in done';
    forall k | 0 <= k < |r'.resolved|
      ensures Done(r'.resolved[k], OutcomeAt(r', i, k)) in done'
    {
      if k < |r.resolved| {
        assert Done(r.resolved[k], OutcomeAt(r, i, k)) in done;
        assert OutcomeAt(r', i, k) == OutcomeAt(r, i, k);
      }
    }
  }

  lemma ConnKeepsRound(done: seq<Done>, r: Round, i: nat, e: ConnStep)
    requires RoundDone(done, r, i) && ConnEnabled(r, e)
    requires r.mode.Reading? ==> r.decoded == |r.resolved|
    ensures RoundDone(done + ConnDone(r, i, e), ConnRound(r, e), i)
  {
    hide RoundDone, OutcomeAt;
    if e.DecodeOk? || e.DecodeFail? || e.DrainTask? {
      RoundResolves(done, r, i, e);
    } else {
      RoundStaysDone(done, done + ConnDone(r, i, e), r, ConnRound(r, e), i);
    }
  }

  lemma RecordDone(s: State, ds: seq<Done>)
    requires |ds| <= 1
    ensures Record(s, ds).done == s.done + ds
  {
  }

  lemma ConnOutcomes(s: State, i: nat, e: ConnStep)
    requires OutcomesOk(s) && RoundsOk(s) && i < |s.rounds| && ConnEnabled(s.rounds[i], e)
    ensures OutcomesOk(DoConn(s, i, e))
  {
    hide RoundDone, ConnRound, ConnDone, Record;
    var r := s.rounds[i];
    var s' := DoConn(s, i, e);
    AtMostOne(r, i, e);
    RecordDone(s, ConnDone(r, i, e));
    assert RoundOk(r, s.cap, Held(s, i));
    ConnKeepsRound(s.done, r, i, e);
    forall j | 0 <= j < |s'.rounds|
      ensures RoundDone(s'.done, s'.rounds[j], j)
    {
      if j != i {
        RoundStaysDone(s.done, s'.done, s.rounds[j], s.rounds[j], j);
      }
    }
  }

  lemma AtMostOne(r: Round, i: nat, e: ConnStep)
    requires ConnEnabled(r, e)
    ensures |ConnDone(r, i, e)| <= 1
    ensures forall d :: d in ConnDone(r, i, e) ==> d.outcome != Failed(RequestIsBroken)
  {
  }

  lemma OutOutcomes(s: State, o: OutStep)
    requires OutcomesOk(s) && OutEnabled(s, o)
    ensures OutcomesOk(DoOut(s, o))
  {
    hide RoundDone, OutWriter, Record;
    var s' := DoOut(s, o);
    RecordDone(s, OutDone(s, o));
    var n := |s.rounds| - 1;
    assert OutDone(s, o) != [] ==> OutDone(s, o)[0] in s'.done;
    forall j | 0 <= j < |s'.rounds|
      ensures RoundDone(s'.done, s'.rounds[j], j)
    {
      if j != n {
        RoundStaysDone(s.done, s'.done, s.rounds[j], s.rounds[j], j);
      } else {
        RoundStaysDone(s.done, s'.done, s.rounds[j], s'.rounds[j], j);
      }
    }
  }

  lemma ControlOutcomes(s: State, c: ControlStep)
    requires OutcomesOk(s) && ControlEnabled(s, c)
    ensures OutcomesOk(DoControl(s, c))
  {
    hide ControlWriter, ControlFails, Record;
    var s' := DoControl(s, c);
    RecordDone(s, ControlDone(s, c));
    forall j | 0 <= j < |s'.rounds|
      ensures RoundDone(s'.done, s'.rounds[j], j)
    {
      if j < |s.rounds| {
        RoundStaysDone(s.done, s'.done, s.rounds[j], s.rounds[j], j);
      }
    }
  }

  lemma PushOutcomes(s: State, req: Req)
    requires OutcomesOk(s)
    ensures OutcomesOk(DoPush(s, req))
  {
    hide RoundDone;
    var s' := DoPush(s, req);
    forall j | 0 <= j < |s'.rounds|
      ensures RoundDone(s'.done, s'.rounds[j], j)
    {
      RoundStaysDone(s.done, s'.done, s.rounds[j], s.rounds[j], j);
    }
  }

  lemma OutcomesStep(s: State, step: Step)
    requires OutcomesOk(s) && RoundsOk(s) && Enabled(s, step)
    ensures OutcomesOk(Apply(s, step))
  {
    hide OutcomesOk, RoundsOk, DoConn, DoOut, DoControl, DoPush, ConnEnabled, OutEnabled, ControlEnabled;
    match step
    case Push(req) => PushOutcomes(s, req);
    case CloseInput => SameOutcomes(s, s.(inputClosed := true));
    case SetClosed => SameOutcomes(s, s.(closed := true));
    case Control(c) => ControlOutcomes(s, c);
    case Out(o) => OutOutcomes(s, o);
    case OnConn(i, e) => ConnOutcomes(s, i, e);
  }

  lemma SameOutcomes(s: State, s': State)
    requires OutcomesOk(s) && s'.done == s.done && s'.rounds == s.rounds
    ensures OutcomesOk(s')
  {
  }

  // ---------------------------------------------------------------- the order of the writes

  /** Everything written, connection after connection. */
  function AllWritten(rs: seq<Round>): seq<Tok> {
    if rs == [] then [] else AllWritten(rs[..|rs| - 1]) + rs[|rs| - 1].written
  }

  /** What is still to be written: the request in the writer's hand, then the input. */
  function Ahead(s: State): seq<Tok> {
    (if s.writer.Encoding? then [s.writer.tok] else []) + s.input
  }

  predicate Increasing(ts: seq<Tok>) {
    forall i, j :: 0 <= i < j < |ts| ==> ts[i].serial < ts[j].serial
  }

  /** Pushes are written, and wait to be written, in the order they were made. */
  predicate OrderOk(s: State) {
    var ts := AllWritten(s.rounds) + Ahead(s);
    Increasing(ts) && forall i :: 0 <= i < |ts| ==> ts[i].serial < |s.pushed|
  }

  lemma {:induction false} WrittenSame(rs: seq<Round>, i: nat, r: Round)
    requires i < |rs| && r.written == rs[i].written
    ensures AllWritten(rs[i := r]) == AllWritten(rs)
  {
    var n := |rs| - 1;
    if i < n {
      assert rs[i := r][..n] == rs[..n][i := r];
      WrittenSame(rs[..n], i, r);
    } else {
      assert rs[i := r][..n] == rs[..n];
    }
  }

  lemma WrittenLast(rs: seq<Round>, r: Round, ts: seq<Tok>)
    requires rs != [] && r.written == rs[|rs| - 1].written + ts
    ensures AllWritten(rs[|rs| - 1 := r]) == AllWritten(rs) + ts
  {
    assert rs[|rs| - 1 := r][..|rs| - 1] == rs[..|rs| - 1];
  }

  lemma WrittenFresh(rs: seq<Round>, r: Round)
    requires r.written == []
    ensures AllWritten(rs + [r]) == AllWritten(rs)
  {
    assert (rs + [r])[..|rs|] == rs;
  }

  /** Leaving one request out keeps the order. */
  lemma LeavesOut(a: seq<Tok>, t: Tok, b: seq<Tok>)
    requires Increasing(a + ([t] + b))
    ensures Increasing(a + b) && forall i :: 0 <= i < |a + b| ==> (a + b)[i] in a + ([t] + b)
  {
    var x, y := a + ([t] + b), a + b;
    forall i | 0 <= i < |y|
      ensures y[i] == (if i < |a| then x[i] else x[i + 1]) && y[i] in x
    {
      assert x[if i < |a| then i else i + 1] in x;
    }
    forall i, j | 0 <= i < j < |y|
      ensures y[i].serial < y[j].serial
    {
      assert x[if i < |a| then i else i + 1].serial < x[if j < |a| then j else j + 1].serial;
    }
  }

  lemma Moves(a: seq<Tok>, t: Tok, b: seq<Tok>)
    ensures a + ([t] + b) == (a + [t]) + b
  {
  }

  lemma SameOrder(s: State, s': State)
    requires OrderOk(s) && AllWritten(s'.rounds) + Ahead(s') == AllWritten(s.rounds) + Ahead(s) && |s.pushed| <= |s'.pushed|
    ensures OrderOk(s')
  {
    hide Increasing;
  }

  lemma LessOrder(s: State, s': State, t: Tok)
    requires OrderOk(s) && s'.pushed == s.pushed && s'.rounds == s.rounds && Ahead(s) == [t] + Ahead(s')
    ensures OrderOk(s')
  {
    hide AllWritten, Ahead;
    LeavesOut(AllWritten(s.rounds), t, Ahead(s'));
  }

  lemma PushOrder(s: State, req: Req)
    requires OrderOk(s)
    ensures OrderOk(DoPush(s, req))
  {
    hide AllWritten;
    var s', t := DoPush(s, req), Tok(req, |s.pushed|);
    if s'.input == s.input {
      SameOrder(s, s');
    } else {
      assert AllWritten(s'.rounds) + Ahead(s') == AllWritten(s.rounds) + Ahead(s) + [t];
    }
  }

  lemma ControlOrder(s: State, c: ControlStep)
    requires OrderOk(s) && ControlEnabled(s, c)
    ensures OrderOk(DoControl(s, c))
  {
    hide OrderOk, AllWritten, ControlFails;
    var s' := DoControl(s, c);
    if c == Connect(true) {
      WrittenFresh(s.rounds, FRESH_ROUND);
      SameOrder(s, s');
    } else if c.SkipBroken? {
      LessOrder(s, s', s.writer.tok);
    } else if c.DrainOne? || c.DelayReset? {
      assert s.input == [s.input[0]] + s.input[1..];
      LessOrder(s, s', s.input[0]);
    } else {
      assert c.Receive? ==> s.input == [s.input[0]] + s.input[1..];
      SameOrder(s, s');
    }
  }

  lemma OutOrder(s: State, o: OutStep)
    requires OrderOk(s) && OutEnabled(s, o)
    ensures OrderOk(DoOut(s, o))
  {
    hide OrderOk, AllWritten, Record, MustFlush;
    var s' := DoOut(s, o);
    RecordKeeps(s, OutDone(s, o));
    var r := OutRound(s, o);
    if o.EncodeOk? || o == EncodeFail(true) {
      WrittenLast(s.rounds, r, [s.writer.tok]);
      Moves(AllWritten(s.rounds), s.writer.tok, s.input);
      SameOrder(s, s');
    } else {
      WrittenSame(s.rounds, |s.rounds| - 1, r);
      if o.EncodeFail? {
        SameRounds(s, s', s.writer.tok);
      } else {
        SameOrder(s, s');
      }
    }
  }

  lemma RecordKeeps(s: State, ds: seq<Done>)
    ensures Record(s, ds).pushed == s.pushed && Record(s, ds).input == s.input && Record(s, ds).writer == s.writer
  {
  }

  lemma SameRounds(s: State, s': State, t: Tok)
    requires OrderOk(s) && s'.pushed == s.pushed && AllWritten(s'.rounds) == AllWritten(s.rounds)
    requires Ahead(s) == [t] + Ahead(s')
    ensures OrderOk(s')
  {
    hide AllWritten, Ahead;
    LeavesOut(AllWritten(s.rounds), t, Ahead(s'));
  }

  lemma WritesNothing(r: Round, e: ConnStep)
    requires ConnEnabled(r, e)
    ensures ConnRound(r, e).written == r.written
  {
  }

  lemma OrderStep(s: State, step: Step)
    requires OrderOk(s) && Enabled(s, step)
    ensures OrderOk(Apply(s, step))
  {
    hide OrderOk, AllWritten, DoOut, DoControl, DoPush, ConnDone, Record;
    match step
    case Push(req) => PushOrder(s, req);
    case CloseInput => SameOrder(s, Apply(s, step));
    case SetClosed => SameOrder(s, Apply(s, step));
    case Control(c) => ControlOrder(s, c);
    case Out(o) => OutOrder(s, o);
    case OnConn(i, e) =>
      RecordKeeps(s, ConnDone(s.rounds[i], i, e));
      WritesNothing(s.rounds[i], e);
      WrittenSame(s.rounds, i, ConnRound(s.rounds[i], e));
      SameOrder(s, Apply(s, step));
  }

  // ---------------------------------------------------------------- where the writer stands

  /** Only the connection the writer is on has an open task channel. */
  predicate ChannelsOk(s: State) {
    forall i :: 0 <= i < |s.rounds| ==>
      s.rounds[i].closed || (i == |s.rounds| - 1 && (Active(s.writer) || s.writer.Closing?))
  }

  predicate StandsOk(s: State) {
    && (s.writer.Flushing? ==> s.rounds != [] && Last(s).flushed < |Last(s).written|)
    && (s.writer.Emptying? ==> s.writer.left <= |s.input|)
    && (s.writer.Delaying? ==> s.fails > 10)
    && (s.writer.Stopped? ==> s.closed)
  }

  lemma ChannelsStep(s: State, step: Step)
    requires ChannelsOk(s) && Enabled(s, step)
    ensures ChannelsOk(Apply(s, step))
  {
    hide ControlFails, ControlDone, OutDone, ConnDone;
  }

  lemma StandsStep(s: State, step: Step)
    requires StandsOk(s) && WriterOk(s) && Enabled(s, step)
    ensures StandsOk(Apply(s, step))
  {
    hide ControlDone, OutDone, ConnDone, Counter;
  }

  // ---------------------------------------------------------------- every reachable state

  predicate More(s: State) {
    OutcomesOk(s) && OrderOk(s) && ChannelsOk(s) && StandsOk(s)
  }

  lemma MoreStep(s: State, step: Step)
    requires Inv(s) && More(s) && Enabled(s, step)
    ensures More(Apply(s, step))
  {
    hide OutcomesOk, OrderOk, ChannelsOk, StandsOk, RoundsOk, WriterOk, Enabled, Apply;
    OutcomesStep(s, step);
    OrderStep(s, step);
    ChannelsStep(s, step);
    StandsStep(s, step);
  }

  lemma {:induction false} MoreRun(s: State, steps: seq<Step>)
    requires Inv(s) && More(s) && IsRun(s, steps)
    ensures More(After(s, steps))
    decreases |steps|
  {
    hide Inv, More, Enabled, Apply;
    if steps != [] {
      StepInv(s, steps[0]);
      MoreStep(s, steps[0]);
      MoreRun(Apply(s, steps[0]), steps[1..]);
    }
  }

  lemma ReachableMore(s: State)
    requires Reachable(s)
    ensures More(s)
  {
    hide Inv, More;
    var cap: nat, steps: seq<Step> :| IsRun(Init(cap), steps) && After(Init(cap), steps) == s;
    InitInv(cap);
    InitMore(cap);
    MoreRun(Init(cap), steps);
  }

  lemma InitMore(cap: nat)
    ensures More(Init(cap))
  {
  }

  // ---------------------------------------------------------------- theorems

  /** Every answer that was decoded has been handed to the request it answers. */
  lemma DecodedIsDelivered(s: State, i: nat, k: nat)
    requires Reachable(s) && i < |s.rounds| && k < s.rounds[i].decoded
    ensures
      var r := s.rounds[i];
      && k < |r.written| && k < |r.served| && r.served[k].to == r.written[k]
      && Done(r.written[k], Reply(i, k, r.served[k])) in s.done
  {
    hide Reachable, OrderOk, ChannelsOk, StandsOk;
    ReachableInv(s);
    ReachableMore(s);
    var r := s.rounds[i];
    assert RoundDone(s.done, r, i);
    assert RoundOk(r, s.cap, Held(s, i));
    assert r.written[k] == r.resolved[k];
  }

  /** Of the requests written on a connection without an answer, the first failed in reading and the others were reset. */
  lemma UnansweredOutcomes(s: State, i: nat, k: nat)
    requires Reachable(s) && i < |s.rounds| && s.rounds[i].decoded <= k < |s.rounds[i].resolved|
    ensures
      var r := s.rounds[i];
      && k < |r.written|
      && Done(r.written[k], Failed(if k == r.decoded then ReadFailure else ConnReset)) in s.done
  {
    hide Reachable, OrderOk, ChannelsOk, StandsOk;
    ReachableInv(s);
    ReachableMore(s);
    var r := s.rounds[i];
    assert RoundDone(s.done, r, i);
    assert RoundOk(r, s.cap, Held(s, i));
    assert r.written[k] == r.resolved[k];
    assert Done(r.resolved[k], OutcomeAt(r, i, k)) in s.done;
  }

  // ---------------------------------------------------------------- giving a connection up

  /** While the input is drained the oldest request is reset, or something else happens that leaves the drain as it is. */
  lemma DrainStep(s: State, step: Step)
    requires s.writer.Emptying? && s.writer.left <= |s.input| && Enabled(s, step)
    ensures
      var s' := Apply(s, step);
      if step == Control(DrainOne) then
        && s.input != [] && s'.input == s.input[1..] && Done(s.input[0], Failed(ConnReset)) in s'.done
        && s'.writer == Emptying(s.writer.left - 1, s.writer.failed)
      else if step == Control(DrainEnd) then s.writer.left == 0
      else s'.writer == s.writer && s.input <= s'.input
  {
    hide ConnRound, ConnDone, OutRound;
    if step == Control(DrainOne) {
      var d := Done(s.input[0], Failed(ConnReset));
      assert Apply(s, step).done == s.done + [d];
      assert (s.done + [d])[|s.done|] == d;
    }
  }

  lemma {:induction false} DoneStays(s: State, steps: seq<Step>, d: Done)
    requires IsRun(s, steps) && d in s.done
    ensures d in After(s, steps).done
    decreases |steps|
  {
    hide Enabled, Apply;
    if steps != [] {
      OnlyAdds(s, steps[0]);
      var j :| 0 <= j < |s.done| && s.done[j] == d;
      assert Apply(s, steps[0]).done[j] == d;
      DoneStays(Apply(s, steps[0]), steps[1..], d);
    }
  }

  /** The first n requests that were on the input have been reset. */
  predicate ResetAll(input: seq<Tok>, n: nat, done: seq<Done>) {
    n <= |input| && forall k :: 0 <= k < n ==> Done(input[k], Failed(ConnReset)) in done
  }

  lemma {:induction false} DrainRun(s: State, steps: seq<Step>)
    requires s.writer.Emptying? && s.writer.left <= |s.input| && IsRun(s, steps)
    ensures
      var s', n := After(s, steps), s.writer.left;
      || ResetAll(s.input, n, s'.done)
      || (s'.writer.Emptying? && s'.writer.left <= n && ResetAll(s.input, n - s'.writer.left, s'.done))
    decreases |steps|
  {
    hide Enabled, Apply;
    if steps != [] {
      var s1 := Apply(s, steps[0]);
      DrainStep(s, steps[0]);
      if steps[0] == Control(DrainOne) {
        DrainRun(s1, steps[1..]);
        DoneStays(s1, steps[1..], Done(s.input[0], Failed(ConnReset)));
        assert forall k :: 0 < k < |s.input| ==> s.input[k] == s1.input[k - 1];
      } else if steps[0] != Control(DrainEnd) {
        DrainRun(s1, steps[1..]);
        assert forall k :: 0 <= k < |s.input| ==> s.input[k] == s1.input[k];
      }
    }
  }

  /** When the writer has done with a connection, or with not getting one, every request then on the input has been reset. */
  lemma GivenUpIsReset(s: State, step: Step, steps: seq<Step>)
    requires Enabled(s, step) && (step == Out(CloseTasks) || step == Control(Connect(false)))
    requires IsRun(Apply(s, step), steps)
    ensures
      var s' := After(Apply(s, step), steps);
      !s'.writer.Emptying? ==> forall t :: t in s.input ==> Done(t, Failed(ConnReset)) in s'.done
  {
    hide Enabled, Apply, IsRun, After;
    GivingUpDrains(s, step);
    DrainRun(Apply(s, step), steps);
  }

  // ---------------------------------------------------------------- what was never written

  /** Only read-only requests are skipped as broken. */
  lemma OnlyReadsAreSkipped(s: State, j: nat)
    requires Reachable(s) && j < |s.done| && s.done[j].outcome == Failed(RequestIsBroken)
    ensures s.done[j].tok.req.readOnly
  {
    hide Reachable, OrderOk, ChannelsOk, StandsOk;
    ReachableMore(s);
  }

  lemma {:induction false} WaitingCovers(rs: seq<Round>, i: nat, t: Tok)
    requires i < |rs|
    ensures Waiting(rs[i], t) <= WaitingAll(rs, t)
  {
    if i < |rs| - 1 {
      WaitingCovers(rs[..|rs| - 1], i, t);
    }
  }

  /** A completed request that was written has left its connection: it was resolved there, or lost there. */
  lemma WrittenAndDone(s: State, i: nat, t: Tok)
    requires Reachable(s) && i < |s.rounds| && t in s.rounds[i].written && t in DoneToks(s.done)
    ensures t in s.rounds[i].resolved || t in s.rounds[i].lost
  {
    hide Reachable, Conserved, WrittenOnce, BatchesCount, DoneToks, WaitingAll;
    ReachableInv(s);
    ExactlyOnePlace(s, t);
    WaitingCovers(s.rounds, i, t);
    assert Count(DoneToks(s.done), t) > 0;
    assert RoundOk(s.rounds[i], s.cap, Held(s, i));
    var r, held := s.rounds[i], Held(s, i);
    assert Count(r.tasks, t) == 0 && Count(One(r.hand), t) == 0 && Count(InHand(s.writer), t) == 0;
    assert t !in r.tasks && t !in One(r.hand) && t !in held;
  }

  lemma SameCompletion(s: State, d: Done, d': Done)
    requires Reachable(s) && d in s.done && d' in s.done && d.tok == d'.tok
    ensures d == d'
  {
    hide Reachable;
    var j :| 0 <= j < |s.done| && s.done[j] == d;
    var k :| 0 <= k < |s.done| && s.done[k] == d';
    if j < k {
      CompletedAtMostOnce(s, j, k);
    } else if k < j {
      CompletedAtMostOnce(s, k, j);
    }
  }

  /** A push that completed unsent, or as broken, was written on no connection. */
  lemma UnsentIsUnwritten(s: State, d: Done, i: nat)
    requires Reachable(s) && d in s.done && (d.outcome == Unsent || d.outcome == Failed(RequestIsBroken)) && i < |s.rounds|
    ensures d.tok !in s.rounds[i].written
  {
    hide Reachable, OrderOk, ChannelsOk, StandsOk;
    var r := s.rounds[i];
    if d.tok in r.written {
      var j :| 0 <= j < |s.done| && s.done[j] == d;
      assert DoneToks(s.done)[j] == d.tok;
      WrittenAndDone(s, i, d.tok);
      ReachableMore(s);
      assert RoundDone(s.done, r, i);
      if d.tok in r.resolved {
        var k :| 0 <= k < |r.resolved| && r.resolved[k] == d.tok;
        SameCompletion(s, d, Done(r.resolved[k], OutcomeAt(r, i, k)));
      } else {
        SameCompletion(s, d, Done(d.tok, Failed(WriteFailure)));
      }
      assert false;
    }
  }

  lemma {:induction false} InAllWritten(rs: seq<Round>, i: nat, a: nat) returns (p: nat)
    requires i < |rs| && a < |rs[i].written|
    ensures p < |AllWritten(rs)| && AllWritten(rs)[p] == rs[i].written[a]
  {
    var n := |rs| - 1;
    if i < n {
      p := InAllWritten(rs[..n], i, a);
    } else {
      p := |AllWritten(rs[..n])| + a;
    }
  }

  lemma {:induction false} LaterIsLarger(rs: seq<Round>, i: nat, a: nat, j: nat, b: nat)
    requires Increasing(AllWritten(rs)) && i <= j < |rs| && a < |rs[i].written| && b < |rs[j].written|
    requires i == j ==> a < b
    ensures rs[i].written[a].serial < rs[j].written[b].serial
  {
    hide Increasing;
    var n := |rs| - 1;
    var front := AllWritten(rs[..n]);
    FrontIncreases(front, rs[n].written);
    if j < n {
      LaterIsLarger(rs[..n], i, a, j, b);
    } else {
      var p: nat;
      if i < n {
        p := InAllWritten(rs[..n], i, a);
      } else {
        p := |front| + a;
      }
      InOrderAt(AllWritten(rs), p, |front| + b);
    }
  }

  lemma InOrderAt(ts: seq<Tok>, p: nat, q: nat)
    requires Increasing(ts) && p < q < |ts|
    ensures ts[p].serial < ts[q].serial
  {
  }

  lemma FrontIncreases(a: seq<Tok>, b: seq<Tok>)
    requires Increasing(a + b)
    ensures Increasing(a)
  {
    assert forall i :: 0 <= i < |a| ==> a[i] == (a + b)[i];
  }

  /** Requests are written in the order they were pushed, on one connection and from each connection to the next. */
  lemma WrittenInPushOrder(s: State, i: nat, a: nat, j: nat, b: nat)
    requires Reachable(s) && i <= j < |s.rounds| && a < |s.rounds[i].written| && b < |s.rounds[j].written|
    requires i == j ==> a < b
    ensures
      var t, u := s.rounds[i].written[a], s.rounds[j].written[b];
      t.serial < u.serial < |s.pushed| && s.pushed[t.serial] == t && s.pushed[u.serial] == u
  {
    hide Reachable, OutcomesOk, ChannelsOk, StandsOk, AllWritten, Increasing, Conserved, WrittenOnce, BatchesCount, RoundsOk;
    ReachableInv(s);
    ReachableMore(s);
    FrontIncreases(AllWritten(s.rounds), Ahead(s));
    LaterIsLarger(s.rounds, i, a, j, b);
    WrittenWasPushed(s, i, a);
    WrittenWasPushed(s, j, b);
  }

  lemma WrittenWasPushed(s: State, i: nat, a: nat)
    requires Reachable(s) && i < |s.rounds| && a < |s.rounds[i].written|
    ensures
      var t := s.rounds[i].written[a];
      t.serial < |s.pushed| && s.pushed[t.serial] == t
  {
    hide Reachable, RoundsOk, BatchesCount, WrittenAll;
    ReachableInv(s);
    var t := s.rounds[i].written[a];
    WrittenAllCoversOne(s.rounds, i, t);
    assert Count(s.rounds[i].written, t) > 0;
    assert Count(s.pushed, t) > 0;
    var k :| 0 <= k < |s.pushed| && s.pushed[k] == t;
  }

  /** Whatever connection the writer is not on any more has a closed task channel, so its reader comes to an end. */
  lemma OldChannelsAreClosed(s: State, i: nat)
    requires Reachable(s) && i < |s.rounds|
    ensures i + 1 < |s.rounds| || !(Active(s.writer) || s.writer.Closing?) ==> s.rounds[i].closed
  {
    hide Reachable, OutcomesOk, OrderOk, StandsOk;
    ReachableMore(s);
  }

  /** The writer delays only after more than ten failures in a row, and stops only when it is told to. */
  lemma DelaysAndStopsForAReason(s: State)
    requires Reachable(s)
    ensures s.writer.Delaying? ==> s.fails > 10
    ensures s.writer.Stopped? ==> s.closed
  {
    hide Reachable, OutcomesOk, OrderOk, ChannelsOk;
    ReachableMore(s);
  }

  /**
   * After a request is written all that was written is flushed when no other one waits, when more than half a channel is
   * buffered, or when the time is up; otherwise nothing is.
   */
  lemma FlushesExactly(s: State, late: bool)
    requires Reachable(s) && s.writer.Flushing?
    ensures s.rounds != [] && Enabled(s, Out(FlushOk(late)))
    ensures
      var r, r' := Last(s), Last(Apply(s, Out(FlushOk(late))));
      && r'.written == r.written
      && if s.input == [] || late || |r.written| - r.flushed > s.cap / 2 then r'.flushed == |r.written|
         else r'.flushed == r.flushed
  {
    hide Reachable, OutcomesOk, OrderOk, ChannelsOk, Conserved, WrittenOnce, BatchesCount, RoundsOk;
    ReachableInv(s);
    ReachableMore(s);
  }
}
