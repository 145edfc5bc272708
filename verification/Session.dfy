/**
 * A client session (session.go) as a step system: the reader goroutine decodes, dispatches and queues requests, the
 * writer goroutine pops them, waits for each and encodes its reply. The queue is a RequestChan.
 */
module Session {
  import opened Wrappers
  import FlushRule

  /** Requests are numbered in the order they were decoded. */
  datatype Request = Request(serial: nat)

  /** What handleResponse hands out for a request: its reply, or an error that becomes an error reply. */
  datatype Result =
    | Resp(payload: int)
    | Refused  // the error reply the reader put there because dispatch failed
    | Err(why: int)

  datatype Reply = Reply(to: Request, result: Result)

  datatype Reader =
    | Decoding
    | Dispatching(r: Request)  // handleRequest, which may block
    | Leaving  // on the way to tasks.Close()
    | ReaderGone

  datatype Writer =
    | Popping  // PopFront
    | Responding(r: Request)  // handleResponse waits for the batch
    | Flushing
    | Discarding  // PopFrontAllVoid after an error
    | WriterGone

  datatype Config = Config(maxPipeline: nat, breakOnFailure: bool)

  datatype State = State(
    config: Config,
    decoded: nat,
    queued: seq<Request>,  // every PushBack, in order
    queue: seq<Request>, closed: bool,
    encoded: seq<Reply>,  // every reply encoded to the client, in order
    flushed: nat,  // how many of them have left
    nbuffered: nat,  // FlushEncoder's count
    discarded: seq<Request>,  // popped without a reply
    reader: Reader, writer: Writer)

  datatype Step =
    | Decode(ok: bool)
    | Dispatched(failed: bool)
    | CloseTasks
    | PopTask | PopClosed
    | Respond(result: Result, encodes: bool)
    | Flush(late: bool, ok: bool)
    | Discard

  function Init(config: Config): State {
    State(config, 0, [], [], false, [], 0, 0, [], Decoding, Popping)
  }

  predicate Enabled(s: State, step: Step) {
    match step
    case Decode(_) => s.reader.Decoding?
    case Dispatched(_) => s.reader.Dispatching?
    case CloseTasks => s.reader.Leaving?
    case PopTask => s.writer.Popping? && s.queue != []
    case PopClosed => (s.writer.Popping? || s.writer.Discarding?) && s.queue == [] && s.closed
    case Respond(_, _) => s.writer.Responding?
    case Flush(_, _) => s.writer.Flushing?
    case Discard => s.writer.Discarding? && s.queue != []
  }

  function Apply(s: State, step: Step): State
    requires Enabled(s, step)
  {
    match step
    case Decode(ok) =>
      if !ok then s.(reader := Leaving)
      else if |s.queue| > s.config.maxPipeline then s.(decoded := s.decoded + 1, reader := Leaving)
      else s.(decoded := s.decoded + 1, reader := Dispatching(Request(s.decoded)))
    case Dispatched(failed) =>
      s.(queue := s.queue + [s.reader.r], queued := s.queued + [s.reader.r],
         reader := if failed && s.config.breakOnFailure then Leaving else Decoding)
    case CloseTasks => s.(closed := true, reader := ReaderGone)
    case PopTask => s.(queue := s.queue[1..], writer := Responding(s.queue[0]))
    case PopClosed => s.(writer := WriterGone)
    case Respond(result, encodes) => DoRespond(s, s.writer.r, result, encodes)
    case Flush(late, ok) =>
      var due := s.queue == [] || FlushRule.NeedFlush(s.nbuffered, s.config.maxPipeline / 2, late);
      if !due then s.(writer := Popping)
      else if !ok then s.(writer := Discarding)
      else s.(flushed := |s.encoded|, nbuffered := 0, writer := Popping)
    case Discard => s.(queue := s.queue[1..], discarded := s.discarded + [s.queue[0]])
  }

  /** The callback of loopWriter up to its flush. */
  function DoRespond(s: State, r: Request, result: Result, encodes: bool): State {
    var sent := s.encoded + [Reply(r, result)];
    if result.Err? && s.config.breakOnFailure then
      // the error reply goes out on its own, and the session ends
      if encodes then s.(encoded := sent, flushed := |sent|, writer := Discarding)
      else s.(discarded := s.discarded + [r], writer := Discarding)
    else if encodes then s.(encoded := sent, nbuffered := s.nbuffered + 1, writer := Flushing)
    else s.(discarded := s.discarded + [r], writer := Discarding)
  }

  predicate IsRun(s: State, steps: seq<Step>)
    decreases |steps|
  {
    steps == [] || (Enabled(s, steps[0]) && IsRun(Apply(s, steps[0]), steps[1..]))
  }

  function After(s: State, steps: seq<Step>): State
    requires IsRun(s, steps)
    decreases |steps|
  {
    if steps == [] then s else After(Apply(s, steps[0]), steps[1..])
  }

  // ---------------------------------------------------------------- invariant

  function Answered(replies: seq<Reply>): (rs: seq<Request>)
    ensures |rs| == |replies| && forall i :: 0 <= i < |replies| ==> rs[i] == replies[i].to
  {
    seq(|replies|, i requires 0 <= i < |replies| => replies[i].to)
  }

  function InHand(w: Writer): seq<Request> {
    if w.Responding? then [w.r] else []
  }

  /** What was queued is, in order: answered, then discarded, then in the writer's hand, then still queued. */
  predicate OrderOk(s: State) {
    && s.queued == Answered(s.encoded) + (s.discarded + (InHand(s.writer) + s.queue))
    && (s.discarded != [] ==> s.writer.Discarding? || s.writer.WriterGone?)
    && (s.writer.WriterGone? ==> s.closed && s.queue == [])
    && (s.closed ==> s.reader.ReaderGone?)
  }

  /** The reader numbers requests as they come and checks the pipeline bound before it dispatches. */
  predicate ReaderOk(s: State) {
    && |s.queue| <= s.config.maxPipeline + 1
    && (s.reader.Dispatching? ==> |s.queue| <= s.config.maxPipeline)
    && s.decoded >= |s.queued|
    && (s.reader.Dispatching? ==> s.reader.r == Request(|s.queued|) && s.decoded == |s.queued| + 1)
    && (s.reader.Decoding? ==> s.decoded == |s.queued|)
    && (forall k :: 0 <= k < |s.queued| ==> s.queued[k] == Request(k))
  }

  /** The flush discipline of the writer. */
  predicate FlushOk(s: State) {
    && s.flushed <= |s.encoded|
    && (s.writer.Popping? || s.writer.Responding? ==>
          s.nbuffered == |s.encoded| - s.flushed && s.nbuffered <= s.config.maxPipeline / 2)
    && (s.writer.Flushing? ==> s.nbuffered == |s.encoded| - s.flushed)
    && (s.writer.Popping? && s.queue == [] ==> s.nbuffered == 0)
  }

  predicate Inv(s: State) {
    OrderOk(s) && ReaderOk(s) && FlushOk(s)
  }

  lemma AnsweredSnoc(replies: seq<Reply>, r: Reply)
    ensures Answered(replies + [r]) == Answered(replies) + [r.to]
  {
  }

  /** The four parts of the queue order, when a request moves from one to the next. */
  lemma Move(a: seq<Request>, d: seq<Request>, h: Request, q: seq<Request>)
    ensures a + (d + ([] + ([h] + q))) == a + (d + ([h] + q))
    ensures a + (d + ([h] + q)) == a + ((d + [h]) + ([] + q))
    ensures a + ([] + ([h] + q)) == (a + [h]) + ([] + ([] + q))
  {
  }

  lemma Enqueue(a: seq<Request>, d: seq<Request>, h: seq<Request>, q: seq<Request>, r: Request)
    ensures (a + (d + (h + q))) + [r] == a + (d + (h + (q + [r])))
  {
  }

  lemma OrderStep(s: State, step: Step)
    requires OrderOk(s) && Enabled(s, step)
    ensures OrderOk(Apply(s, step))
  {
    hide Answered;
    var a := Answered(s.encoded);
    match step {
      case Dispatched(_) => Enqueue(a, s.discarded, InHand(s.writer), s.queue, s.reader.r);
      case PopTask =>
        Move(a, s.discarded, s.queue[0], s.queue[1..]);
        assert s.queue == [s.queue[0]] + s.queue[1..];
      case Discard =>
        Move(a, s.discarded, s.queue[0], s.queue[1..]);
        assert s.queue == [s.queue[0]] + s.queue[1..];
      case Respond(result, _) =>
        Move(a, s.discarded, s.writer.r, s.queue);
        AnsweredSnoc(s.encoded, Reply(s.writer.r, result));
      case _ =>
    }
  }

  lemma ReaderStep(s: State, step: Step)
    requires ReaderOk(s) && Enabled(s, step)
    ensures ReaderOk(Apply(s, step))
  {
  }

  lemma FlushStep(s: State, step: Step)
    requires FlushOk(s) && Enabled(s, step)
    ensures FlushOk(Apply(s, step))
  {
  }

  lemma StepInv(s: State, step: Step)
    requires Inv(s) && Enabled(s, step)
    ensures Inv(Apply(s, step))
  {
    hide OrderOk, ReaderOk, FlushOk, Apply, Enabled;
    OrderStep(s, step);
    ReaderStep(s, step);
    FlushStep(s, step);
  }

  lemma {:induction false} RunInv(s: State, steps: seq<Step>)
    requires Inv(s) && IsRun(s, steps)
    ensures Inv(After(s, steps)) && After(s, steps).config == s.config
    decreases |steps|
  {
    hide Inv;
    if steps != [] {
      StepInv(s, steps[0]);
      RunInv(Apply(s, steps[0]), steps[1..]);
    }
  }

  // ---------------------------------------------------------------- theorems

  /** In every run the k-th reply encoded to the client answers the k-th queued request: replies are a prefix of requests. */
  lemma RepliesInOrder(config: Config, steps: seq<Step>)
    requires IsRun(Init(config), steps)
    ensures var s := After(Init(config), steps);
            && |s.encoded| <= |s.queued| <= s.decoded
            && forall k :: 0 <= k < |s.encoded| ==> s.encoded[k].to == s.queued[k] == Request(k)
  {
    RunInv(Init(config), steps);
    var s := After(Init(config), steps);
    assert forall k :: 0 <= k < |s.encoded| ==> Answered(s.encoded)[k] == s.queued[k];
  }

  /** In every run at most SessionMaxPipeline + 1 requests are queued. */
  lemma QueueIsBounded(config: Config, steps: seq<Step>)
    requires IsRun(Init(config), steps)
    ensures |After(Init(config), steps).queue| <= config.maxPipeline + 1
  {
    RunInv(Init(config), steps);
  }

  /** In every run a writer that waits on an empty queue has sent off every reply; no reply is stranded in the buffer. */
  lemma WaitingWriterHasFlushed(config: Config, steps: seq<Step>)
    requires IsRun(Init(config), steps)
    ensures var s := After(Init(config), steps);
            s.writer.Popping? && s.queue == [] ==> s.flushed == |s.encoded|
  {
    RunInv(Init(config), steps);
  }

  /** Once the writer has stopped every queued request is accounted for: answered in order, or discarded behind those. */
  lemma NothingForgotten(config: Config, steps: seq<Step>)
    requires IsRun(Init(config), steps)
    ensures var s := After(Init(config), steps);
            s.writer.WriterGone? ==> s.queued == Answered(s.encoded) + s.discarded
  {
    RunInv(Init(config), steps);
    var s := After(Init(config), steps);
    if s.writer.WriterGone? {
      assert s.discarded + (InHand(s.writer) + s.queue) == s.discarded;
    }
  }

  // ---------------------------------------------------------------- when the reader goes on

  /** The client is gone, has too many requests in flight, or a failed dispatch ends the session. */
  predicate Leaves(s: State, step: Step) {
    || step == Decode(false)
    || (step == Decode(true) && |s.queue| > s.config.maxPipeline)
    || (step == Dispatched(true) && s.config.breakOnFailure)
  }

  /** The reader leaves for one of these reasons only; otherwise it dispatches what it decoded, queues it, and goes on. */
  lemma ReaderLeavesExactly(s: State, step: Step)
    requires Enabled(s, step) && !s.reader.Leaving?
    ensures Apply(s, step).reader.Leaving? <==>
      || step == Decode(false)
      || (step == Decode(true) && |s.queue| > s.config.maxPipeline)
      || (step == Dispatched(true) && s.config.breakOnFailure)
    ensures step == Decode(true) && |s.queue| <= s.config.maxPipeline ==>
      Apply(s, step).reader == Dispatching(Request(s.decoded)) && Apply(s, step).decoded == s.decoded + 1
    ensures step.Dispatched? ==>
      && Apply(s, step).queue == s.queue + [s.reader.r] && Apply(s, step).queued == s.queued + [s.reader.r]
      && (!Apply(s, step).reader.Leaving? ==> Apply(s, step).reader == Decoding)
    ensures !step.Decode? && !step.Dispatched? ==> Apply(s, step).reader == s.reader && Apply(s, step).closed == s.closed
  {
  }

  /** So in every run a reader that has left had a reason. */
  lemma {:induction false} LeftForAReason(s: State, steps: seq<Step>) returns (i: nat)
    requires IsRun(s, steps) && !s.reader.Leaving? && !s.reader.ReaderGone?
    requires After(s, steps).reader.Leaving? || After(s, steps).reader.ReaderGone?
    ensures i < |steps| && IsRun(s, steps[..i]) && Leaves(After(s, steps[..i]), steps[i])
    decreases |steps|
  {
    hide Enabled, Apply;
    if Leaves(s, steps[0]) {
      i := 0;
    } else {
      StaysUnlessLeaves(s, steps[0]);
      var j := LeftForAReason(Apply(s, steps[0]), steps[1..]);
      i := j + 1;
      assert steps[..i][1..] == steps[1..][..j] && steps[..i][0] == steps[0];
    }
  }

  lemma StaysUnlessLeaves(s: State, step: Step)
    requires Enabled(s, step) && !s.reader.Leaving? && !s.reader.ReaderGone? && !Leaves(s, step)
    ensures !Apply(s, step).reader.Leaving? && !Apply(s, step).reader.ReaderGone?
  {
  }

  // ---------------------------------------------------------------- when the writer answers

  /** A reply is encoded whenever it can be; only a write that fails, or an error that ends the session, discards. */
  lemma RespondsExactly(s: State, result: Result, encodes: bool)
    requires s.writer.Responding?
    ensures
      var s' := Apply(s, Respond(result, encodes));
      var ends := result.Err? && s.config.breakOnFailure;
      && s'.queue == s.queue
      && (encodes ==> s'.encoded == s.encoded + [Reply(s.writer.r, result)] && s'.discarded == s.discarded)
      && (!encodes ==> s'.encoded == s.encoded && s'.discarded == s.discarded + [s.writer.r])
      && (s'.writer.Discarding? <==> !encodes || ends)
      && (encodes && ends ==> s'.flushed == |s'.encoded|)
      && (encodes && !ends ==> s'.writer.Flushing? && s'.flushed == s.flushed && s'.nbuffered == s.nbuffered + 1)
  {
  }

  /** Replies leave when no request waits, when more than half a pipeline of them is buffered, or when the time is up. */
  lemma FlushesExactly(s: State, late: bool, ok: bool)
    requires s.writer.Flushing?
    ensures
      var s' := Apply(s, Flush(late, ok));
      var due := s.queue == [] || (s.nbuffered != 0 && (s.nbuffered > s.config.maxPipeline / 2 || late));
      && s'.encoded == s.encoded && s'.queue == s.queue
      && (due && !ok ==> s'.writer.Discarding? && s'.flushed == s.flushed)
      && (due && ok ==> s'.writer.Popping? && s'.flushed == |s.encoded| && s'.nbuffered == 0)
      && (!due ==> s'.writer.Popping? && s'.flushed == s.flushed && s'.nbuffered == s.nbuffered)
  {
  }

  /** No write fails and no error ends the session. */
  predicate Clean(config: Config, step: Step) {
    && (step.Respond? ==> step.encodes && (step.result.Err? ==> !config.breakOnFailure))
    && (step.Flush? ==> step.ok)
  }

  predicate CleanOk(s: State) {
    && s.discarded == [] && !s.writer.Discarding?
    && (s.writer.WriterGone? ==> s.flushed == |s.encoded|)
  }

  lemma CleanStep(s: State, step: Step)
    requires Inv(s) && CleanOk(s) && Enabled(s, step) && Clean(s.config, step)
    ensures CleanOk(Apply(s, step)) && Apply(s, step).config == s.config
  {
    hide OrderOk, ReaderOk;
  }

  lemma {:induction false} CleanRun(s: State, steps: seq<Step>)
    requires Inv(s) && CleanOk(s) && IsRun(s, steps) && forall i :: 0 <= i < |steps| ==> Clean(s.config, steps[i])
    ensures CleanOk(After(s, steps))
    decreases |steps|
  {
    hide Inv, Enabled, Apply, Clean, CleanOk;
    if steps != [] {
      StepInv(s, steps[0]);
      CleanStep(s, steps[0]);
      CleanRun(Apply(s, steps[0]), steps[1..]);
    }
  }

  /** Then no request is discarded, and when the writer stops every queued request has been answered and sent off. */
  lemma AllAnswered(config: Config, steps: seq<Step>)
    requires IsRun(Init(config), steps) && forall i :: 0 <= i < |steps| ==> Clean(config, steps[i])
    ensures
      var s := After(Init(config), steps);
      && s.discarded == []
      && (s.writer.WriterGone? ==> Answered(s.encoded) == s.queued && s.flushed == |s.encoded|)
  {
    CleanRun(Init(config), steps);
    NothingForgotten(config, steps);
  }
}
