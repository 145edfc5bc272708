/**
 * A client session in front of a backend connection. The commands are those dispatch forwards at most once, and waits for
 * if it then refuses them: the default branch, a GET that asks no other zone, a SET of a key of some zone. Other sessions
 * push to the same connection, and every step of either side interleaves with every other. What the client reads is the
 * server's answer to its own request, in the order of its requests.
 */
module EndToEnd {
  import opened Wrappers
  import P = Pipeline
  import PI = PipelineInvariants
  import PT = PipelineTheorems
  import PO = PipelineOutcomes
  import S = Session

  /** sent: the push of each request that was forwarded. refused: the requests whose dispatch returned an error. */
  datatype State = State(session: S.State, backend: P.State, sent: map<nat, P.Tok>, refused: set<nat>)

  datatype Step =
    | Client(c: S.Step)  // the session on its own
    | Forward(readOnly: bool)  // dispatch hands the request to PushBack
    | Refuse  // dispatch returns an error
    | Queue  // dispatch returns nil, or a panic is recovered
    | Answer(encodes: bool)  // Batch.Wait() returns and the reply is encoded
    | Backend(b: P.Step)  // the connection, and everyone else who uses it

  function Init(config: S.Config, cap: nat): State {
    State(S.Init(config), P.Init(cap), map[], {})
  }

  /** The session's requests have even numbers at the backend, all others odd ones. */
  function OwnReq(k: nat, readOnly: bool): P.Req {
    P.Req(2 * k, readOnly)
  }

  /** What the last setResponse left in the request; a push that was dropped leaves nothing. */
  function Field(done: seq<P.Done>, req: P.Req): Option<P.Outcome> {
    if done == [] then None
    else
      var d := done[|done| - 1];
      if d.tok.req == req && !d.outcome.Unsent? then Some(d.outcome) else Field(done[..|done| - 1], req)
  }

  /** handleResponse: the error if there is one, then the reply, then ErrRespIsRequired. */
  function Handled(field: Option<P.Outcome>): S.Result {
    match field
    case Some(Reply(_, _, answer)) => S.Resp(answer.payload)
    case Some(Failed(_)) => S.Err(1)
    case _ => S.Err(0)
  }

  function ResultOf(s: State, k: nat): S.Result {
    if k in s.refused then S.Refused else Handled(if k in s.sent then Field(s.backend.done, s.sent[k].req) else None)
  }

  /** Batch.Wait() returns: the counter is at zero, where it also is when the request was never pushed. */
  predicate Ready(s: State, k: nat) {
    k in s.sent ==> P.Counter(s.backend.batch, s.sent[k].req) == 0
  }

  predicate Enabled(s: State, step: Step) {
    match step
    case Client(c) => !c.Dispatched? && !c.Respond? && S.Enabled(s.session, c)
    case Forward(_) => s.session.reader.Dispatching? && s.session.reader.r.serial !in s.sent
    case Refuse => s.session.reader.Dispatching? && Ready(s, s.session.reader.r.serial)
    case Queue => s.session.reader.Dispatching? && s.session.reader.r.serial in s.sent
    case Answer(_) => s.session.writer.Responding? && Ready(s, s.session.writer.r.serial)
    case Backend(b) => P.Enabled(s.backend, b) && (b.Push? ==> b.req.id % 2 == 1)
  }

  function Apply(s: State, step: Step): State
    requires Enabled(s, step)
  {
    match step
    case Client(c) => s.(session := S.Apply(s.session, c))
    case Forward(readOnly) =>
      var k := s.session.reader.r.serial;
      var req := OwnReq(k, readOnly);
      s.(backend := P.Apply(s.backend, P.Push(req)), sent := s.sent[k := P.Tok(req, |s.backend.pushed|)])
    case Refuse =>
      s.(session := S.Apply(s.session, S.Dispatched(true)), refused := s.refused + {s.session.reader.r.serial})
    case Queue => s.(session := S.Apply(s.session, S.Dispatched(false)))
    case Answer(encodes) =>
      s.(session := S.Apply(s.session, S.Respond(ResultOf(s, s.session.writer.r.serial), encodes)))
    case Backend(b) => s.(backend := P.Apply(s.backend, b))
  }

  predicate IsRun(s: State, steps: seq<Step>)
    decreases |steps|
  {
    steps == [] || (Enabled(s, steps[0]) && IsRun(Apply(s, steps[0]), steps[1..]))
  }

  function After(s: State, steps: seq<Step>): State
    requires IsRun(s, steps)
    decreases |steps|
  {
    if steps == [] then s else After(Apply(s, steps[0]), steps[1..])
  }

  // ---------------------------------------------------------------- invariant

  /** This is what one of the completions of the push left in the request. */
  ghost predicate Answers(done: seq<P.Done>, t: P.Tok, result: S.Result) {
    exists j :: 0 <= j < |done| && done[j].tok == t && result == Handled(Some(done[j].outcome))
  }

  /** Each request is pushed at most once, and the even numbers at the backend are its own. */
  predicate SentOk(s: State) {
    && (forall k :: k in s.sent ==>
          && s.sent[k].req.id == 2 * k && s.sent[k] in s.backend.pushed
          && (k < |s.session.queued| || (s.session.reader.Dispatching? && s.session.reader.r.serial == k)))
    && (forall t :: t in s.backend.pushed && t.req.id % 2 == 0 ==> t.req.id / 2 in s.sent && s.sent[t.req.id / 2] == t)
  }

  /** And they are pushed in the order they came. */
  predicate SentInOrder(sent: map<nat, P.Tok>, pushes: nat) {
    forall k, l :: k in sent && l in sent && k < l ==> sent[k].serial < sent[l].serial < pushes
  }

  /** Each queued request was forwarded or refused. */
  predicate QueuedOk(s: State) {
    && (forall k :: 0 <= k < |s.session.queued| ==> k in s.sent || k in s.refused)
    && (forall k :: k in s.refused ==> k < |s.session.queued|)
  }

  ghost predicate ReplyOk(s: State, reply: S.Reply) {
    var k := reply.to.serial;
    if k in s.refused then reply.result == S.Refused
    else k in s.sent && Answers(s.backend.done, s.sent[k], reply.result)
  }

  ghost predicate RepliesOk(s: State) {
    forall i :: 0 <= i < |s.session.encoded| ==> ReplyOk(s, s.session.encoded[i])
  }

  ghost predicate Inv(s: State) {
    && S.Inv(s.session) && PT.Reachable(s.backend) && SentOk(s) && SentInOrder(s.sent, |s.backend.pushed|)
    && QueuedOk(s) && RepliesOk(s)
  }

  lemma InitInv(config: S.Config, cap: nat)
    ensures Inv(Init(config, cap))
  {
    PT.InitReachable(cap);
  }

  /** A reply is to a queued request; so is what the writer holds. */
  lemma RepliesToQueued(s: S.State)
    requires S.Inv(s)
    ensures forall i :: 0 <= i < |s.encoded| ==> s.encoded[i].to.serial < |s.queued|
    ensures s.writer.Responding? ==> s.writer.r.serial < |s.queued|
    ensures s.reader.Dispatching? ==> s.reader.r.serial == |s.queued|
  {
    var a := S.Answered(s.encoded);
    forall i | 0 <= i < |s.encoded|
      ensures s.encoded[i].to.serial < |s.queued|
    {
      assert s.queued[i] == a[i];
    }
    if s.writer.Responding? {
      assert s.queued[|a| + |s.discarded|] == s.writer.r;
    }
  }

  /** What the session's own steps do to its queue and its replies. */
  lemma SessionStep(s: S.State, c: S.Step)
    requires S.Inv(s) && S.Enabled(s, c)
    ensures S.Inv(S.Apply(s, c))
    ensures c.Dispatched? ==> S.Apply(s, c).queued == s.queued + [s.reader.r] && s.reader.r.serial == |s.queued|
    ensures !c.Dispatched? ==> S.Apply(s, c).queued == s.queued
    ensures s.reader.Dispatching? && !c.Dispatched? ==> S.Apply(s, c).reader == s.reader
    ensures !c.Respond? ==> S.Apply(s, c).encoded == s.encoded
    ensures c.Respond? ==>
      S.Apply(s, c).encoded == s.encoded || S.Apply(s, c).encoded == s.encoded + [S.Reply(s.writer.r, c.result)]
  {
    hide S.OrderOk, S.FlushOk, S.Answered;
    S.StepInv(s, c);
    RepliesToQueued(s);
  }

  lemma ClientKeeps(s: State, c: S.Step)
    requires Inv(s) && Enabled(s, Client(c))
    ensures Inv(Apply(s, Client(c)))
  {
    hide S.Inv, S.Apply, S.Enabled, PT.Reachable, Answers, SentInOrder;
    SessionStep(s.session, c);
  }

  lemma DispatchKeeps(s: State, step: Step)
    requires Inv(s) && Enabled(s, step) && (step.Refuse? || step.Queue?)
    ensures Inv(Apply(s, step))
  {
    hide S.Inv, S.Apply, PT.Reachable, Answers, SentInOrder;
    SessionStep(s.session, S.Dispatched(step.Refuse?));
    var s' := Apply(s, step);
    RepliesToQueued(s.session);
    forall i | 0 <= i < |s'.session.encoded|
      ensures ReplyOk(s', s'.session.encoded[i])
    {
      assert ReplyOk(s, s.session.encoded[i]);
    }
  }

  lemma AnswersGrow(done: seq<P.Done>, done': seq<P.Done>, t: P.Tok, result: S.Result)
    requires Answers(done, t, result) && done <= done'
    ensures Answers(done', t, result)
  {
    var j :| 0 <= j < |done| && done[j].tok == t && result == Handled(Some(done[j].outcome));
    assert done'[j] == done[j];
  }

  lemma RepliesKept(s: State, s': State)
    requires RepliesOk(s) && s'.session.encoded == s.session.encoded && s.backend.done <= s'.backend.done
    requires s'.refused == s.refused && forall k :: k in s.sent ==> k in s'.sent && s'.sent[k] == s.sent[k]
    ensures RepliesOk(s')
  {
    hide Answers;
    forall i | 0 <= i < |s'.session.encoded|
      ensures ReplyOk(s', s'.session.encoded[i])
    {
      var reply := s.session.encoded[i];
      assert ReplyOk(s, reply);
      if reply.to.serial !in s.refused {
        AnswersGrow(s.backend.done, s'.backend.done, s.sent[reply.to.serial], reply.result);
      }
    }
  }

  lemma BackendKeeps(s: State, b: P.Step)
    requires Inv(s) && Enabled(s, Backend(b))
    ensures Inv(Apply(s, Backend(b)))
  {
    hide S.Inv, P.Apply, P.Enabled, PT.Reachable, RepliesOk;
    PT.Extend(s.backend, b);
    PO.OnlyAdds(s.backend, b);
    RepliesKept(s, Apply(s, Backend(b)));
  }

  lemma ForwardKeeps(s: State, readOnly: bool)
    requires Inv(s) && Enabled(s, Forward(readOnly))
    ensures Inv(Apply(s, Forward(readOnly)))
  {
    hide S.Inv, P.Apply, PT.Reachable, RepliesOk, SentInOrder;
    var push := P.Push(OwnReq(s.session.reader.r.serial, readOnly));
    PT.Extend(s.backend, push);
    PO.OnlyAdds(s.backend, push);
    RepliesToQueued(s.session);
    SentIsNumbered(s);
    OneMoreSent(s.sent, s.session.reader.r.serial, OwnReq(s.session.reader.r.serial, readOnly), |s.backend.pushed|);
    RepliesKept(s, Apply(s, Forward(readOnly)));
  }

  lemma OneMoreSent(sent: map<nat, P.Tok>, k: nat, req: P.Req, pushes: nat)
    requires SentInOrder(sent, pushes) && forall l :: l in sent ==> l < k && sent[l].serial < pushes
    ensures SentInOrder(sent[k := P.Tok(req, pushes)], pushes + 1)
  {
  }

  lemma SentIsNumbered(s: State)
    requires PT.Reachable(s.backend) && SentOk(s)
    ensures forall k :: k in s.sent ==> s.sent[k].serial < |s.backend.pushed|
  {
    hide PT.Reachable, PI.Conserved, PI.WrittenOnce, PI.BatchesCount, PI.RoundsOk, PI.WriterOk, PI.Paired;
    PT.ReachableInv(s.backend);
  }

  // ---------------------------------------------------------------- the answer

  lemma {:induction false} FieldIsCompletion(done: seq<P.Done>, req: P.Req) returns (j: nat)
    requires Field(done, req).Some?
    ensures j < |done| && done[j].tok.req == req && Some(done[j].outcome) == Field(done, req)
  {
    var n := |done| - 1;
    if done[n].tok.req == req && !done[n].outcome.Unsent? {
      j := n;
    } else {
      j := FieldIsCompletion(done[..n], req);
    }
  }

  lemma {:induction false} NoFieldIsUnsent(done: seq<P.Done>, req: P.Req, j: nat)
    requires Field(done, req).None? && j < |done| && done[j].tok.req == req
    ensures done[j].outcome.Unsent?
  {
    var n := |done| - 1;
    if j < n {
      NoFieldIsUnsent(done[..n], req, j);
    }
  }

  /** A counter at zero means that the one push of the request has been completed. */
  lemma ReadyIsDone(s: State, k: nat) returns (j: nat)
    requires Inv(s) && k in s.sent && Ready(s, k)
    ensures j < |s.backend.done| && s.backend.done[j].tok == s.sent[k]
  {
    hide S.Inv, PT.Reachable, PT.Unresolved, PI.DoneToks, QueuedOk, RepliesOk;
    var t := s.sent[k];
    PT.BatchIsUnresolved(s.backend, t.req);
    UnresolvedTok(s.backend, t);
    j :| 0 <= j < |s.backend.done| && PI.DoneToks(s.backend.done)[j] == t;
  }

  lemma UnresolvedTok(b: P.State, t: P.Tok)
    requires t in b.pushed && |PT.Unresolved(b, t.req)| == 0
    ensures t in PI.DoneToks(b.done)
  {
    assert t !in PT.Unresolved(b, t.req);
  }

  /** What the writer reads in the request is what a completion of its own push left there. */
  lemma ResultIsOwn(s: State, k: nat)
    requires Inv(s) && k in s.sent && Ready(s, k) && k !in s.refused
    ensures Answers(s.backend.done, s.sent[k], ResultOf(s, k))
  {
    hide S.Inv, PT.Reachable, QueuedOk, RepliesOk, Field;
    var t := s.sent[k];
    var done := s.backend.done;
    if Field(done, t.req).Some? {
      var j := FieldIsCompletion(done, t.req);
      OwnTok(s, k, j);
      assert done[j].tok == t && ResultOf(s, k) == Handled(Some(done[j].outcome));
    } else {
      var j := ReadyIsDone(s, k);
      NoFieldIsUnsent(done, t.req, j);
      assert done[j].tok == t && ResultOf(s, k) == Handled(Some(done[j].outcome));
    }
  }

  /** Every completion of the request is one of its only push. */
  lemma OwnTok(s: State, k: nat, j: nat)
    requires Inv(s) && k in s.sent && j < |s.backend.done| && s.backend.done[j].tok.req == s.sent[k].req
    ensures s.backend.done[j].tok == s.sent[k]
  {
    hide S.Inv, PT.Reachable, QueuedOk, RepliesOk;
    assert PI.DoneToks(s.backend.done)[j] == s.backend.done[j].tok;
    PT.DoneWasPushed(s.backend, s.backend.done[j].tok);
  }

  lemma AnswerKeeps(s: State, encodes: bool)
    requires Inv(s) && Enabled(s, Answer(encodes))
    ensures Inv(Apply(s, Answer(encodes)))
  {
    hide S.Inv, S.Apply, PT.Reachable, Answers, ResultOf, SentInOrder;
    var k := s.session.writer.r.serial;
    var s' := Apply(s, Answer(encodes));
    SessionStep(s.session, S.Respond(ResultOf(s, k), encodes));
    RefusedResult(s, k);
    RepliesToQueued(s.session);
    if k !in s.refused {
      ResultIsOwn(s, k);
    }
    forall i | 0 <= i < |s'.session.encoded|
      ensures ReplyOk(s', s'.session.encoded[i])
    {
      if i < |s.session.encoded| {
        assert ReplyOk(s, s.session.encoded[i]);
      }
    }
  }

  lemma RefusedResult(s: State, k: nat)
    ensures k in s.refused ==> ResultOf(s, k) == S.Refused
  {
  }

  lemma StepInv(s: State, step: Step)
    requires Inv(s) && Enabled(s, step)
    ensures Inv(Apply(s, step))
  {
    hide Inv, Apply, Enabled;
    match step
    case Client(c) => ClientKeeps(s, c);
    case Forward(readOnly) => ForwardKeeps(s, readOnly);
    case Refuse => DispatchKeeps(s, step);
    case Queue => DispatchKeeps(s, step);
    case Answer(encodes) => AnswerKeeps(s, encodes);
    case Backend(b) => BackendKeeps(s, b);
  }

  lemma {:induction false} RunInv(s: State, steps: seq<Step>)
    requires Inv(s) && IsRun(s, steps)
    ensures Inv(After(s, steps))
    decreases |steps|
  {
    hide Inv, Enabled, Apply;
    if steps != [] {
      StepInv(s, steps[0]);
      RunInv(Apply(s, steps[0]), steps[1..]);
    }
  }

  // ---------------------------------------------------------------- theorems

  /** The reply is the one its dispatch's error was made into, or the outcome of the request's own and only push. */
  ghost predicate IsOwnReply(s: State, k: nat, reply: S.Reply) {
    && reply.to == S.Request(k)
    && if k in s.refused then reply.result == S.Refused
       else
         && k in s.sent && s.sent[k].req.id == 2 * k
         && exists j :: 0 <= j < |s.backend.done| && s.backend.done[j].tok == s.sent[k]
              && IsOutcome(s.backend, s.backend.done[j], reply.result)
  }

  /** A payload is the server's answer to this push, at the place it was written at on its connection. */
  predicate IsOutcome(b: P.State, d: P.Done, result: S.Result) {
    match d.outcome
    case Reply(i, n, answer) =>
      && result == S.Resp(answer.payload) && answer.to == d.tok
      && i < |b.rounds| && n < |b.rounds[i].written| && b.rounds[i].written[n] == d.tok
      && n < |b.rounds[i].served| && b.rounds[i].served[n] == answer
    case Failed(_) => result == S.Err(1)
    case Unsent => result == S.Err(0)
  }

  lemma OutcomeOfDone(b: P.State, j: nat, result: S.Result)
    requires PT.Reachable(b) && j < |b.done| && result == Handled(Some(b.done[j].outcome))
    ensures IsOutcome(b, b.done[j], result)
  {
    hide PT.Reachable;
    if b.done[j].outcome.Reply? {
      PT.ReplyIsItsOwn(b, j);
    }
  }

  lemma OwnReply(s: State, k: nat)
    requires Inv(s) && k < |s.session.encoded| && s.session.encoded[k].to == S.Request(k) && k < |s.session.queued|
    ensures IsOwnReply(s, k, s.session.encoded[k])
  {
    hide S.Inv, PT.Reachable, Handled, IsOutcome;
    var reply := s.session.encoded[k];
    assert ReplyOk(s, reply);
    if k !in s.refused {
      var j :| 0 <= j < |s.backend.done| && s.backend.done[j].tok == s.sent[k]
        && reply.result == Handled(Some(s.backend.done[j].outcome));
      OutcomeOfDone(s.backend, j, reply.result);
    }
  }

  /**
   * In every run of the session and the backend together, the k-th reply the client reads is the server's answer to the
   * client's k-th request, or reports that this very request failed.
   */
  lemma RepliesAreAnswers(config: S.Config, cap: nat, steps: seq<Step>)
    requires IsRun(Init(config, cap), steps)
    ensures
      var s := After(Init(config, cap), steps);
      forall k :: 0 <= k < |s.session.encoded| ==> IsOwnReply(s, k, s.session.encoded[k])
  {
    hide IsRun, After, Inv, IsOwnReply, Init;
    InitInv(config, cap);
    RunInv(Init(config, cap), steps);
    var s := After(Init(config, cap), steps);
    forall k | 0 <= k < |s.session.encoded|
      ensures IsOwnReply(s, k, s.session.encoded[k])
    {
      InOrder(s, k);
      OwnReply(s, k);
    }
  }

  /**
   * In every run, an answer to a request of the session that was decoded is what the client reads, unless dispatch
   * refused the request after all.
   */
  lemma DecodedIsRead(config: S.Config, cap: nat, steps: seq<Step>, k: nat, i: nat, n: nat)
    requires IsRun(Init(config, cap), steps)
    requires
      var s := After(Init(config, cap), steps);
      && k < |s.session.encoded| && k in s.sent && k !in s.refused
      && i < |s.backend.rounds| && n < s.backend.rounds[i].decoded
      && n < |s.backend.rounds[i].written| && s.backend.rounds[i].written[n] == s.sent[k]
    ensures
      var s := After(Init(config, cap), steps);
      n < |s.backend.rounds[i].served| &&
      s.session.encoded[k] == S.Reply(S.Request(k), S.Resp(s.backend.rounds[i].served[n].payload))
  {
    hide IsRun, After, Inv, Init;
    RepliesAreAnswers(config, cap, steps);
    InitInv(config, cap);
    RunInv(Init(config, cap), steps);
    DecodedReply(After(Init(config, cap), steps), k, i, n);
  }

  lemma DecodedReply(s: State, k: nat, i: nat, n: nat)
    requires Inv(s) && k < |s.session.encoded| && IsOwnReply(s, k, s.session.encoded[k]) && k in s.sent && k !in s.refused
    requires i < |s.backend.rounds| && n < s.backend.rounds[i].decoded
    requires n < |s.backend.rounds[i].written| && s.backend.rounds[i].written[n] == s.sent[k]
    ensures n < |s.backend.rounds[i].served|
    ensures s.session.encoded[k] == S.Reply(S.Request(k), S.Resp(s.backend.rounds[i].served[n].payload))
  {
    hide PT.Reachable, S.Inv, SentOk, QueuedOk, RepliesOk, SentInOrder;
    var b, reply := s.backend, s.session.encoded[k];
    PO.DecodedIsDelivered(b, i, n);
    var j :| 0 <= j < |b.done| && b.done[j].tok == s.sent[k] && IsOutcome(b, b.done[j], reply.result);
    PO.SameCompletion(b, b.done[j], P.Done(s.sent[k], P.Reply(i, n, b.rounds[i].served[n])));
  }

  /** And the server is sent the session's requests in the order the client made them. */
  lemma RequestsAreWrittenInOrder(config: S.Config, cap: nat, steps: seq<Step>, k: nat, l: nat, i: nat, a: nat, j: nat, b: nat)
    requires IsRun(Init(config, cap), steps) && k < l
    requires
      var s := After(Init(config, cap), steps);
      && k in s.sent && l in s.sent && i < |s.backend.rounds| && j < |s.backend.rounds|
      && a < |s.backend.rounds[i].written| && s.backend.rounds[i].written[a] == s.sent[k]
      && b < |s.backend.rounds[j].written| && s.backend.rounds[j].written[b] == s.sent[l]
    ensures i < j || (i == j && a < b)
  {
    hide IsRun, After, Init, PT.Reachable, S.Inv, SentOk, QueuedOk, RepliesOk;
    InitInv(config, cap);
    RunInv(Init(config, cap), steps);
    var s := After(Init(config, cap), steps);
    if j < i || (i == j && b < a) {
      PO.WrittenInPushOrder(s.backend, j, b, i, a);
    }
  }

  lemma InOrder(s: State, k: nat)
    requires Inv(s) && k < |s.session.encoded|
    ensures s.session.encoded[k].to == S.Request(k) && k < |s.session.queued|
  {
    assert S.Answered(s.session.encoded)[k] == s.session.queued[k];
  }

  // ---------------------------------------------------------------- a session that is stuck

  /** The push hit the closed channel, or lies on the input channel of a writer that has stopped. */
  predicate Dead(b: P.State, t: P.Tok) {
    t in b.panicked || (b.writer.Stopped? && t in b.input)
  }

  lemma DeadStays(b: P.State, step: P.Step, t: P.Tok)
    requires P.Enabled(b, step) && Dead(b, t)
    ensures Dead(P.Apply(b, step), t)
  {
    hide P.ControlWriter, P.ControlFails, P.OutWriter, P.OutRound, P.ConnRound, P.ConnDone;
    if t !in b.panicked {
      PT.StoppedStep(b, step);
    }
  }

  lemma DeadIsUndone(b: P.State, t: P.Tok)
    requires PT.Reachable(b) && Dead(b, t) && t in b.pushed
    ensures P.Counter(b.batch, t.req) != 0
  {
    hide PT.Reachable, PI.WaitingAll, PI.DoneToks;
    PT.ExactlyOnePlace(b, t);
    PT.BatchIsUnresolved(b, t.req);
    assert t in PT.Unresolved(b, t.req);
  }

  /** The writer waits for a request of this session that no one will complete. */
  predicate WaitsInVain(s: State, k: nat) {
    && s.session.writer == S.Responding(S.Request(k))
    && k in s.sent && Dead(s.backend, s.sent[k])
  }

  lemma VainStep(s: State, step: Step, k: nat)
    requires Inv(s) && Enabled(s, step) && WaitsInVain(s, k)
    ensures WaitsInVain(Apply(s, step), k) && Apply(s, step).session.encoded == s.session.encoded
  {
    hide PT.Reachable, S.Inv, P.Apply, QueuedOk, RepliesOk;
    match step
    case Forward(readOnly) => DeadStays(s.backend, P.Push(OwnReq(s.session.reader.r.serial, readOnly)), s.sent[k]);
    case Backend(b) => DeadStays(s.backend, b, s.sent[k]);
    case Answer(_) => DeadIsUndone(s.backend, s.sent[k]);
    case _ =>
  }

  lemma {:induction false} VainRun(s: State, steps: seq<Step>, k: nat)
    requires Inv(s) && IsRun(s, steps) && WaitsInVain(s, k)
    ensures WaitsInVain(After(s, steps), k) && After(s, steps).session.encoded == s.session.encoded
    decreases |steps|
  {
    hide Inv, Enabled, Apply, WaitsInVain;
    if steps != [] {
      StepInv(s, steps[0]);
      VainStep(s, steps[0], k);
      VainRun(Apply(s, steps[0]), steps[1..], k);
    }
  }

  /** Then the session encodes no reply in any continuation of the run: not this one, and none behind it. */
  lemma StuckForEver(config: S.Config, cap: nat, before: seq<Step>, after: seq<Step>, k: nat)
    requires IsRun(Init(config, cap), before) && IsRun(After(Init(config, cap), before), after)
    requires WaitsInVain(After(Init(config, cap), before), k)
    ensures
      var s := After(Init(config, cap), before);
      After(s, after).session.encoded == s.session.encoded && WaitsInVain(After(s, after), k)
  {
    hide IsRun, After, Inv, WaitsInVain, Init;
    InitInv(config, cap);
    RunInv(Init(config, cap), before);
    VainRun(After(Init(config, cap), before), after, k);
  }
}
