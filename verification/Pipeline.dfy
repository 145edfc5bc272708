/**
 * One BackendConn of pool.go as a step system: producers, the bounded input channel, the writer goroutine, and one
 * connection per round, each with its bounded task channel, its reader goroutine and a FIFO server behind it.
 * Readers of earlier rounds may still be running.
 */
module Pipeline {
  import opened Wrappers
  import FlushRule

  /** A request object; only its read-only flag matters to the writer. */
  datatype Req = Req(id: nat, readOnly: bool)

  /** One push of a request. The serial number tells pushes of the same request apart. */
  datatype Tok = Tok(req: Req, serial: nat)

  /** A server's answer to the request it was sent. */
  datatype Answer = Answer(to: Tok, payload: int)

  datatype Outcome =
    | Reply(round: nat, index: nat, answer: Answer)  // a successful setResponse
    | Failed(why: Why)  // setResponse with an error
    | Unsent  // PushBack on a full input: Done without a response

  datatype Why = ConnReset | RequestIsBroken | WriteFailure | ReadFailure

  datatype Done = Done(tok: Tok, outcome: Outcome)

  datatype Mode = Reading | Draining | Gone

  datatype Round = Round(
    written: seq<Tok>,  // requests encoded on this connection, in order
    nbuffered: nat,  // FlushEncoder's count since its last flush
    flushed: nat,  // how many of them a flush has pushed out
    sent: nat,  // how many the server has received in full
    served: seq<Answer>,  // the server's answers, in order
    tasks: seq<Tok>, closed: bool,  // the channel from the writer to the reader
    mode: Mode, hand: Option<Tok>,  // the reader, and the request it took from the channel
    decoded: nat,  // how many answers the reader has decoded
    resolved: seq<Tok>,  // what the reader has completed, in order
    lost: seq<Tok>)  // encoded, then failed by the writer itself

  /** Where the writer goroutine stands. */
  datatype Writer =
    | Starting  // the test at the top of run
    | Connecting  // newBackendReader
    | Idle(skipped: bool)  // receiving from input; did it just skip a broken request?
    | Encoding(tok: Tok)
    | Flushing(tok: Tok)
    | Pushing(tok: Tok)  // tasks <- r
    | Closing(failed: bool)  // the deferred close(tasks)
    | Emptying(left: nat, failed: bool)  // the deferred drain of input
    | Delaying  // the slow path of delayBeforeRetry
    | Stopped

  const INPUT_CAP: nat := 10240

  datatype State = State(
    cap: nat,  // cap(tasks)
    input: seq<Tok>, inputClosed: bool, closed: bool,
    pushed: seq<Tok>,  // every PushBack, in order
    panicked: seq<Tok>,  // pushes that hit the closed channel
    done: seq<Done>,  // every completion, in order
    batch: map<Req, int>,  // the WaitGroup counters
    rounds: seq<Round>, writer: Writer, fails: nat)

  /** Steps of the writer goroutine away from the connection. */
  datatype ControlStep =
    | Start | Connect(ok: bool) | Receive | InputEnded | SkipBroken | DrainOne | DrainEnd | DelayReset | DelayEnd

  /** Steps of the writer goroutine on the current connection. */
  datatype OutStep =
    | EncodeOk | EncodeFail(complete: bool) | FlushOk(late: bool) | FlushFail(late: bool)
    | PushTask | Handoff | CloseTasks

  /** Steps of the reader goroutine of a connection, and of what lies behind it. */
  datatype ConnStep =
    | AutoSend(n: nat) | Serve(payload: int) | Take | DecodeOk | DecodeFail | DrainTask | ReaderExit

  datatype Step =
    | Push(req: Req)
    | CloseInput | SetClosed
    | Control(c: ControlStep)
    | Out(o: OutStep)
    | OnConn(i: nat, e: ConnStep)

  // ---------------------------------------------------------------- state helpers

  function Counter(batch: map<Req, int>, r: Req): int {
    if r in batch then batch[r] else 0
  }

  /** setResponse: record the outcome and count the request's batch down. */
  function Complete(s: State, tok: Tok, outcome: Outcome): State {
    s.(done := s.done + [Done(tok, outcome)], batch := s.batch[tok.req := Counter(s.batch, tok.req) - 1])
  }

  function Record(s: State, ds: seq<Done>): State {
    if ds == [] then s else Complete(s, ds[0].tok, ds[0].outcome)
  }

  function Last(s: State): Round
    requires s.rounds != []
  {
    s.rounds[|s.rounds| - 1]
  }

  const FRESH_ROUND: Round := Round([], 0, 0, 0, [], [], false, Reading, None, 0, [], [])

  function Init(cap: nat): State {
    State(cap, [], false, false, [], [], [], map[], [], Starting, 0)
  }

  /** The writer sits in the loop of loopWriter, on the latest connection. */
  predicate Active(w: Writer) {
    w.Idle? || w.Encoding? || w.Flushing? || w.Pushing?
  }

  // ---------------------------------------------------------------- PushBack

  /** PushBack: the batch counts up first; a closed channel panics, a full one drops. */
  function DoPush(s: State, req: Req): State {
    var tok := Tok(req, |s.pushed|);
    var s1 := s.(pushed := s.pushed + [tok], batch := s.batch[req := Counter(s.batch, req) + 1]);
    if s.inputClosed then s1.(panicked := s.panicked + [tok])
    else if |s.input| < INPUT_CAP then s1.(input := s.input + [tok])
    else Complete(s1, tok, Unsent)
  }

  // ---------------------------------------------------------------- run, delayBeforeRetry, the loop head

  predicate ControlEnabled(s: State, c: ControlStep) {
    match c
    case Start => s.writer.Starting?
    case Connect(_) => s.writer.Connecting?
    case Receive => s.writer.Idle? && s.input != []
    case InputEnded => s.writer.Idle? && s.input == [] && s.inputClosed
    case SkipBroken => s.writer.Encoding? && s.writer.tok.req.readOnly
    case DrainOne => s.writer.Emptying? && s.writer.left != 0 && s.input != []
    case DrainEnd => s.writer.Emptying? && s.writer.left == 0
    case DelayReset => s.writer.Delaying? && s.input != []
    case DelayEnd => s.writer.Delaying?
  }

  function ControlWriter(s: State, c: ControlStep): Writer
    requires ControlEnabled(s, c)
  {
    match c
    case Start => if s.closed then Stopped else Connecting
    case Connect(ok) => if ok then Idle(false) else Emptying(|s.input|, true)
    case Receive => Encoding(s.input[0])
    case InputEnded => Closing(false)
    case SkipBroken => Idle(true)
    case DrainOne => Emptying(s.writer.left - 1, s.writer.failed)
    case DrainEnd => if !s.writer.failed || s.fails + 1 <= 10 then Starting else Delaying
    case DelayReset => Delaying
    case DelayEnd => Starting
  }

  function ControlDone(s: State, c: ControlStep): seq<Done>
    requires ControlEnabled(s, c)
  {
    match c
    case SkipBroken => [Done(s.writer.tok, Failed(RequestIsBroken))]
    case DrainOne => [Done(s.input[0], Failed(ConnReset))]
    case DelayReset => [Done(s.input[0], Failed(ConnReset))]
    case _ => []
  }

  predicate TakesInput(c: ControlStep) {
    c.Receive? || c.DrainOne? || c.DelayReset?
  }

  function ControlFails(s: State, c: ControlStep): nat {
    if c == Connect(true) then 0 else if c.DrainEnd? && s.writer == Emptying(0, true) then s.fails + 1 else s.fails
  }

  function DoControl(s: State, c: ControlStep): State
    requires ControlEnabled(s, c)
  {
    Record(s, ControlDone(s, c)).(
      input := if TakesInput(c) then s.input[1..] else s.input,
      rounds := if c == Connect(true) then s.rounds + [FRESH_ROUND] else s.rounds,
      fails := ControlFails(s, c),
      writer := ControlWriter(s, c))
  }

  // ---------------------------------------------------------------- loopWriter on its connection

  /** The test in FlushEncoder.Flush(len(input) == 0). */
  predicate MustFlush(r: Round, cap: nat, inputEmpty: bool, late: bool) {
    inputEmpty || FlushRule.NeedFlush(r.nbuffered, cap / 2, late)
  }

  predicate OutEnabled(s: State, o: OutStep) {
    && s.rounds != []
    && match o
       case EncodeOk => s.writer.Encoding?
       case EncodeFail(_) => s.writer.Encoding?
       case FlushOk(_) => s.writer.Flushing?
       case FlushFail(late) => s.writer.Flushing? && MustFlush(Last(s), s.cap, s.input == [], late)
       case PushTask => s.writer.Pushing? && |Last(s).tasks| < s.cap
       case Handoff => s.writer.Pushing? && CanTake(Last(s)) && Last(s).tasks == []
       case CloseTasks => s.writer.Closing?
  }

  function OutWriter(s: State, o: OutStep): Writer
    requires OutEnabled(s, o)
  {
    match o
    case EncodeOk => Flushing(s.writer.tok)
    case EncodeFail(_) => Closing(true)
    case FlushOk(_) => Pushing(s.writer.tok)
    case FlushFail(_) => Closing(true)
    case PushTask => Idle(false)
    case Handoff => Idle(false)
    case CloseTasks => Emptying(|s.input|, s.writer.failed)
  }

  function OutDone(s: State, o: OutStep): seq<Done>
    requires OutEnabled(s, o)
  {
    if o.EncodeFail? || o.FlushFail? then [Done(s.writer.tok, Failed(WriteFailure))] else []
  }

  function OutRound(s: State, o: OutStep): Round
    requires OutEnabled(s, o)
  {
    var r := Last(s);
    match o
    case EncodeOk => r.(written := r.written + [s.writer.tok], nbuffered := r.nbuffered + 1)
    case EncodeFail(complete) =>
      if complete then r.(written := r.written + [s.writer.tok], lost := r.lost + [s.writer.tok]) else r
    case FlushOk(late) =>
      if MustFlush(r, s.cap, s.input == [], late) then r.(flushed := |r.written|, sent := |r.written|, nbuffered := 0)
      else r
    case FlushFail(_) => r.(lost := r.lost + [s.writer.tok])
    case PushTask => r.(tasks := r.tasks + [s.writer.tok])
    case Handoff => r.(hand := Some(s.writer.tok))
    case CloseTasks => r.(closed := true)
  }

  function DoOut(s: State, o: OutStep): State
    requires OutEnabled(s, o)
  {
    Record(s, OutDone(s, o)).(rounds := s.rounds[|s.rounds| - 1 := OutRound(s, o)], writer := OutWriter(s, o))
  }

  // ---------------------------------------------------------------- loopReader, and the FIFO server

  /** The reader stands at its receive from `tasks`. */
  predicate CanTake(r: Round) {
    !r.mode.Gone? && r.hand.None?
  }

  predicate ConnEnabled(r: Round, e: ConnStep) {
    match e
    case AutoSend(n) => r.sent <= n <= |r.written|
    case Serve(_) => |r.served| < r.sent <= |r.written|
    case Take => CanTake(r) && r.tasks != []
    case DecodeOk => r.mode.Reading? && r.hand.Some? && r.decoded < |r.served|
    case DecodeFail => r.mode.Reading? && r.hand.Some?
    case DrainTask => r.mode.Draining? && r.hand.Some?
    case ReaderExit => CanTake(r) && r.tasks == [] && r.closed
  }

  function ConnRound(r: Round, e: ConnStep): Round
    requires ConnEnabled(r, e)
  {
    match e
    case AutoSend(n) => r.(sent := n)
    case Serve(payload) => r.(served := r.served + [Answer(r.written[|r.served|], payload)])
    case Take => r.(hand := Some(r.tasks[0]), tasks := r.tasks[1..])
    case DecodeOk => r.(hand := None, decoded := r.decoded + 1, resolved := r.resolved + [r.hand.value])
    case DecodeFail => r.(hand := None, mode := Draining, resolved := r.resolved + [r.hand.value])
    case DrainTask => r.(hand := None, resolved := r.resolved + [r.hand.value])
    case ReaderExit => r.(mode := Gone)
  }

  function ConnDone(r: Round, i: nat, e: ConnStep): seq<Done>
    requires ConnEnabled(r, e)
  {
    match e
    case DecodeOk => [Done(r.hand.value, Reply(i, r.decoded, r.served[r.decoded]))]
    case DecodeFail => [Done(r.hand.value, Failed(ReadFailure))]
    case DrainTask => [Done(r.hand.value, Failed(ConnReset))]
    case _ => []
  }

  function DoConn(s: State, i: nat, e: ConnStep): State
    requires i < |s.rounds| && ConnEnabled(s.rounds[i], e)
  {
    Record(s, ConnDone(s.rounds[i], i, e)).(rounds := s.rounds[i := ConnRound(s.rounds[i], e)])
  }

  // ---------------------------------------------------------------- runs

  predicate Enabled(s: State, step: Step) {
    match step
    case Push(_) => true
    case CloseInput => !s.inputClosed
    case SetClosed => s.inputClosed
    case Control(c) => ControlEnabled(s, c)
    case Out(o) => OutEnabled(s, o)
    case OnConn(i, e) => i < |s.rounds| && ConnEnabled(s.rounds[i], e)
  }

  function Apply(s: State, step: Step): State
    requires Enabled(s, step)
  {
    match step
    case Push(req) => DoPush(s, req)
    case CloseInput => s.(inputClosed := true)
    case SetClosed => s.(closed := true)
    case Control(c) => DoControl(s, c)
    case Out(o) => DoOut(s, o)
    case OnConn(i, e) => DoConn(s, i, e)
  }

  /** A run: every step is enabled where it is taken. */
  predicate IsRun(s: State, steps: seq<Step>)
    decreases |steps|
  {
    steps == [] || (Enabled(s, steps[0]) && IsRun(Apply(s, steps[0]), steps[1..]))
  }

  function After(s: State, steps: seq<Step>): State
    requires IsRun(s, steps)
    decreases |steps|
  {
    if steps == [] then s else After(Apply(s, steps[0]), steps[1..])
  }
}
